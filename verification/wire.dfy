/**
 Octets on the wire: big-endian numbers and identifiers at a position of a buffer, the range check
 every reader and writer starts with, and the AVTP common control header of clause 5.3 of
 IEEE Std 1722-2011. Masks and shifts of the source are written as remainders and quotients.
 */
module Wire {
  import opened Words

  type Eui48 = s: seq<Octet> | |s| == 6 witness seq(6, _ => 0)
  type Eui64 = s: seq<Octet> | |s| == 8 witness seq(8, _ => 0)

  /** `jdksavdecc_validate_range`. */
  function ValidateRange(pos: nat, len: nat, size: nat): int {
    if pos + size <= len then pos + size else -1
  }

  /** A buffer after some octets were stored at a position: nothing else changes. */
  function Put(b: seq<Octet>, at: nat, s: seq<Octet>): (r: seq<Octet>)
    requires at + |s| <= |b|
    ensures |r| == |b|
  {
    b[..at] + s + b[at + |s|..]
  }

  lemma PutIs(b: seq<Octet>, at: nat, s: seq<Octet>)
    requires at + |s| <= |b|
    ensures forall i :: 0 <= i < |b| ==> Put(b, at, s)[i] == if at <= i < at + |s| then s[i - at] else b[i]
    ensures Put(b, at, s)[at..at + |s|] == s
  {}

  /** Two stores side by side are one. */
  lemma PutPut(b: seq<Octet>, at: nat, s: seq<Octet>, t: seq<Octet>)
    requires at + |s| + |t| <= |b|
    ensures Put(Put(b, at, s), at + |s|, t) == Put(b, at, s + t)
  {
    PutIs(b, at, s);
    PutIs(Put(b, at, s), at + |s|, t);
    PutIs(b, at, s + t);
    hide Put;
  }

  function Uint16(v: Short): (s: seq<Octet>)
    ensures |s| == 2
  {
    [v / 0x100, v % 0x100]
  }

  /** Two digits to the base 256, or 65536. */
  function Join(base: int, high: int, low: int): int {
    base * high + low
  }

  function Uint16Of(s: seq<Octet>): Short
    requires |s| == 2
  {
    Join(0x100, s[0], s[1])
  }

  function Uint32(v: Word): (s: seq<Octet>)
    ensures |s| == 4
  {
    Uint16(v / 0x1_0000) + Uint16(v % 0x1_0000)
  }

  function Uint32Of(s: seq<Octet>): Word
    requires |s| == 4
  {
    Join(0x1_0000, Uint16Of(s[..2]), Uint16Of(s[2..]))
  }

  lemma Uint16Trip(v: Short, s: seq<Octet>)
    requires |s| == 2
    ensures Uint16Of(Uint16(v)) == v && Uint16(Uint16Of(s)) == s
  {}

  lemma Digits(high: Short, low: Short)
    ensures Join(0x1_0000, high, low) / 0x1_0000 == high && Join(0x1_0000, high, low) % 0x1_0000 == low
  {}

  lemma JoinDigits(v: Word)
    ensures Join(0x1_0000, v / 0x1_0000, v % 0x1_0000) == v
  {}

  lemma Uint32There(v: Word)
    ensures Uint32Of(Uint32(v)) == v
  {
    Uint16Trip(v / 0x1_0000, [0, 0]);
    Uint16Trip(v % 0x1_0000, [0, 0]);
    JoinDigits(v);
    hide Uint16, Uint16Of, Join;
    assert Uint32(v)[..2] == Uint16(v / 0x1_0000) && Uint32(v)[2..] == Uint16(v % 0x1_0000);
  }

  lemma Uint32Back(s: seq<Octet>)
    requires |s| == 4
    ensures Uint32(Uint32Of(s)) == s
  {
    Uint16Trip(0, s[..2]);
    Uint16Trip(0, s[2..]);
    Digits(Uint16Of(s[..2]), Uint16Of(s[2..]));
    hide Uint16, Uint16Of, Join;
    assert s[..2] + s[2..] == s;
  }

  /** `memcpy` into a buffer; also the one-octet store. */
  method SetOctets(s: seq<Octet>, base: array<Octet>, at: nat)
    requires at + |s| <= base.Length
    modifies base
    ensures base[..] == Put(old(base[..]), at, s)
  {
    for i := 0 to |s|
      invariant forall j :: 0 <= j < base.Length ==> base[j] == if at <= j < at + i then s[j - at] else old(base[j])
    {
      base[at + i] := s[i];
    }
  }

  method SetUint16(v: Short, base: array<Octet>, at: nat)
    requires at + 2 <= base.Length
    modifies base
    ensures base[..] == Put(old(base[..]), at, Uint16(v))
  {
    base[at] := v / 0x100;
    base[at + 1] := v % 0x100;
  }

  method SetUint32(v: Word, base: array<Octet>, at: nat)
    requires at + 4 <= base.Length
    modifies base
    ensures base[..] == Put(old(base[..]), at, Uint32(v))
  {
    SetUint16(v / 0x1_0000, base, at);
    SetUint16(v % 0x1_0000, base, at + 2);
    PutPut(old(base[..]), at, Uint16(v / 0x1_0000), Uint16(v % 0x1_0000));
  }

  // ----- The common control header -----

  const HEADER_LEN: nat := 12

  /** With the widths of the AECP structure; the other structures are bit fields, always in range. */
  datatype Header = Header(cd: Octet, subtype: Octet, sv: Octet, version: Octet, controlData: Octet,
                           status: Octet, dataLength: Short, id: Eui64)

  predicate InRange(h: Header) {
    h.cd < 2 && h.subtype < 0x80 && h.sv < 2 && h.version < 8 && h.controlData < 0x10 && h.status < 0x20
      && h.dataLength < 0x800
  }

  /** What the setters keep of each field. */
  function Masked(h: Header): (m: Header)
    ensures InRange(m)
    ensures InRange(h) <==> m == h
  {
    Header(if h.cd == 0 then 0 else 1, h.subtype % 0x80, if h.sv == 0 then 0 else 1, h.version % 8,
           h.controlData % 0x10, h.status % 0x20, h.dataLength % 0x800, h.id)
  }

  /** The first four octets. */
  function Bits(h: Header): (s: seq<Octet>)
    requires InRange(h)
    ensures |s| == 4
  {
    [0x80 * h.cd + h.subtype, 0x80 * h.sv + 0x10 * h.version + h.controlData, 8 * h.status + h.dataLength / 0x100,
      h.dataLength % 0x100]
  }

  function HeaderOctets(h: Header): (s: seq<Octet>)
    ensures |s| == HEADER_LEN
  {
    Bits(Masked(h)) + h.id
  }

  /** The getters. */
  function HeaderOf(s: seq<Octet>): (h: Header)
    requires |s| == HEADER_LEN
  {
    Header(s[0] / 0x80, s[0] % 0x80, s[1] / 0x80, s[1] / 0x10 % 8, s[1] % 0x10, s[2] / 8, Join(0x100, s[2] % 8, s[3]),
      s[4..12])
  }

  /** The seven fields and the first four octets determine each other: reading what was written gives
      back exactly the fields in range, and writing what was read gives back the octets. */
  lemma HeaderTrip(h: Header, s: seq<Octet>)
    requires |s| == HEADER_LEN
    ensures HeaderOf(HeaderOctets(h)) == Masked(h)
    ensures InRange(HeaderOf(s)) && HeaderOctets(HeaderOf(s)) == s
  {
    HeaderThere(Masked(h));
    HeaderBack(s);
    hide Masked, HeaderOf, Bits;
    assert Masked(Masked(h)) == Masked(h);
  }

  lemma HeaderThere(h: Header)
    requires InRange(h)
    ensures HeaderOf(Bits(h) + h.id) == h
  {
    var s := Bits(h) + h.id;
    assert s[4..12] == h.id;
    BitsThere(h, s[0], s[1], s[2], s[3]);
    hide Bits;
  }

  lemma BitsThere(h: Header, a: Octet, b: Octet, c: Octet, d: Octet)
    requires InRange(h) && Bits(h) == [a, b, c, d]
    ensures a / 0x80 == h.cd && a % 0x80 == h.subtype
    ensures b / 0x80 == h.sv && b / 0x10 % 8 == h.version && b % 0x10 == h.controlData
    ensures c / 8 == h.status && Join(0x100, c % 8, d) == h.dataLength
  {
    assert a == Bits(h)[0] && b == Bits(h)[1] && c == Bits(h)[2] && d == Bits(h)[3];
    SecondThere(h.sv, h.version, h.controlData);
    ThirdThere(h.status, h.dataLength);
    hide Join;
  }

  lemma SecondThere(sv: Octet, version: Octet, data: Octet)
    requires sv < 2 && version < 8 && data < 0x10
    ensures var b := 0x80 * sv + 0x10 * version + data;
            b / 0x80 == sv && b / 0x10 % 8 == version && b % 0x10 == data
  {
    var b: int := 0x80 * sv + 0x10 * version + data;
    assert b / 0x10 == 8 * sv + version;
  }

  lemma ThirdThere(status: Octet, n: Short)
    requires status < 0x20 && n < 0x800
    ensures var c := 8 * status + n / 0x100;
            c / 8 == status && Join(0x100, c % 8, n % 0x100) == n
  {}

  lemma HeaderBack(s: seq<Octet>)
    requires |s| == HEADER_LEN
    ensures InRange(HeaderOf(s)) && HeaderOctets(HeaderOf(s)) == s
  {
    SecondBack(s[1]);
    ThirdBack(s[2], s[3]);
    hide Join;
    var h := HeaderOf(s);
    assert Bits(h) == [s[0], s[1], s[2], s[3]] == s[..4];
    assert s[..4] + s[4..12] == s;
    hide Bits, HeaderOf;
  }

  lemma SecondBack(b: Octet)
    ensures 0x80 * (b / 0x80) + 0x10 * (b / 0x10 % 8) + b % 0x10 == b
  {
    assert b / 0x80 == b / 0x10 / 8;
  }

  lemma ThirdBack(c: Octet, d: Octet)
    ensures var n := Join(0x100, c % 8, d);
            n < 0x800 && 8 * (c / 8) + n / 0x100 == c && n % 0x100 == d
  {
    assert Join(0x100, c % 8, d) / 0x100 == c % 8;
  }

  // ----- The setters: what each makes of an octet -----

  function WithTopBit(o: Octet, v: Octet): Octet {
    o % 0x80 + if v == 0 then 0 else 0x80
  }

  function WithSubtype(o: Octet, v: Octet): Octet {
    o / 0x80 * 0x80 + v % 0x80
  }

  function WithVersion(o: Octet, v: Octet): Octet {
    o / 0x80 * 0x80 + v % 8 * 0x10 + o % 0x10
  }

  function WithControlData(o: Octet, v: Octet): Octet {
    o / 0x10 * 0x10 + v % 0x10
  }

  function WithStatus(o: Octet, v: Octet): Octet {
    v % 0x20 * 8 + o % 8
  }

  function WithHighLength(o: Octet, v: Short): Octet {
    o / 8 * 8 + v / 0x100 % 8
  }

  /** One after another, they replace every bit. */
  lemma SettersReplaceAll(h: Header, o: seq<Octet>)
    requires |o| == 4
    ensures WithSubtype(WithTopBit(o[0], h.cd), h.subtype) == Bits(Masked(h))[0]
    ensures WithControlData(WithVersion(WithTopBit(o[1], h.sv), h.version), h.controlData) == Bits(Masked(h))[1]
    ensures WithHighLength(WithStatus(o[2], h.status), h.dataLength) == Bits(Masked(h))[2]
    ensures h.dataLength % 0x100 == Bits(Masked(h))[3]
  {
    FirstOctet(o[0], h.cd, h.subtype);
    SecondOctet(o[1], h.sv, h.version, h.controlData);
    ThirdOctet(o[2], h.status, h.dataLength);
    hide WithTopBit, WithSubtype, WithVersion, WithControlData, WithStatus, WithHighLength;
  }

  lemma FirstOctet(o: Octet, cd: Octet, subtype: Octet)
    ensures WithSubtype(WithTopBit(o, cd), subtype) == (if cd == 0 then 0 else 0x80) + subtype % 0x80
  {}

  lemma SecondOctet(o: Octet, sv: Octet, version: Octet, data: Octet)
    ensures WithControlData(WithVersion(WithTopBit(o, sv), version), data)
            == (if sv == 0 then 0 else 0x80) + 0x10 * (version % 8) + data % 0x10
  {
    var p := WithTopBit(o, sv);
    var q := WithVersion(p, version);
    assert q / 0x10 == (if sv == 0 then 0 else 8) + version % 8;
  }

  lemma ThirdOctet(o: Octet, status: Octet, n: Short)
    ensures WithHighLength(WithStatus(o, status), n) == 8 * (status % 0x20) + n % 0x800 / 0x100
    ensures n % 0x100 == n % 0x800 % 0x100
  {
    assert WithStatus(o, status) / 8 == status % 0x20;
    ElevenBits(n);
  }

  lemma ElevenBits(n: Short)
    ensures n % 0x800 / 0x100 == n / 0x100 % 8 && n % 0x100 == n % 0x800 % 0x100
  {
    var k := n / 0x800;
    assert n == 0x800 * k + n % 0x800;
  }

  method SetCd(v: Octet, base: array<Octet>, pos: nat)
    requires pos < base.Length
    modifies base
    ensures base[..] == old(base[..])[pos := WithTopBit(old(base[pos]), v)]
  {
    var n := if v == 0 then 0 else 0x80;
    base[pos] := base[pos] % 0x80 + n;
  }

  method SetSubtype(v: Octet, base: array<Octet>, pos: nat)
    requires pos < base.Length
    modifies base
    ensures base[..] == old(base[..])[pos := WithSubtype(old(base[pos]), v)]
  {
    base[pos] := base[pos] / 0x80 * 0x80 + v % 0x80;
  }

  method SetSv(v: Octet, base: array<Octet>, pos: nat)
    requires pos + 1 < base.Length
    modifies base
    ensures base[..] == old(base[..])[pos + 1 := WithTopBit(old(base[pos + 1]), v)]
  {
    base[pos + 1] := base[pos + 1] % 0x80 + if v == 0 then 0 else 0x80;
  }

  method SetVersion(v: Octet, base: array<Octet>, pos: nat)
    requires pos + 1 < base.Length
    modifies base
    ensures base[..] == old(base[..])[pos + 1 := WithVersion(old(base[pos + 1]), v)]
  {
    base[pos + 1] := base[pos + 1] / 0x80 * 0x80 + v % 8 * 0x10 + base[pos + 1] % 0x10;
  }

  method SetControlData(v: Octet, base: array<Octet>, pos: nat)
    requires pos + 1 < base.Length
    modifies base
    ensures base[..] == old(base[..])[pos + 1 := WithControlData(old(base[pos + 1]), v)]
  {
    base[pos + 1] := base[pos + 1] / 0x10 * 0x10 + v % 0x10;
  }

  method SetStatus(v: Octet, base: array<Octet>, pos: nat)
    requires pos + 2 < base.Length
    modifies base
    ensures base[..] == old(base[..])[pos + 2 := WithStatus(old(base[pos + 2]), v)]
  {
    base[pos + 2] := v % 0x20 * 8 + base[pos + 2] % 8;
  }

  method SetDataLength(v: Short, base: array<Octet>, pos: nat)
    requires pos + 3 < base.Length
    modifies base
    ensures base[..] == old(base[..])[pos + 2 := WithHighLength(old(base[pos + 2]), v)][pos + 3 := v % 0x100]
  {
    base[pos + 2] := base[pos + 2] / 8 * 8 + v / 0x100 % 8;
    base[pos + 3] := v % 0x100;
  }

  /** `jdksavdecc_common_control_header_write`: whatever the buffer held, the header's octets. */
  method HeaderWrite(h: Header, base: array<Octet>, pos: nat, len: nat) returns (r: int)
    requires len <= base.Length
    modifies base
    ensures r == ValidateRange(pos, len, HEADER_LEN)
    ensures base[..] == if r >= 0 then Put(old(base[..]), pos, HeaderOctets(h)) else old(base[..])
  {
    r := ValidateRange(pos, len, HEADER_LEN);
    if r >= 0 {
      SetBits(h, base, pos);
      PutPut(old(base[..]), pos, Bits(Masked(h)), h.id);
      SetOctets(h.id, base, pos + 4);
    }
  }

  method SetBits(h: Header, base: array<Octet>, pos: nat)
    requires pos + 4 <= base.Length
    modifies base
    ensures base[..] == Put(old(base[..]), pos, Bits(Masked(h)))
  {
    hide WithTopBit, WithSubtype, WithVersion, WithControlData, WithStatus, WithHighLength, Bits, Masked, Put;
    SettersReplaceAll(h, base[pos..pos + 4]);
    SetCd(h.cd, base, pos);
    SetSubtype(h.subtype, base, pos);
    SetSv(h.sv, base, pos);
    SetVersion(h.version, base, pos);
    SetControlData(h.controlData, base, pos);
    SetStatus(h.status, base, pos);
    SetDataLength(h.dataLength, base, pos);
    PutIs(old(base[..]), pos, Bits(Masked(h)));
  }

  /** `jdksavdecc_common_control_header_read`; `prev` is what the structure held before. */
  method HeaderRead(prev: Header, base: array<Octet>, pos: nat, len: nat) returns (r: int, h: Header)
    requires len <= base.Length
    ensures r == ValidateRange(pos, len, HEADER_LEN)
    ensures h == if r >= 0 then HeaderOf(base[pos..pos + HEADER_LEN]) else prev
  {
    h := prev;
    r := ValidateRange(pos, len, HEADER_LEN);
    if r >= 0 {
      h := h.(cd := base[pos] / 0x80, subtype := base[pos] % 0x80);
      h := h.(sv := base[pos + 1] / 0x80, version := base[pos + 1] / 0x10 % 8, controlData := base[pos + 1] % 0x10);
      h := h.(status := base[pos + 2] / 8, dataLength := Join(0x100, base[pos + 2] % 8, base[pos + 3]));
      h := h.(id := base[pos + 4..pos + 12]);
    }
  }
}
