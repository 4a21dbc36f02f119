/** The proxy PDU of Annex C.4 of IEEE Std 1722.1-2013. */
module Appdus {
  import opened Words
  import opened Wire
  import opened Pdus

  const APP_HEADER_LEN: nat := 12
  const MAX_APP_PAYLOAD: nat := 1500
  const BUFFER_LENGTH_INSUFFICIENT: int := -1
  const PAYLOAD_INCOMPLETE: int := -2
  const INVALID_HEADER: int := -3

  /** A null payload pointer, or the octets it points to. */
  datatype Appdu = Appdu(version: Octet, messageType: Octet, payloadLength: Short, address: Eui48, reserved: Short,
                         payload: Option<seq<Octet>>)

  const Cleared := Appdu(0, 0, 0, [0, 0, 0, 0, 0, 0], 0, None)

  predicate KnownType(t: Octet) {
    t <= 6 || t == 0xFF
  }

  /** A payload pointer that is not null leads to as many octets as the length says. */
  predicate Backed(p: Appdu) {
    p.payload.Some? ==> |p.payload.value| >= p.payloadLength
  }

  function Content(p: Appdu): seq<Octet>
    requires Backed(p)
  {
    if p.payload.None? then [] else p.payload.value[..p.payloadLength]
  }

  function AppHeader(p: Appdu): (s: seq<Octet>)
    ensures |s| == APP_HEADER_LEN
  {
    [p.version] + ([p.messageType] + Uint16(p.payloadLength) + p.address + Uint16(p.reserved))
  }

  /** The return code of `jdksavdecc_appdu_write`. */
  function WriteCode(p: Appdu, pos: nat, len: nat): int {
    if pos + APP_HEADER_LEN > len then BUFFER_LENGTH_INSUFFICIENT
    else if !KnownType(p.messageType) then INVALID_HEADER
    else if p.payloadLength == 0 then pos + APP_HEADER_LEN
    else if p.payload.None? || p.payloadLength > MAX_APP_PAYLOAD then INVALID_HEADER
    else if pos + APP_HEADER_LEN + p.payloadLength > len then BUFFER_LENGTH_INSUFFICIENT
    else pos + APP_HEADER_LEN + p.payloadLength
  }

  /** The buffer it leaves: on an error found late, the header or its first octet is already written. */
  function Written(p: Appdu, b: seq<Octet>, pos: nat, len: nat): seq<Octet>
    requires len <= |b| && Backed(p)
  {
    if pos + APP_HEADER_LEN > len then b
    else if !KnownType(p.messageType) then Put(b, pos, [p.version])
    else if WriteCode(p, pos, len) < 0 then Put(b, pos, AppHeader(p))
    else Put(b, pos, AppHeader(p) + Content(p))
  }

  method AppWrite(p: Appdu, base: array<Octet>, pos: nat, len: nat) returns (r: int)
    requires len <= base.Length && Backed(p)
    modifies base
    ensures r == WriteCode(p, pos, len)
    ensures base[..] == Written(p, old(base[..]), pos, len)
  {
    hide Put, Uint16;
    r := ValidateRange(pos, len, APP_HEADER_LEN);
    if r >= 0 {
      ghost var b := old(base[..]);
      SetOctets([p.version], base, pos);
      if KnownType(p.messageType) {
        AppWriteHeader(p, base, pos + 1);
        PutPut(b, pos, [p.version], [p.messageType] + Uint16(p.payloadLength) + p.address + Uint16(p.reserved));
        assert base[..] == Put(b, pos, AppHeader(p));
        if p.payloadLength > 0 {
          if p.payload.Some? && p.payloadLength <= MAX_APP_PAYLOAD {
            r := ValidateRange(pos, len, APP_HEADER_LEN + p.payloadLength);
            if r > 0 {
              SetOctets(p.payload.value[..p.payloadLength], base, pos + APP_HEADER_LEN);
              PutPut(b, pos, AppHeader(p), Content(p));
            } else {
              r := BUFFER_LENGTH_INSUFFICIENT;
            }
          } else {
            r := INVALID_HEADER;
          }
        } else {
          assert AppHeader(p) + Content(p) == AppHeader(p);
        }
      } else {
        r := INVALID_HEADER;
      }
    }
  }

  method AppWriteHeader(p: Appdu, base: array<Octet>, at: nat)
    requires at + 11 <= base.Length
    modifies base
    ensures base[..] == Put(old(base[..]), at,
            [p.messageType] + Uint16(p.payloadLength) + p.address + Uint16(p.reserved))
  {
    hide Put, Uint16;
    ghost var b := old(base[..]);
    SetOctets([p.messageType], base, at);
    SetUint16(p.payloadLength, base, at + 1);
    PutPut(b, at, [p.messageType], Uint16(p.payloadLength));
    SetOctets(p.address, base, at + 3);
    PutPut(b, at, [p.messageType] + Uint16(p.payloadLength), p.address);
    SetUint16(p.reserved, base, at + 9);
    PutPut(b, at, [p.messageType] + Uint16(p.payloadLength) + p.address, Uint16(p.reserved));
  }

  /** The fields a reader fills in, as far as it gets. The payload is taken from the start of the
      buffer plus twelve, wherever the PDU itself begins. */
  function ReadFields(b: seq<Octet>, pos: nat, len: nat): Appdu
    requires len <= |b|
  {
    if pos + APP_HEADER_LEN > len then Cleared
    else if b[pos] != 0 then Cleared.(version := b[pos])
    else if !KnownType(b[pos + 1]) then Cleared.(messageType := b[pos + 1])
    else
      var n := Uint16Of(b[pos + 2..pos + 4]);
      Appdu(0, b[pos + 1], n, b[pos + 4..pos + 10], Uint16Of(b[pos + 10..pos + 12]),
            if n <= MAX_APP_PAYLOAD && pos + APP_HEADER_LEN + n <= len
              then Some(b[APP_HEADER_LEN..APP_HEADER_LEN + n]) else None)
  }

  function ReadCode(b: seq<Octet>, pos: nat, len: nat): int
    requires len <= |b|
  {
    if pos + APP_HEADER_LEN > len then BUFFER_LENGTH_INSUFFICIENT
    else if b[pos] != 0 || !KnownType(b[pos + 1]) then INVALID_HEADER
    else
      var n := Uint16Of(b[pos + 2..pos + 4]);
      if n > MAX_APP_PAYLOAD then INVALID_HEADER
      else if pos + APP_HEADER_LEN + n > len then PAYLOAD_INCOMPLETE
      else pos + APP_HEADER_LEN + n
  }

  method AppRead(base: array<Octet>, pos: nat, len: nat) returns (r: int, p: Appdu)
    requires len <= base.Length
    ensures r == ReadCode(base[..], pos, len) && p == ReadFields(base[..], pos, len)
  {
    hide Uint16Of;
    r := ValidateRange(pos, len, APP_HEADER_LEN);
    p := Cleared;
    if r >= 0 {
      p := p.(version := base[pos]);
      if p.version == 0 {
        p := p.(messageType := base[pos + 1]);
        if KnownType(p.messageType) {
          var n := GetUint16(base, pos + 2);
          var reserved := GetUint16(base, pos + 10);
          p := p.(payloadLength := n, address := base[pos + 4..pos + 10], reserved := reserved);
          assert base[pos + 2..pos + 4] == base[..][pos + 2..pos + 4]
            && base[pos + 10..pos + 12] == base[..][pos + 10..pos + 12];
          assert base[pos + 4..pos + 10] == base[..][pos + 4..pos + 10];
          if n <= MAX_APP_PAYLOAD {
            r := ValidateRange(pos + APP_HEADER_LEN, len, n);
            if r >= 0 {
              p := p.(payload := Some(base[APP_HEADER_LEN..APP_HEADER_LEN + n]));
              assert base[APP_HEADER_LEN..APP_HEADER_LEN + n] == base[..][APP_HEADER_LEN..APP_HEADER_LEN + n];
            } else {
              p := p.(payload := None);
              r := PAYLOAD_INCOMPLETE;
            }
          } else {
            r := INVALID_HEADER;
          }
        } else {
          r := INVALID_HEADER;
        }
      } else {
        r := INVALID_HEADER;
      }
    }
  }

  /** The octets a reader takes for the payload, twelve from the start of the buffer, are those of the
      payload: octets in front of the message that the buffer held before, or octets of the message. */
  predicate Coincides(p: Appdu, b: seq<Octet>, pos: nat)
    requires Backed(p) && pos + APP_HEADER_LEN + |Content(p)| <= |b|
  {
    var c, s := Content(p), AppHeader(p) + Content(p);
    forall t :: 0 <= t < |c| ==>
      (if APP_HEADER_LEN + t < pos then b[APP_HEADER_LEN + t] else s[APP_HEADER_LEN + t - pos]) == c[t]
  }

  lemma WrittenFits(p: Appdu, pos: nat, len: nat)
    requires Backed(p) && WriteCode(p, pos, len) >= 0
    ensures pos + APP_HEADER_LEN + |Content(p)| == WriteCode(p, pos, len) <= len
  {}

  /** A message that could be written is read back with all its fields exactly when its version is 0,
      at any position of any buffer; its payload comes back exactly when the octets coincide, as they
      do at the start of the buffer and for an empty payload. */
  lemma AppReadAfterWrite(p: Appdu, b: seq<Octet>, pos: nat, len: nat)
    requires len <= |b| && Backed(p) && WriteCode(p, pos, len) >= 0
    ensures pos + APP_HEADER_LEN + |Content(p)| <= |b|
    ensures var b' := Written(p, b, pos, len);
            && ReadCode(b', pos, len) == (if p.version == 0 then WriteCode(p, pos, len) else INVALID_HEADER)
            && (p.version == 0 ==>
                  var q := ReadFields(b', pos, len);
                  && q == p.(payload := q.payload) && q.payload.Some? && Backed(q)
                  && (Content(q) == Content(p) <==> Coincides(p, b, pos)))
    ensures pos == 0 || p.payloadLength == 0 ==> Coincides(p, b, pos)
  {
    WrittenFits(p, pos, len);
    FieldsBack(p, b, pos, len);
    ContentBack(p, b, pos, len);
    if pos == 0 || p.payloadLength == 0 { StartCoincides(p, b, pos); }
    hide AppHeader, Uint16, Uint16Of, Put, Coincides, WriteCode;
  }

  lemma FieldsBack(p: Appdu, b: seq<Octet>, pos: nat, len: nat)
    requires len <= |b| && Backed(p) && WriteCode(p, pos, len) >= 0
    ensures var b' := Written(p, b, pos, len);
            && ReadCode(b', pos, len) == (if p.version == 0 then WriteCode(p, pos, len) else INVALID_HEADER)
            && (p.version == 0 ==>
                  var q := ReadFields(b', pos, len);
                  && APP_HEADER_LEN + p.payloadLength <= len
                  && q == p.(payload := Some(b'[APP_HEADER_LEN..APP_HEADER_LEN + p.payloadLength])))
  {
    var s := AppHeader(p) + Content(p);
    var b' := Written(p, b, pos, len);
    PutIs(b, pos, s);
    HeaderParts(p, Content(p));
    Uint16Trip(p.payloadLength, [0, 0]);
    Uint16Trip(p.reserved, [0, 0]);
    hide AppHeader, Uint16, Uint16Of, Put;
    assert b'[pos..pos + |s|] == s && b'[pos] == s[0] && b'[pos + 1] == s[1];
    FieldSlice(b', pos, |s|, 2, 4);
    FieldSlice(b', pos, |s|, 4, 10);
    FieldSlice(b', pos, |s|, 10, 12);
  }

  lemma ContentBack(p: Appdu, b: seq<Octet>, pos: nat, len: nat)
    requires len <= |b| && Backed(p) && WriteCode(p, pos, len) >= 0 && APP_HEADER_LEN + |Content(p)| <= len
    requires pos + APP_HEADER_LEN + |Content(p)| <= |b|
    ensures Written(p, b, pos, len)[APP_HEADER_LEN..APP_HEADER_LEN + |Content(p)|] == Content(p)
            <==> Coincides(p, b, pos)
  {
    var c, s := Content(p), AppHeader(p) + Content(p);
    var b' := Written(p, b, pos, len);
    assert b' == Put(b, pos, s);
    hide AppHeader, Content, Written, WriteCode;
    PutIs(b, pos, s);
    hide Put;
    var r := b'[APP_HEADER_LEN..APP_HEADER_LEN + |c|];
    assert forall t :: 0 <= t < |c| ==>
      r[t] == if APP_HEADER_LEN + t < pos then b[APP_HEADER_LEN + t] else s[APP_HEADER_LEN + t - pos];
  }

  lemma StartCoincides(p: Appdu, b: seq<Octet>, pos: nat)
    requires Backed(p) && pos + APP_HEADER_LEN + |Content(p)| <= |b| && (pos == 0 || p.payloadLength == 0)
    ensures Coincides(p, b, pos)
  {
    hide AppHeader;
  }

  lemma HeaderParts(p: Appdu, c: seq<Octet>)
    ensures var s := AppHeader(p) + c;
            && s[0] == p.version && s[1] == p.messageType && s[2..4] == Uint16(p.payloadLength)
            && s[4..10] == p.address && s[10..12] == Uint16(p.reserved) && s[12..] == c
  {
    hide Uint16;
    var s := AppHeader(p) + c;
    assert s[2..4] == Uint16(p.payloadLength);
    assert s[4..10] == p.address;
    assert s[10..12] == Uint16(p.reserved);
  }
}
