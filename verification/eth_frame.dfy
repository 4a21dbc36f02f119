/** Raw Ethernet frames with an optional IEEE 802.1Q tag, at a position of a buffer. */
module EthFrame {
  import opened Words
  import opened Wire
  import opened Pdus

  const MAX_PAYLOAD: nat := 640
  const TAGGED: Short := 0x8100

  /** The frame as a value. */
  datatype Frame = Frame(dest: Eui48, src: Eui48, ethertype: Short, tpid: Short, pcp: Octet, dei: Octet, vid: Short,
                         length: Short, payload: seq<Octet>)

  ghost predicate Sound(f: Frame) {
    f.length <= MAX_PAYLOAD == |f.payload| && f.pcp < 8 && f.dei < 2 && f.vid < 0x1000
  }

  class TFrame {
    var destAddress: Eui48
    var srcAddress: Eui48
    var ethertype: Short
    var tpid: Short
    var pcp: Octet
    var dei: Octet
    var vid: Short
    var length: Short
    const payload: array<Octet>

    function Value(): Frame
      reads this, payload
    {
      Frame(destAddress, srcAddress, ethertype, tpid, pcp, dei, vid, length, payload[..])
    }

    constructor ()
      ensures fresh(payload) && Sound(Value())
    {
      destAddress, srcAddress := [0, 0, 0, 0, 0, 0], [0, 0, 0, 0, 0, 0];
      ethertype, tpid, pcp, dei, vid, length := 0, 0, 0, 0, 0, 0;
      payload := new Octet[MAX_PAYLOAD];
    }
  }

  /** Priority, drop eligibility and VLAN id in one number. */
  function Tci(f: Frame): Short
    requires Sound(f)
  {
    0x2000 * f.pcp as int + 0x1000 * f.dei as int + f.vid
  }

  function Addresses(f: Frame): (s: seq<Octet>)
    ensures |s| == 12
  {
    f.dest + f.src
  }

  function HeaderSize(tag: Short): nat {
    if tag == TAGGED then 18 else 14
  }

  function TypeOctets(f: Frame): (s: seq<Octet>)
    requires Sound(f)
    ensures |s| == HeaderSize(f.tpid) - 12
  {
    if f.tpid == TAGGED then Uint16(f.tpid) + Uint16(Tci(f)) + Uint16(f.ethertype) else Uint16(f.ethertype)
  }

  function FrameOctets(f: Frame): (s: seq<Octet>)
    requires Sound(f)
    ensures |s| == HeaderSize(f.tpid) + f.length
  {
    Addresses(f) + TypeOctets(f) + f.payload[..f.length]
  }

  /** The last range check counts the position twice. */
  function WriteCode(f: Frame, pos: nat, len: nat): int {
    if len < pos + 14 then -1 else ValidateRange(pos, len, pos + HeaderSize(f.tpid) + f.length)
  }

  /** The buffer after a write; what fits of the header is written even when the payload does not fit. */
  function Written(f: Frame, b: seq<Octet>, pos: nat, len: nat): seq<Octet>
    requires Sound(f) && len <= |b|
  {
    if len < pos + 14 then b
    else if len < pos + HeaderSize(f.tpid) then Put(b, pos, Addresses(f))
    else if WriteCode(f, pos, len) < 0 then Put(b, pos, Addresses(f) + TypeOctets(f))
    else Put(b, pos, FrameOctets(f))
  }

  /** `jdksavdecc_frame_write`. */
  method FrameWrite(p: TFrame, base: array<Octet>, pos: nat, len: nat) returns (r: int)
    requires len <= base.Length && Sound(p.Value()) && base != p.payload
    modifies base
    ensures r == WriteCode(p.Value(), pos, len)
    ensures base[..] == Written(p.Value(), old(base[..]), pos, len)
  {
    hide Put, Uint16;
    ghost var b, f := old(base[..]), p.Value();
    r := ValidateRange(pos, len, 14);
    if r >= 0 {
      var payloadOffset := 14;
      SetOctets(p.destAddress, base, pos);
      SetOctets(p.srcAddress, base, pos + 6);
      PutPut(b, pos, f.dest, f.src);
      if p.tpid == TAGGED {
        payloadOffset := 18;
        r := ValidateRange(pos, len, payloadOffset);
        if r >= 0 {
          SetTag(p, base, pos);
          PutPut(b, pos, Addresses(f), TypeOctets(f));
        }
      } else {
        SetUint16(p.ethertype, base, pos + 12);
        PutPut(b, pos, Addresses(f), TypeOctets(f));
      }
      r := ValidateRange(pos, len, pos + payloadOffset + p.length);
      if r >= 0 {
        SetOctets(p.payload[..p.length], base, pos + payloadOffset);
        PutPut(b, pos, Addresses(f) + TypeOctets(f), f.payload[..f.length]);
        assert p.payload[..p.length] == f.payload[..f.length];
      }
    }
  }

  method SetTag(p: TFrame, base: array<Octet>, pos: nat)
    requires pos + 18 <= base.Length && Sound(p.Value()) && base != p.payload && p.tpid == TAGGED
    modifies base
    ensures base[..] == Put(old(base[..]), pos + 12, TypeOctets(p.Value()))
  {
    hide Put, Uint16;
    ghost var b := old(base[..]);
    var tci := Tci(p.Value());
    SetUint16(p.tpid, base, pos + 12);
    SetUint16(tci, base, pos + 14);
    PutPut(b, pos + 12, Uint16(p.tpid), Uint16(tci));
    SetUint16(p.ethertype, base, pos + 16);
    PutPut(b, pos + 12, Uint16(p.tpid) + Uint16(tci), Uint16(p.ethertype));
  }

  /** The octets a read depends on: the payload is taken to be as long as the buffer without the
      header, wherever the frame begins. */
  predicate Reach(b: seq<Octet>, pos: nat, len: nat) {
    pos + 14 <= len ==> pos + len <= |b| && len <= MAX_PAYLOAD + HeaderSize(Uint16Of(b[pos + 12..pos + 14]))
  }

  /** What a read makes of a frame structure. */
  function ReadCode(b: seq<Octet>, pos: nat, len: nat): int
    requires Reach(b, pos, len)
  {
    if len < pos + 14 || (Uint16Of(b[pos + 12..pos + 14]) == TAGGED && len < pos + (pos + 18)) then -1 else len
  }

  /** The addresses, the tag and the type. */
  function ReadHeader(prev: Frame, b: seq<Octet>, pos: nat, len: nat): Frame
    requires pos + 14 <= len <= |b|
  {
    var f := prev.(dest := b[pos..pos + 6], src := b[pos + 6..pos + 12]);
    var tag := Uint16Of(b[pos + 12..pos + 14]);
    if tag != TAGGED then f.(tpid := 0, pcp := 0, dei := 0, vid := 0, ethertype := tag)
    else if len < pos + (pos + 18) then f.(tpid := tag)
    else
      var tci := Uint16Of(b[pos + 14..pos + 16]);
      f.(tpid := tag, pcp := tci / 0x2000, dei := tci / 0x1000 % 2, vid := tci % 0x1000,
        ethertype := Uint16Of(b[pos + 16..pos + 18]))
  }

  function ReadFields(prev: Frame, b: seq<Octet>, pos: nat, len: nat): Frame
    requires Reach(b, pos, len) && Sound(prev)
  {
    if len < pos + 14 then prev
    else
      var f, n := ReadHeader(prev, b, pos, len), HeaderSize(Uint16Of(b[pos + 12..pos + 14]));
      if ReadCode(b, pos, len) < 0 then f
      else f.(length := len - n, payload := Put(f.payload, 0, b[pos + n..pos + len]))
  }

  /** `jdksavdecc_frame_read`. The structure holds 640 octets of payload, which the caller must see to. */
  method FrameRead(p: TFrame, base: array<Octet>, pos: nat, len: nat) returns (r: int)
    requires len <= base.Length && Sound(p.Value()) && base != p.payload
    requires Reach(base[..], pos, len)
    modifies p, p.payload
    ensures r == ReadCode(base[..], pos, len)
    ensures p.Value() == ReadFields(old(p.Value()), base[..], pos, len)
  {
    hide Put, Uint16Of;
    r := ValidateRange(pos, len, 14);
    if r >= 0 {
      var payloadOffset;
      r, payloadOffset := ReadHead(p, base, pos, len);
      hide ReadHeader;
      if r >= 0 {
        ReadPayload(p, base, pos + payloadOffset, pos + len);
        r := len;
      }
    }
  }

  method ReadHead(p: TFrame, base: array<Octet>, pos: nat, len: nat) returns (r: int, payloadOffset: nat)
    requires pos + 14 <= len <= base.Length
    modifies p
    ensures var tag := Uint16Of(base[..][pos + 12..pos + 14]);
            payloadOffset == HeaderSize(tag) && (r < 0 <==> tag == TAGGED && len < pos + (pos + 18)) && r >= -1
    ensures p.Value() == ReadHeader(old(p.Value()), base[..], pos, len)
  {
    hide Uint16Of;
    Slices(base, pos);
    r := pos + 14;
    p.destAddress := base[pos..pos + 6];
    p.srcAddress := base[pos + 6..pos + 12];
    var tag := GetUint16(base, pos + 12);
    if tag == TAGGED {
      payloadOffset := 18;
      p.tpid := tag;
      r := ValidateRange(pos, len, pos + payloadOffset);
      if r >= 0 {
        ReadTag(p, base, pos);
      }
    } else {
      payloadOffset := 14;
      p.tpid, p.dei, p.pcp, p.vid := 0, 0, 0, 0;
      p.ethertype := tag;
    }
  }

  method ReadTag(p: TFrame, base: array<Octet>, pos: nat)
    requires pos + 18 <= base.Length
    modifies p
    ensures var tci := Uint16Of(base[..][pos + 14..pos + 16]);
            p.Value() == old(p.Value()).(pcp := tci / 0x2000, dei := tci / 0x1000 % 2, vid := tci % 0x1000,
                                         ethertype := Uint16Of(base[..][pos + 16..pos + 18]))
  {
    hide Uint16Of;
    SlicesOfTag(base, pos);
    var tci := GetUint16(base, pos + 14);
    p.pcp := tci / 0x2000;
    p.dei := tci / 0x1000 % 2;
    p.vid := tci % 0x1000;
    p.ethertype := GetUint16(base, pos + 16);
  }

  method ReadPayload(p: TFrame, base: array<Octet>, at: nat, end: nat)
    requires at <= end <= base.Length && end - at <= MAX_PAYLOAD == p.payload.Length && base != p.payload
    modifies p`length, p.payload
    ensures p.Value() == old(p.Value()).(length := end - at, payload := Put(old(p.payload[..]), 0, base[..][at..end]))
  {
    hide Put;
    p.length := end - at;
    assert base[at..end] == base[..][at..end];
    SetOctets(base[at..end], p.payload, 0);
  }

  lemma Slices(base: array<Octet>, pos: nat)
    requires pos + 14 <= base.Length
    ensures base[pos..pos + 6] == base[..][pos..pos + 6] && base[pos + 6..pos + 12] == base[..][pos + 6..pos + 12]
    ensures base[pos + 12..pos + 14] == base[..][pos + 12..pos + 14]
  {}

  lemma SlicesOfTag(base: array<Octet>, pos: nat)
    requires pos + 18 <= base.Length
    ensures base[pos + 14..pos + 16] == base[..][pos + 14..pos + 16]
            && base[pos + 16..pos + 18] == base[..][pos + 16..pos + 18]
  {}

  /** The frames a reader can tell from what is written: tagged, or without any tag field and with a
      type that does not look like a tag. */
  predicate Plain(f: Frame) {
    f.tpid == TAGGED || (f.tpid == 0 && f.pcp == 0 && f.dei == 0 && f.vid == 0 && f.ethertype != TAGGED)
  }

  /** Everything of a frame but the octets of its payload beyond the length. */
  predicate SameFrame(f: Frame, g: Frame)
    requires Sound(f) && Sound(g)
  {
    f.(payload := []) == g.(payload := []) && f.payload[..f.length] == g.payload[..g.length]
  }

  lemma TciTrip(f: Frame)
    requires Sound(f)
    ensures Tci(f) / 0x2000 == f.pcp && Tci(f) / 0x1000 % 2 == f.dei && Tci(f) % 0x1000 == f.vid
  {
    assert Tci(f) / 0x1000 == 2 * f.pcp as int + f.dei as int;
  }

  /** The octets of the header, as a reader slices them. */
  lemma HeaderSlices(f: Frame, b: seq<Octet>, pos: nat)
    requires Sound(f) && pos + |FrameOctets(f)| <= |b|
    ensures var c, n := Put(b, pos, FrameOctets(f)), pos + HeaderSize(f.tpid);
            && c[pos..pos + 6] == f.dest && c[pos + 6..pos + 12] == f.src && c[n..n + f.length] == f.payload[..f.length]
            && (f.tpid == TAGGED ==>
                  && c[pos + 12..pos + 14] == Uint16(f.tpid) && c[pos + 14..pos + 16] == Uint16(Tci(f))
                  && c[pos + 16..pos + 18] == Uint16(f.ethertype))
            && (f.tpid != TAGGED ==> c[pos + 12..pos + 14] == Uint16(f.ethertype))
  {
    var s, n := FrameOctets(f), HeaderSize(f.tpid);
    var c := Put(b, pos, s);
    PutIs(b, pos, s);
    hide Put, Uint16, Tci;
    assert s[..6] == f.dest && s[6..12] == f.src && s[12..n] == TypeOctets(f)
      && s[n..n + f.length] == f.payload[..f.length];
    FieldSlice(c, pos, |s|, 0, 6);
    FieldSlice(c, pos, |s|, 6, 12);
    FieldSlice(c, pos, |s|, 12, 14);
    FieldSlice(c, pos, |s|, n, n + f.length);
    if f.tpid == TAGGED {
      FieldSlice(c, pos, |s|, 14, 16);
      FieldSlice(c, pos, |s|, 16, 18);
    }
  }

  /** A frame that could be written is read back, from as many octets as were written and into any
      structure, exactly when it is plain and begins at the start of the buffer; there, the reader
      never goes too far. */
  lemma FrameReadAfterWrite(f: Frame, b: seq<Octet>, pos: nat, len: nat, prev: Frame)
    requires Sound(f) && Sound(prev) && len <= |b| && WriteCode(f, pos, len) >= 0
    ensures var n, b' := WriteCode(f, pos, len), Written(f, b, pos, len);
            && n <= len && (pos == 0 ==> Reach(b', pos, n))
            && (Reach(b', pos, n) ==>
                  (ReadCode(b', pos, n) == n && Sound(ReadFields(prev, b', pos, n))
                    && SameFrame(ReadFields(prev, b', pos, n), f)
                   <==> Plain(f) && pos == 0))
  {
    var n, b' := WriteCode(f, pos, len), Written(f, b, pos, len);
    HeaderSlices(f, b, pos);
    Uint16Trip(f.ethertype, [0, 0]);
    Uint16Trip(f.tpid, [0, 0]);
    Uint16Trip(Tci(f), [0, 0]);
    TciTrip(f);
    assert b' == Put(b, pos, FrameOctets(f));
    var k := HeaderSize(f.tpid);
    if Plain(f) && pos == 0 {
      PutIs(prev.payload, 0, b'[k..n]);
      assert Put(prev.payload, 0, b'[k..n])[..f.length] == f.payload[..f.length];
    }
    hide Put, Uint16, Uint16Of, FrameOctets, Tci;
  }
}
