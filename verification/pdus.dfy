/**
 The fixed-layout PDUs of IEEE Std 1722.1-2013: ACMPDU (clause 8.2.1), ADPDU (clause 6.2.1) and
 AECPDU with its AEM part (clauses 9.2.1.1 and 9.2.1.2). Each is read field by field from a buffer
 and written field by field in the order of the source.
 */
module Pdus {
  import opened Words
  import opened Wire

  /** Neighbouring slices join. */
  lemma Cat(s: seq<Octet>, i: nat, j: nat, k: nat)
    requires i <= j <= k <= |s|
    ensures s[i..j] + s[j..k] == s[i..k]
  {}

  // ----- ACMPDU -----

  const ACMP_LEN: nat := 56

  datatype Acmpdu = Acmpdu(header: Header, controllerId: Eui64, talkerId: Eui64, listenerId: Eui64,
                           talkerUid: Short, listenerUid: Short, destMac: Eui48, connections: Short,
                           seqId: Short, flags: Short, vlanId: Short, reserved: Short)

  function AcmpIds(p: Acmpdu): (s: seq<Octet>)
    ensures |s| == 24
  {
    p.controllerId + p.talkerId + p.listenerId
  }

  function AcmpRest(p: Acmpdu): (s: seq<Octet>)
    ensures |s| == 20
  {
    Uint16(p.talkerUid) + Uint16(p.listenerUid) + p.destMac + AcmpTail(p)
  }

  function AcmpTail(p: Acmpdu): (s: seq<Octet>)
    ensures |s| == 10
  {
    Uint16(p.connections) + Uint16(p.seqId) + Uint16(p.flags) + Uint16(p.vlanId) + Uint16(p.reserved)
  }

  function AcmpOctets(p: Acmpdu): (s: seq<Octet>)
    ensures |s| == ACMP_LEN
  {
    HeaderOctets(p.header) + (AcmpIds(p) + AcmpRest(p))
  }

  function AcmpOf(s: seq<Octet>): Acmpdu
    requires |s| == ACMP_LEN
  {
    Acmpdu(HeaderOf(s[..12]), s[12..20], s[20..28], s[28..36], Uint16Of(s[36..38]), Uint16Of(s[38..40]), s[40..46],
           Uint16Of(s[46..48]), Uint16Of(s[48..50]), Uint16Of(s[50..52]), Uint16Of(s[52..54]), Uint16Of(s[54..56]))
  }

  /** Reading what was written gives the fields back, those of the header in their widths; and the
      octets of any PDU are those of what is read from them. */
  lemma AcmpTrip(p: Acmpdu, s: seq<Octet>)
    requires |s| == ACMP_LEN
    ensures AcmpOf(AcmpOctets(p)) == p.(header := Masked(p.header))
    ensures AcmpOctets(AcmpOf(s)) == s
  {
    AcmpThere(p);
    AcmpBack(s);
  }

  lemma AcmpThere(p: Acmpdu)
    ensures AcmpOf(AcmpOctets(p)) == p.(header := Masked(p.header))
  {
    var s := AcmpOctets(p);
    HeaderTrip(p.header, s[..12]);
    hide HeaderOctets, HeaderOf, Masked, Uint16, Uint16Of;
    assert s[..12] == HeaderOctets(p.header);
    assert s[12..20] == p.controllerId && s[20..28] == p.talkerId && s[28..36] == p.listenerId;
    assert s[36..38] == Uint16(p.talkerUid) && s[38..40] == Uint16(p.listenerUid) && s[40..46] == p.destMac;
    assert s[46..56] == AcmpTail(p);
    AcmpTailThere(p, s);
    TripAll([p.talkerUid, p.listenerUid, p.connections, p.seqId, p.flags, p.vlanId, p.reserved]);
    assert forall v ::
      v in [p.talkerUid, p.listenerUid, p.connections, p.seqId, p.flags, p.vlanId, p.reserved] ==>
        Uint16Of(Uint16(v)) == v;
  }

  lemma AcmpTailThere(p: Acmpdu, s: seq<Octet>)
    requires |s| == ACMP_LEN && s[46..56] == AcmpTail(p)
    ensures s[46..48] == Uint16(p.connections) && s[48..50] == Uint16(p.seqId) && s[50..52] == Uint16(p.flags)
    ensures s[52..54] == Uint16(p.vlanId) && s[54..56] == Uint16(p.reserved)
  {
    var t := s[46..56];
    hide Uint16;
    FieldSlice(s, 46, 10, 0, 2);
    FieldSlice(s, 46, 10, 2, 4);
    FieldSlice(s, 46, 10, 4, 6);
    FieldSlice(s, 46, 10, 6, 8);
    FieldSlice(s, 46, 10, 8, 10);
    assert t[0..2] == Uint16(p.connections) && t[2..4] == Uint16(p.seqId) && t[4..6] == Uint16(p.flags);
    assert t[6..8] == Uint16(p.vlanId) && t[8..10] == Uint16(p.reserved);
  }

  lemma TripAll(vs: seq<Short>)
    ensures forall v :: v in vs ==> Uint16Of(Uint16(v)) == v
  {
    forall v | v in vs ensures Uint16Of(Uint16(v)) == v {
      Uint16Trip(v, [0, 0]);
    }
  }

  /** Two-octet slices are what their numbers stand for. */
  lemma SliceTrip(s: seq<Octet>, i: nat)
    requires i + 2 <= |s|
    ensures Uint16(Uint16Of(s[i..i + 2])) == s[i..i + 2]
  {
    Uint16Trip(0, s[i..i + 2]);
  }

  lemma AcmpBack(s: seq<Octet>)
    requires |s| == ACMP_LEN
    ensures AcmpOctets(AcmpOf(s)) == s
  {
    var p := AcmpOf(s);
    assert p.header == HeaderOf(s[..12]);
    HeaderTrip(p.header, s[..12]);
    AcmpIdsBack(s);
    AcmpRestBack(s);
    hide HeaderOctets, HeaderOf, AcmpOf, AcmpIds, AcmpRest;
    Cat(s, 12, 36, 56);
    assert s[..12] + s[12..56] == s;
  }

  lemma AcmpIdsBack(s: seq<Octet>)
    requires |s| == ACMP_LEN
    ensures AcmpIds(AcmpOf(s)) == s[12..36]
  {
    hide HeaderOf, Uint16Of;
    Cat(s, 12, 20, 28);
    Cat(s, 12, 28, 36);
  }

  lemma AcmpRestBack(s: seq<Octet>)
    requires |s| == ACMP_LEN
    ensures AcmpRest(AcmpOf(s)) == s[36..56]
  {
    hide HeaderOf, Uint16, Uint16Of, AcmpTail;
    SliceTrip(s, 36);
    SliceTrip(s, 38);
    AcmpTailBack(AcmpOf(s), s);
    Cat(s, 36, 38, 40);
    Cat(s, 36, 40, 46);
    Cat(s, 36, 46, 56);
  }

  lemma AcmpTailBack(p: Acmpdu, s: seq<Octet>)
    requires |s| == ACMP_LEN && p == AcmpOf(s)
    ensures AcmpTail(p) == s[46..56]
  {
    hide HeaderOf, Uint16, Uint16Of;
    SliceTrip(s, 46);
    SliceTrip(s, 48);
    SliceTrip(s, 50);
    SliceTrip(s, 52);
    SliceTrip(s, 54);
    assert Uint16(p.connections) == s[46..48] && Uint16(p.seqId) == s[48..50] && Uint16(p.flags) == s[50..52];
    assert Uint16(p.vlanId) == s[52..54] && Uint16(p.reserved) == s[54..56];
    Cat(s, 46, 48, 50);
    Cat(s, 46, 50, 52);
    Cat(s, 46, 52, 54);
    Cat(s, 46, 54, 56);
  }

  /** `jdksavdecc_acmpdu_write`. */
  method AcmpWrite(p: Acmpdu, base: array<Octet>, pos: nat, len: nat) returns (r: int)
    requires len <= base.Length
    modifies base
    ensures r == ValidateRange(pos, len, ACMP_LEN)
    ensures base[..] == if r >= 0 then Put(old(base[..]), pos, AcmpOctets(p)) else old(base[..])
  {
    r := ValidateRange(pos, len, ACMP_LEN);
    if r >= 0 {
      hide HeaderOctets, Put, Uint16, AcmpTail;
      var h := HeaderWrite(p.header, base, pos, len);
      ghost var b := old(base[..]);
      SetOctets(p.controllerId, base, pos + 12);
      PutPut(b, pos, HeaderOctets(p.header), p.controllerId);
      SetOctets(p.talkerId, base, pos + 20);
      PutPut(b, pos, HeaderOctets(p.header) + p.controllerId, p.talkerId);
      SetOctets(p.listenerId, base, pos + 28);
      PutPut(b, pos, HeaderOctets(p.header) + p.controllerId + p.talkerId, p.listenerId);
      assert HeaderOctets(p.header) + p.controllerId + p.talkerId + p.listenerId == HeaderOctets(p.header) + AcmpIds(p);
      AcmpWriteRest(p, base, pos, b);
    }
  }

  method AcmpWriteRest(p: Acmpdu, base: array<Octet>, pos: nat, ghost b: seq<Octet>)
    requires pos + ACMP_LEN <= base.Length == |b| && base[..] == Put(b, pos, HeaderOctets(p.header) + AcmpIds(p))
    modifies base
    ensures base[..] == Put(b, pos, AcmpOctets(p))
  {
    hide HeaderOctets, Put, Uint16, AcmpTail, AcmpIds;
    ghost var s := HeaderOctets(p.header) + AcmpIds(p);
    SetUint16(p.talkerUid, base, pos + 36);
    PutPut(b, pos, s, Uint16(p.talkerUid));
    SetUint16(p.listenerUid, base, pos + 38);
    PutPut(b, pos, s + Uint16(p.talkerUid), Uint16(p.listenerUid));
    SetOctets(p.destMac, base, pos + 40);
    PutPut(b, pos, s + Uint16(p.talkerUid) + Uint16(p.listenerUid), p.destMac);
    AcmpWriteTail(p, base, pos + 46);
    PutPut(b, pos, s + Uint16(p.talkerUid) + Uint16(p.listenerUid) + p.destMac, AcmpTail(p));
    assert s + Uint16(p.talkerUid) + Uint16(p.listenerUid) + p.destMac + AcmpTail(p) == AcmpOctets(p);
  }

  method AcmpWriteTail(p: Acmpdu, base: array<Octet>, at: nat)
    requires at + 10 <= base.Length
    modifies base
    ensures base[..] == Put(old(base[..]), at, AcmpTail(p))
  {
    hide Put, Uint16;
    ghost var b, s := old(base[..]), Uint16(p.connections);
    SetUint16(p.connections, base, at);
    SetUint16(p.seqId, base, at + 2);
    PutPut(b, at, s, Uint16(p.seqId));
    SetUint16(p.flags, base, at + 4);
    PutPut(b, at, s + Uint16(p.seqId), Uint16(p.flags));
    SetUint16(p.vlanId, base, at + 6);
    PutPut(b, at, s + Uint16(p.seqId) + Uint16(p.flags), Uint16(p.vlanId));
    SetUint16(p.reserved, base, at + 8);
    PutPut(b, at, s + Uint16(p.seqId) + Uint16(p.flags) + Uint16(p.vlanId), Uint16(p.reserved));
  }

  /** The two octets of a number at a position. */
  method GetUint16(base: array<Octet>, at: nat) returns (v: Short)
    requires at + 2 <= base.Length
    ensures v == Uint16Of(base[at..at + 2])
  {
    v := Join(0x100, base[at], base[at + 1]);
  }

  method GetUint32(base: array<Octet>, at: nat) returns (v: Word)
    requires at + 4 <= base.Length
    ensures v == Uint32Of(base[at..at + 4])
  {
    var high := GetUint16(base, at);
    var low := GetUint16(base, at + 2);
    v := Join(0x1_0000, high, low);
    assert base[at..at + 4][..2] == base[at..at + 2] && base[at..at + 4][2..] == base[at + 2..at + 4];
  }

  /** A field of a PDU is a slice of its octets. */
  lemma FieldSlice(s: seq<Octet>, pos: nat, n: nat, i: nat, j: nat)
    requires pos + n <= |s| && i <= j <= n
    ensures s[pos..pos + n][i..j] == s[pos + i..pos + j]
  {
    var t := s[pos..pos + n];
    forall k | 0 <= k < j - i ensures t[i..j][k] == s[pos + i..pos + j][k] {
      assert t[i + k] == s[pos + (i + k)];
    }
  }

  /** `jdksavdecc_acmpdu_read`; `prev` is what the structure held before. */
  method AcmpReadEnd(base: array<Octet>, pos: nat)
      returns (connections: Short, seqId: Short, flags: Short, vlanId: Short, reserved: Short)
    requires pos + ACMP_LEN <= base.Length
    ensures connections == Uint16Of(base[pos + 46..pos + 48]) && seqId == Uint16Of(base[pos + 48..pos + 50])
    ensures flags == Uint16Of(base[pos + 50..pos + 52]) && vlanId == Uint16Of(base[pos + 52..pos + 54])
    ensures reserved == Uint16Of(base[pos + 54..pos + 56])
  {
    hide Uint16Of;
    connections := GetUint16(base, pos + 46);
    seqId := GetUint16(base, pos + 48);
    flags := GetUint16(base, pos + 50);
    vlanId := GetUint16(base, pos + 52);
    reserved := GetUint16(base, pos + 54);
  }

  method AcmpRead(prev: Acmpdu, base: array<Octet>, pos: nat, len: nat) returns (r: int, p: Acmpdu)
    requires len <= base.Length
    ensures r == ValidateRange(pos, len, ACMP_LEN)
    ensures p == if r >= 0 then AcmpOf(base[pos..pos + ACMP_LEN]) else prev
  {
    p := prev;
    r := ValidateRange(pos, len, ACMP_LEN);
    if r >= 0 {
      hide AcmpOf, HeaderOf, Uint16Of;
      var hr, h := HeaderRead(prev.header, base, pos, len);
      var talkerUid := GetUint16(base, pos + 36);
      var listenerUid := GetUint16(base, pos + 38);
      var connections, seqId, flags, vlanId, reserved := AcmpReadEnd(base, pos);
      p := Acmpdu(h, base[pos + 12..pos + 20], base[pos + 20..pos + 28], base[pos + 28..pos + 36], talkerUid,
                  listenerUid, base[pos + 40..pos + 46], connections, seqId, flags, vlanId, reserved);
      AcmpSlices(base[..], pos);
    }
  }

  lemma AcmpSlices(b: seq<Octet>, pos: nat)
    requires pos + ACMP_LEN <= |b|
    ensures AcmpOf(b[pos..pos + ACMP_LEN])
            == Acmpdu(HeaderOf(b[pos..pos + 12]), b[pos + 12..pos + 20], b[pos + 20..pos + 28], b[pos + 28..pos + 36],
                      Uint16Of(b[pos + 36..pos + 38]), Uint16Of(b[pos + 38..pos + 40]), b[pos + 40..pos + 46],
                      Uint16Of(b[pos + 46..pos + 48]), Uint16Of(b[pos + 48..pos + 50]), Uint16Of(b[pos + 50..pos + 52]),
                      Uint16Of(b[pos + 52..pos + 54]), Uint16Of(b[pos + 54..pos + 56]))
  {
    hide HeaderOf, Uint16Of;
    FieldSlice(b, pos, ACMP_LEN, 0, 12);
    FieldSlice(b, pos, ACMP_LEN, 12, 20);
    FieldSlice(b, pos, ACMP_LEN, 20, 28);
    FieldSlice(b, pos, ACMP_LEN, 28, 36);
    FieldSlice(b, pos, ACMP_LEN, 36, 38);
    FieldSlice(b, pos, ACMP_LEN, 38, 40);
    FieldSlice(b, pos, ACMP_LEN, 40, 46);
    FieldSlice(b, pos, ACMP_LEN, 46, 48);
    FieldSlice(b, pos, ACMP_LEN, 48, 50);
    FieldSlice(b, pos, ACMP_LEN, 50, 52);
    FieldSlice(b, pos, ACMP_LEN, 52, 54);
    FieldSlice(b, pos, ACMP_LEN, 54, 56);
  }

  /** What a reader finds where a writer wrote, whatever the buffer held. */
  lemma AcmpReadAfterWrite(p: Acmpdu, b: seq<Octet>, pos: nat)
    requires pos + ACMP_LEN <= |b|
    ensures AcmpOf(Put(b, pos, AcmpOctets(p))[pos..pos + ACMP_LEN]) == p.(header := Masked(p.header))
  {
    PutIs(b, pos, AcmpOctets(p));
    AcmpThere(p);
  }
}
