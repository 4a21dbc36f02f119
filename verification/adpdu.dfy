/**
 The ADPDU of clause 6.2.1 of IEEE Std 1722.1-2013. Its three octets of reserved0 are written as
 four, from one octet too early, and read back from there; the last of the four is then overwritten
 by the field that follows.
 */
module Adpdus {
  import opened Words
  import opened Wire
  import opened Pdus

  const ADP_LEN: nat := 68
  const MEDIUM: int := 0x100_0000

  datatype Adpdu = Adpdu(header: Header, modelId: Eui64, entityCaps: Word, talkerSources: Short, talkerCaps: Short,
                         listenerSinks: Short, listenerCaps: Short, controllerCaps: Word, availableIndex: Word,
                         grandmasterId: Eui64, domain: Octet, reserved0: Word, identifyIndex: Short,
                         interfaceIndex: Short, associationId: Eui64, reserved1: Word)

  function AdpFront(p: Adpdu): (s: seq<Octet>)
    ensures |s| == 28
  {
    p.modelId + Uint32(p.entityCaps) + Uint16(p.talkerSources) + Uint16(p.talkerCaps)
    + Uint16(p.listenerSinks) + Uint16(p.listenerCaps) + Uint32(p.controllerCaps) + Uint32(p.availableIndex)
  }

  /** The number stored for reserved0: three octets of it, below the first octet of the PDU. */
  function Padded(v: Word, top: Octet): Word {
    Join(MEDIUM, top, v % MEDIUM)
  }

  function AdpMiddle(p: Adpdu, top: Octet): (s: seq<Octet>)
    ensures |s| == 16
  {
    p.grandmasterId + [p.domain] + Uint32(Padded(p.reserved0, top))[..3] + Uint16(p.identifyIndex)
      + Uint16(p.interfaceIndex)
  }

  function AdpBack(p: Adpdu): (s: seq<Octet>)
    ensures |s| == 12
  {
    p.associationId + Uint32(p.reserved1)
  }

  function AdpOctets(p: Adpdu): (s: seq<Octet>)
    ensures |s| == ADP_LEN
  {
    var h := HeaderOctets(p.header);
    h + AdpFront(p) + AdpMiddle(p, h[0]) + AdpBack(p)
  }

  function AdpOf(s: seq<Octet>): Adpdu
    requires |s| == ADP_LEN
  {
    Adpdu(HeaderOf(s[..12]), s[12..20], Uint32Of(s[20..24]), Uint16Of(s[24..26]), Uint16Of(s[26..28]),
          Uint16Of(s[28..30]), Uint16Of(s[30..32]), Uint32Of(s[32..36]), Uint32Of(s[36..40]), s[40..48], s[48],
          Uint32Of(s[49..53]) % MEDIUM, Uint16Of(s[52..54]), Uint16Of(s[54..56]), s[56..64], Uint32Of(s[64..68]))
  }

  /** The reserved0 a reader finds: its low octet is the high octet of the next field. */
  function ReadBack(p: Adpdu): Word {
    p.reserved0 % MEDIUM / 0x100 * 0x100 + p.identifyIndex / 0x100
  }

  lemma AdpFrontThere(p: Adpdu, s: seq<Octet>)
    requires |s| == ADP_LEN && s[12..40] == AdpFront(p)
    ensures s[12..20] == p.modelId && Uint32Of(s[20..24]) == p.entityCaps && Uint16Of(s[24..26]) == p.talkerSources
    ensures Uint16Of(s[26..28]) == p.talkerCaps && Uint16Of(s[28..30]) == p.listenerSinks
            && Uint16Of(s[30..32]) == p.listenerCaps
    ensures Uint32Of(s[32..36]) == p.controllerCaps && Uint32Of(s[36..40]) == p.availableIndex
  {
    TripAll([p.talkerSources, p.talkerCaps, p.listenerSinks, p.listenerCaps]);
    assert Uint16Of(Uint16(p.talkerSources)) == p.talkerSources && Uint16Of(Uint16(p.talkerCaps)) == p.talkerCaps;
    assert Uint16Of(Uint16(p.listenerSinks)) == p.listenerSinks && Uint16Of(Uint16(p.listenerCaps)) == p.listenerCaps;
    Uint32There(p.entityCaps);
    Uint32There(p.controllerCaps);
    Uint32There(p.availableIndex);
    hide Uint16, Uint16Of, Uint32, Uint32Of, AdpFront;
    AdpFrontSlices(p);
    FieldSlice(s, 12, 28, 0, 8);
    FieldSlice(s, 12, 28, 8, 12);
    FieldSlice(s, 12, 28, 12, 14);
    FieldSlice(s, 12, 28, 14, 16);
    FieldSlice(s, 12, 28, 16, 18);
    FieldSlice(s, 12, 28, 18, 20);
    FieldSlice(s, 12, 28, 20, 24);
    FieldSlice(s, 12, 28, 24, 28);
  }

  lemma AdpFrontSlices(p: Adpdu)
    ensures var t := AdpFront(p);
            && t[0..8] == p.modelId && t[8..12] == Uint32(p.entityCaps) && t[12..14] == Uint16(p.talkerSources)
            && t[14..16] == Uint16(p.talkerCaps) && t[16..18] == Uint16(p.listenerSinks)
            && t[18..20] == Uint16(p.listenerCaps)
            && t[20..24] == Uint32(p.controllerCaps) && t[24..28] == Uint32(p.availableIndex)
  {
    hide Uint16, Uint32;
    var a := p.modelId + Uint32(p.entityCaps) + Uint16(p.talkerSources) + Uint16(p.talkerCaps);
    var b := Uint16(p.listenerSinks) + Uint16(p.listenerCaps) + Uint32(p.controllerCaps) + Uint32(p.availableIndex);
    assert a[0..8] == p.modelId && a[8..12] == Uint32(p.entityCaps) && a[12..14] == Uint16(p.talkerSources)
      && a[14..16] == Uint16(p.talkerCaps);
    assert b[0..2] == Uint16(p.listenerSinks) && b[2..4] == Uint16(p.listenerCaps)
      && b[4..8] == Uint32(p.controllerCaps) && b[8..12] == Uint32(p.availableIndex);
    var t := AdpFront(p);
    assert t == a + b;
    InLeft(a, b, 0, 8);
    InLeft(a, b, 8, 12);
    InLeft(a, b, 12, 14);
    InLeft(a, b, 14, 16);
    InRight(a, b, 0, 2);
    InRight(a, b, 2, 4);
    InRight(a, b, 4, 8);
    InRight(a, b, 8, 12);
  }

  lemma InLeft(a: seq<Octet>, b: seq<Octet>, i: nat, j: nat)
    requires i <= j <= |a|
    ensures (a + b)[i..j] == a[i..j]
  {}

  lemma InRight(a: seq<Octet>, b: seq<Octet>, i: nat, j: nat)
    requires i <= j <= |b|
    ensures (a + b)[|a| + i..|a| + j] == b[i..j]
  {}

  lemma AdpMiddleThere(p: Adpdu, top: Octet, s: seq<Octet>)
    requires |s| == ADP_LEN && s[40..56] == AdpMiddle(p, top)
    ensures s[40..48] == p.grandmasterId && s[48] == p.domain
    ensures Uint32Of(s[49..53]) % MEDIUM == ReadBack(p)
    ensures Uint16Of(s[52..54]) == p.identifyIndex && Uint16Of(s[54..56]) == p.interfaceIndex
  {
    var t, u, i := s[40..56], Uint32(Padded(p.reserved0, top)), Uint16(p.identifyIndex);
    FieldSlice(s, 40, 16, 0, 8);
    FieldSlice(s, 40, 16, 9, 13);
    FieldSlice(s, 40, 16, 12, 14);
    FieldSlice(s, 40, 16, 14, 16);
    Uint16Trip(p.identifyIndex, i);
    Uint16Trip(p.interfaceIndex, i);
    PaddedOctets(p.reserved0, top, i[0]);
    assert i[0] == p.identifyIndex / 0x100;
    hide Uint16, Uint16Of, Uint32, Uint32Of, Padded;
    assert t[0..8] == p.grandmasterId && t[8] == p.domain;
    assert t[9..13] == u[..3] + [i[0]];
    assert t[12..14] == i && t[14..16] == Uint16(p.interfaceIndex);
  }

  /** Three octets of the padded number, and a foreign fourth. */
  lemma PaddedOctets(v: Word, top: Octet, low: Octet)
    ensures var u := Uint32(Padded(v, top));
            && u[..3] == [top, v % MEDIUM / 0x1_0000, v % MEDIUM / 0x100 % 0x100]
            && Uint32Of(u[..3] + [low]) % MEDIUM == v % MEDIUM / 0x100 * 0x100 + low
  {
    PaddedDigits(v % MEDIUM, top);
    var u := Uint32(Padded(v, top));
    var w := u[..3] + [low];
    assert w[..2] == u[..2] && w[2..] == [u[2], low];
    WithLow(top, v % MEDIUM, low);
    hide Padded;
  }

  lemma PaddedDigits(m: nat, top: Octet)
    requires m < MEDIUM
    ensures var n := Join(MEDIUM, top, m);
            n / 0x1_0000 / 0x100 == top && n / 0x1_0000 % 0x100 == m / 0x1_0000
              && n % 0x1_0000 / 0x100 == m / 0x100 % 0x100
  {
    var n := Join(MEDIUM, top, m);
    assert n / 0x1_0000 == 0x100 * top + m / 0x1_0000;
    assert n % 0x1_0000 == m % 0x1_0000;
  }

  lemma WithLow(top: Octet, m: nat, low: Octet)
    requires m < MEDIUM
    ensures Join(0x1_0000, Join(0x100, top, m / 0x1_0000), Join(0x100, m / 0x100 % 0x100, low)) % MEDIUM
            == m / 0x100 * 0x100 + low
  {
    assert m / 0x100 == m / 0x1_0000 * 0x100 + m / 0x100 % 0x100;
  }

  /** Reading what was written gives every field back, those of the header in their widths, but
      reserved0 with the high octet of identify_control_index for its low one. */
  lemma AdpThere(p: Adpdu)
    ensures AdpOf(AdpOctets(p)) == p.(header := Masked(p.header), reserved0 := ReadBack(p))
  {
    var s, h := AdpOctets(p), HeaderOctets(p.header);
    HeaderTrip(p.header, s[..12]);
    Uint32There(p.reserved1);
    hide HeaderOctets, HeaderOf, Masked, AdpFront, AdpMiddle, ReadBack, Uint32, Uint32Of, Uint16Of;
    assert s[..12] == h && s[12..40] == AdpFront(p) && s[40..56] == AdpMiddle(p, h[0]);
    assert s[56..64] == p.associationId && s[64..68] == Uint32(p.reserved1);
    AdpFrontThere(p, s);
    AdpMiddleThere(p, h[0], s);
  }

  /** The other way round: 68 octets come back but for the one in front of reserved0, which becomes the
      first octet of the PDU. */
  lemma AdpOctetsBack(s: seq<Octet>)
    requires |s| == ADP_LEN
    ensures AdpOctets(AdpOf(s)) == s[49 := s[0]]
    ensures AdpOctets(AdpOf(s)) == s <==> s[49] == s[0]
  {
    var p := AdpOf(s);
    HeaderTrip(p.header, s[..12]);
    AdpFrontBack(s);
    AdpMiddleBack(s);
    Uint32Back(s[64..68]);
    hide HeaderOctets, HeaderOf, AdpFront, AdpMiddle, Uint32, Uint32Of, Uint16Of;
    assert AdpBack(p) == s[56..64] + s[64..68];
    var t := s[49 := s[0]];
    assert t[..12] + t[12..40] + t[40..56] + (t[56..64] + t[64..68]) == t;
    assert t[..12] == s[..12] && t[12..40] == s[12..40] && t[56..64] == s[56..64] && t[64..68] == s[64..68];
  }

  lemma AdpFrontBack(s: seq<Octet>)
    requires |s| == ADP_LEN
    ensures AdpFront(AdpOf(s)) == s[12..40]
  {
    Uint32Back(s[20..24]);
    Uint16Trip(0, s[24..26]);
    Uint16Trip(0, s[26..28]);
    Uint16Trip(0, s[28..30]);
    Uint16Trip(0, s[30..32]);
    Uint32Back(s[32..36]);
    Uint32Back(s[36..40]);
    hide HeaderOf, Uint16, Uint16Of, Uint32, Uint32Of;
    assert s[12..40] == s[12..20] + s[20..24] + s[24..26] + s[26..28] + s[28..30] + s[30..32] + s[32..36] + s[36..40];
  }

  lemma AdpMiddleBack(s: seq<Octet>)
    requires |s| == ADP_LEN
    ensures AdpMiddle(AdpOf(s), s[0]) == s[49 := s[0]][40..56]
  {
    var v := Uint32Of(s[49..53]) % MEDIUM;
    PaddedOctets(v, s[0], s[52]);
    MediumOctets(s[49..53]);
    Uint16Trip(0, s[52..54]);
    Uint16Trip(0, s[54..56]);
    hide HeaderOf, Uint16, Uint16Of, Uint32, Uint32Of, Padded;
    assert s[49 := s[0]][40..56] == s[40..48] + [s[48]] + [s[0], s[50], s[51]] + s[52..54] + s[54..56];
  }

  lemma MediumOctets(s: seq<Octet>)
    requires |s| == 4
    ensures var v := Uint32Of(s) % MEDIUM; v % MEDIUM / 0x1_0000 == s[1] && v % MEDIUM / 0x100 % 0x100 == s[2]
  {
    var high: int, mid: int, low: int := s[1], s[2], s[3];
    var v := 0x1_0000 * high + (0x100 * mid + low);
    assert Uint32Of(s) == MEDIUM * s[0] + v;
    assert v / 0x100 == 0x100 * high + mid;
  }

  /** Exactly when reserved0 survives. */
  lemma Reserved0Survives(p: Adpdu)
    ensures AdpOf(AdpOctets(p)).reserved0 == p.reserved0
            <==> p.reserved0 < MEDIUM && p.reserved0 % 0x100 == p.identifyIndex / 0x100
  {
    AdpThere(p);
    hide AdpOf, AdpOctets;
    assert p.reserved0 % MEDIUM / 0x100 * 0x100 + p.reserved0 % MEDIUM % 0x100 == p.reserved0 % MEDIUM;
  }

  /** `jdksavdecc_adpdu_write`. */
  method AdpWrite(p: Adpdu, base: array<Octet>, pos: nat, len: nat) returns (r: int)
    requires len <= base.Length
    modifies base
    ensures r == ValidateRange(pos, len, ADP_LEN)
    ensures base[..] == if r >= 0 then Put(old(base[..]), pos, AdpOctets(p)) else old(base[..])
  {
    r := ValidateRange(pos, len, ADP_LEN);
    if r >= 0 {
      hide HeaderOctets, Put, AdpFront, AdpMiddle, AdpBack;
      ghost var b, h := old(base[..]), HeaderOctets(p.header);
      var hr := HeaderWrite(p.header, base, pos, len);
      AdpWriteFront(p, base, pos + 12);
      PutPut(b, pos, h, AdpFront(p));
      PutIs(b, pos, h + AdpFront(p));
      assert base[..][pos] == h[0];
      AdpWriteMiddle(p, base, pos);
      PutPut(b, pos, h + AdpFront(p), AdpMiddle(p, h[0]));
      AdpWriteBack(p, base, pos + 56);
      PutPut(b, pos, h + AdpFront(p) + AdpMiddle(p, h[0]), AdpBack(p));
    }
  }

  method AdpWriteFront(p: Adpdu, base: array<Octet>, at: nat)
    requires at + 28 <= base.Length
    modifies base
    ensures base[..] == Put(old(base[..]), at, AdpFront(p))
  {
    hide Put, Uint16, Uint32;
    ghost var b, s: seq<Octet> := old(base[..]), p.modelId;
    SetOctets(p.modelId, base, at);
    SetUint32(p.entityCaps, base, at + 8);
    PutPut(b, at, s, Uint32(p.entityCaps));
    s := s + Uint32(p.entityCaps);
    SetUint16(p.talkerSources, base, at + 12);
    PutPut(b, at, s, Uint16(p.talkerSources));
    s := s + Uint16(p.talkerSources);
    SetUint16(p.talkerCaps, base, at + 14);
    PutPut(b, at, s, Uint16(p.talkerCaps));
    s := s + Uint16(p.talkerCaps);
    SetUint16(p.listenerSinks, base, at + 16);
    PutPut(b, at, s, Uint16(p.listenerSinks));
    s := s + Uint16(p.listenerSinks);
    SetUint16(p.listenerCaps, base, at + 18);
    PutPut(b, at, s, Uint16(p.listenerCaps));
    s := s + Uint16(p.listenerCaps);
    SetUint32(p.controllerCaps, base, at + 20);
    PutPut(b, at, s, Uint32(p.controllerCaps));
    s := s + Uint32(p.controllerCaps);
    SetUint32(p.availableIndex, base, at + 24);
    PutPut(b, at, s, Uint32(p.availableIndex));
  }

  /** `jdksavdecc_adpdu_set_reserved0`: the fourth octet comes from the start of the PDU. */
  method SetReserved0(v: Word, base: array<Octet>, pos: nat)
    requires pos + ADP_LEN <= base.Length
    modifies base
    ensures base[..] == Put(old(base[..]), pos + 49, Uint32(Padded(v, old(base[pos]))))
  {
    var top := base[pos];
    SetUint32(Join(MEDIUM, top, v % MEDIUM), base, pos + 49);
  }

  method AdpWriteMiddle(p: Adpdu, base: array<Octet>, pos: nat)
    requires pos + ADP_LEN <= base.Length
    modifies base
    ensures base[..] == Put(old(base[..]), pos + 40, AdpMiddle(p, old(base[pos])))
  {
    hide Put, Uint16, Uint32, Padded;
    var at := pos + 40;
    ghost var b, top := old(base[..]), base[pos];
    ghost var u, i := Uint32(Padded(p.reserved0, top)), Uint16(p.identifyIndex);
    SetOctets(p.grandmasterId, base, at);
    SetOctets([p.domain], base, at + 8);
    PutPut(b, at, p.grandmasterId, [p.domain]);
    ghost var s := p.grandmasterId + [p.domain];
    PutIs(b, at, s);
    assert base[..][pos] == b[pos];
    SetReserved0(p.reserved0, base, pos);
    SetUint16(p.identifyIndex, base, at + 12);
    PutOver(Put(b, at, s), at + 9, u, i);
    PutPut(b, at, s, u[..3] + i);
    SetUint16(p.interfaceIndex, base, at + 14);
    PutPut(b, at, s + (u[..3] + i), Uint16(p.interfaceIndex));
    assert s + (u[..3] + i) + Uint16(p.interfaceIndex) == AdpMiddle(p, top);
  }

  /** The second store covers the last octet of the first. */
  lemma PutOver(b: seq<Octet>, at: nat, u: seq<Octet>, i: seq<Octet>)
    requires |u| == 4 && |i| == 2 && at + 5 <= |b|
    ensures Put(Put(b, at, u), at + 3, i) == Put(b, at, u[..3] + i)
  {
    PutIs(b, at, u);
    PutIs(Put(b, at, u), at + 3, i);
    PutIs(b, at, u[..3] + i);
    hide Put;
  }

  method AdpWriteBack(p: Adpdu, base: array<Octet>, at: nat)
    requires at + 12 <= base.Length
    modifies base
    ensures base[..] == Put(old(base[..]), at, AdpBack(p))
  {
    hide Put, Uint32;
    SetOctets(p.associationId, base, at);
    SetUint32(p.reserved1, base, at + 8);
    PutPut(old(base[..]), at, p.associationId, Uint32(p.reserved1));
  }

  method AdpReadFront(base: array<Octet>, pos: nat) returns (entityCaps: Word, talkerSources: Short, talkerCaps: Short,
      listenerSinks: Short, listenerCaps: Short, controllerCaps: Word, availableIndex: Word)
    requires pos + ADP_LEN <= base.Length
    ensures entityCaps == Uint32Of(base[pos + 20..pos + 24])
    ensures talkerSources == Uint16Of(base[pos + 24..pos + 26]) && talkerCaps == Uint16Of(base[pos + 26..pos + 28])
    ensures listenerSinks == Uint16Of(base[pos + 28..pos + 30]) && listenerCaps == Uint16Of(base[pos + 30..pos + 32])
    ensures controllerCaps == Uint32Of(base[pos + 32..pos + 36]) && availableIndex == Uint32Of(base[pos + 36..pos + 40])
  {
    hide Uint16Of, Uint32Of;
    entityCaps := GetUint32(base, pos + 20);
    talkerSources := GetUint16(base, pos + 24);
    talkerCaps := GetUint16(base, pos + 26);
    listenerSinks := GetUint16(base, pos + 28);
    listenerCaps := GetUint16(base, pos + 30);
    controllerCaps := GetUint32(base, pos + 32);
    availableIndex := GetUint32(base, pos + 36);
  }

  method AdpReadBack(base: array<Octet>, pos: nat)
      returns (reserved0: Word, identifyIndex: Short, interfaceIndex: Short, reserved1: Word)
    requires pos + ADP_LEN <= base.Length
    ensures reserved0 == Uint32Of(base[pos + 49..pos + 53]) % MEDIUM
    ensures identifyIndex == Uint16Of(base[pos + 52..pos + 54]) && interfaceIndex == Uint16Of(base[pos + 54..pos + 56])
    ensures reserved1 == Uint32Of(base[pos + 64..pos + 68])
  {
    hide Uint16Of, Uint32Of;
    identifyIndex := GetUint16(base, pos + 52);
    interfaceIndex := GetUint16(base, pos + 54);
    var v := GetUint32(base, pos + 49);
    reserved0 := v % MEDIUM;
    reserved1 := GetUint32(base, pos + 64);
  }

  /** `jdksavdecc_adpdu_read`. */
  method AdpRead(prev: Adpdu, base: array<Octet>, pos: nat, len: nat) returns (r: int, p: Adpdu)
    requires len <= base.Length
    ensures r == ValidateRange(pos, len, ADP_LEN)
    ensures p == if r >= 0 then AdpOf(base[pos..pos + ADP_LEN]) else prev
  {
    p := prev;
    r := ValidateRange(pos, len, ADP_LEN);
    if r >= 0 {
      hide AdpOf, HeaderOf, Uint16Of, Uint32Of;
      var hr, h := HeaderRead(prev.header, base, pos, len);
      var entityCaps, talkerSources, talkerCaps, listenerSinks, listenerCaps, controllerCaps, availableIndex :=
        AdpReadFront(base, pos);
      var reserved0, identifyIndex, interfaceIndex, reserved1 := AdpReadBack(base, pos);
      p := Adpdu(h, base[pos + 12..pos + 20], entityCaps, talkerSources, talkerCaps, listenerSinks, listenerCaps,
                 controllerCaps, availableIndex, base[pos + 40..pos + 48], base[pos + 48], reserved0, identifyIndex,
                 interfaceIndex, base[pos + 56..pos + 64], reserved1);
      AdpSlices(base[..], pos);
    }
  }

  lemma AdpSlices(b: seq<Octet>, pos: nat)
    requires pos + ADP_LEN <= |b|
    ensures AdpOf(b[pos..pos + ADP_LEN])
            == Adpdu(HeaderOf(b[pos..pos + 12]), b[pos + 12..pos + 20], Uint32Of(b[pos + 20..pos + 24]),
                     Uint16Of(b[pos + 24..pos + 26]), Uint16Of(b[pos + 26..pos + 28]),
                     Uint16Of(b[pos + 28..pos + 30]), Uint16Of(b[pos + 30..pos + 32]), Uint32Of(b[pos + 32..pos + 36]),
                     Uint32Of(b[pos + 36..pos + 40]), b[pos + 40..pos + 48], b[pos + 48],
                     Uint32Of(b[pos + 49..pos + 53]) % MEDIUM, Uint16Of(b[pos + 52..pos + 54]),
                     Uint16Of(b[pos + 54..pos + 56]), b[pos + 56..pos + 64], Uint32Of(b[pos + 64..pos + 68]))
  {
    hide HeaderOf, Uint16Of, Uint32Of;
    FieldSlice(b, pos, ADP_LEN, 0, 12);
    FieldSlice(b, pos, ADP_LEN, 12, 20);
    FieldSlice(b, pos, ADP_LEN, 20, 24);
    FieldSlice(b, pos, ADP_LEN, 24, 26);
    FieldSlice(b, pos, ADP_LEN, 26, 28);
    FieldSlice(b, pos, ADP_LEN, 28, 30);
    FieldSlice(b, pos, ADP_LEN, 30, 32);
    FieldSlice(b, pos, ADP_LEN, 32, 36);
    FieldSlice(b, pos, ADP_LEN, 36, 40);
    FieldSlice(b, pos, ADP_LEN, 40, 48);
    FieldSlice(b, pos, ADP_LEN, 49, 53);
    FieldSlice(b, pos, ADP_LEN, 52, 54);
    FieldSlice(b, pos, ADP_LEN, 54, 56);
    FieldSlice(b, pos, ADP_LEN, 56, 64);
    FieldSlice(b, pos, ADP_LEN, 64, 68);
  }

  lemma AdpReadAfterWrite(p: Adpdu, b: seq<Octet>, pos: nat)
    requires pos + ADP_LEN <= |b|
    ensures AdpOf(Put(b, pos, AdpOctets(p))[pos..pos + ADP_LEN])
            == p.(header := Masked(p.header), reserved0 := ReadBack(p))
  {
    PutIs(b, pos, AdpOctets(p));
    AdpThere(p);
  }
}
