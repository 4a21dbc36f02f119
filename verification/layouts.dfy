/**
 Which octet of a PDU, a message or a frame holds what, counted from its first octet, as the figures of
 IEEE Std 1722-2011 (clause 5.3), IEEE Std 1722.1-2013 (clauses 6.2.1, 8.2.1 and 9.2.1, and Annex C.4)
 and IEEE 802.1Q draw them.
 */
module Layouts {
  import opened Words
  import opened Wire
  import opened Pdus
  import opened Adpdus
  import opened Aecpdus
  import Appdus
  import EthFrame

  /** A 16-bit and a 32-bit number with the high octet first. */
  predicate Big16(s: seq<Octet>, i: nat, v: Short) {
    i + 2 <= |s| && s[i] == v / 256 && s[i + 1] == v % 256
  }

  predicate Big32(s: seq<Octet>, i: nat, v: Word) {
    && i + 4 <= |s|
    && v == 16777216 * (s[i] as int) + 65536 * (s[i + 1] as int) + 256 * (s[i + 2] as int) + s[i + 3]
  }

  lemma Uint16Is(s: seq<Octet>, i: nat, v: Short)
    requires i + 2 <= |s| && s[i..i + 2] == Uint16(v)
    ensures Big16(s, i, v)
  {
    assert s[i] == s[i..i + 2][0] && s[i + 1] == s[i..i + 2][1];
  }

  lemma Uint32Is(s: seq<Octet>, i: nat, v: Word)
    requires i + 4 <= |s| && s[i..i + 4] == Uint32(v)
    ensures Big32(s, i, v)
  {
    var t := s[i..i + 4];
    assert s[i] == t[0] && s[i + 1] == t[1] && s[i + 2] == t[2] && s[i + 3] == t[3];
    var high, low := v / 0x1_0000, v % 0x1_0000;
    assert high == 256 * (high / 256) + high % 256 && low == 256 * (low / 256) + low % 256;
  }

  /** The common control header: flags and type in two octets, status and length in two, then the id. */
  predicate HeaderAt(s: seq<Octet>, h: Header) {
    && |s| >= 12
    && s[0] / 128 == h.cd && s[0] % 128 == h.subtype
    && s[1] / 128 == h.sv && s[1] / 16 % 8 == h.version && s[1] % 16 == h.controlData
    && s[2] / 8 == h.status && 256 * (s[2] as int % 8) + s[3] as int == h.dataLength
    && s[4..12] == h.id
  }

  lemma HeaderLayout(s: seq<Octet>, h: Header)
    requires |s| >= 12 && InRange(h) && s[..12] == HeaderOctets(h)
    ensures HeaderAt(s, h)
  {
    var t := s[..12];
    assert s[0] == t[0] && s[1] == t[1] && s[2] == t[2] && s[3] == t[3];
    assert t == Bits(h) + h.id;
    assert s[4..12] == t[4..12] == h.id;
  }

  lemma AcmpLayout(p: Acmpdu)
    requires InRange(p.header)
    ensures var s := AcmpOctets(p);
            && |s| == 56 && HeaderAt(s, p.header)
            && s[12..20] == p.controllerId && s[20..28] == p.talkerId && s[28..36] == p.listenerId
            && Big16(s, 36, p.talkerUid) && Big16(s, 38, p.listenerUid) && s[40..46] == p.destMac
            && Big16(s, 46, p.connections) && Big16(s, 48, p.seqId) && Big16(s, 50, p.flags)
            && Big16(s, 52, p.vlanId) && Big16(s, 54, p.reserved)
  {
    var s := AcmpOctets(p);
    AcmpSlicesOf(p);
    hide AcmpOctets, HeaderOctets, Uint16, HeaderAt, Big16;
    HeaderLayout(s, p.header);
    Uint16Is(s, 36, p.talkerUid);
    Uint16Is(s, 38, p.listenerUid);
    Uint16Is(s, 46, p.connections);
    Uint16Is(s, 48, p.seqId);
    Uint16Is(s, 50, p.flags);
    Uint16Is(s, 52, p.vlanId);
    Uint16Is(s, 54, p.reserved);
  }

  lemma AcmpSlicesOf(p: Acmpdu)
    ensures var s := AcmpOctets(p);
            && s[..12] == HeaderOctets(p.header)
            && s[12..20] == p.controllerId && s[20..28] == p.talkerId && s[28..36] == p.listenerId
            && s[36..38] == Uint16(p.talkerUid) && s[38..40] == Uint16(p.listenerUid) && s[40..46] == p.destMac
            && s[46..48] == Uint16(p.connections) && s[48..50] == Uint16(p.seqId) && s[50..52] == Uint16(p.flags)
            && s[52..54] == Uint16(p.vlanId) && s[54..56] == Uint16(p.reserved)
  {
    hide HeaderOctets, Uint16;
    var s := AcmpOctets(p);
    assert s[46..56] == AcmpTail(p);
    AcmpTailThere(p, s);
  }

  /** The ADPDU; the octet in front of reserved0 is the first octet of the PDU, and the low octet of
      reserved0 is not there. */
  lemma AdpLayout(p: Adpdu)
    requires InRange(p.header)
    ensures var s := AdpOctets(p);
            && |s| == 68 && HeaderAt(s, p.header) && s[12..20] == p.modelId
            && Big32(s, 20, p.entityCaps) && Big16(s, 24, p.talkerSources) && Big16(s, 26, p.talkerCaps)
            && Big16(s, 28, p.listenerSinks) && Big16(s, 30, p.listenerCaps)
            && Big32(s, 32, p.controllerCaps) && Big32(s, 36, p.availableIndex)
            && s[40..48] == p.grandmasterId && s[48] == p.domain && s[49] == s[0]
            && s[50] == p.reserved0 % 0x100_0000 / 65536 && s[51] == p.reserved0 % 0x100_0000 / 256 % 256
            && Big16(s, 52, p.identifyIndex) && Big16(s, 54, p.interfaceIndex)
            && s[56..64] == p.associationId && Big32(s, 64, p.reserved1)
  {
    var s, top := AdpOctets(p), HeaderOctets(p.header)[0];
    AdpParts(p);
    AdpFrontAt(p, s);
    AdpMiddleAt(p, top, s);
    hide AdpOctets, AdpFront, AdpMiddle, HeaderOctets, Uint32, HeaderAt, Big16, Big32;
    HeaderLayout(s, p.header);
    Uint32Is(s, 64, p.reserved1);
  }

  lemma AdpParts(p: Adpdu)
    ensures var s, h := AdpOctets(p), HeaderOctets(p.header);
            && s[..12] == h && s[0] == h[0] && s[12..40] == AdpFront(p) && s[40..56] == AdpMiddle(p, h[0])
            && s[56..64] == p.associationId && s[64..68] == Uint32(p.reserved1)
  {
    hide HeaderOctets, AdpFront, AdpMiddle, Uint32;
  }

  lemma AdpFrontAt(p: Adpdu, s: seq<Octet>)
    requires |s| == 68 && s[12..40] == AdpFront(p)
    ensures s[12..20] == p.modelId && Big32(s, 20, p.entityCaps) && Big16(s, 24, p.talkerSources)
    ensures Big16(s, 26, p.talkerCaps) && Big16(s, 28, p.listenerSinks) && Big16(s, 30, p.listenerCaps)
    ensures Big32(s, 32, p.controllerCaps) && Big32(s, 36, p.availableIndex)
  {
    AdpFrontSlices(p);
    hide AdpFront, Uint16, Uint32, Big16, Big32;
    FieldSlice(s, 12, 28, 0, 8);
    FieldSlice(s, 12, 28, 8, 12);
    FieldSlice(s, 12, 28, 12, 14);
    FieldSlice(s, 12, 28, 14, 16);
    FieldSlice(s, 12, 28, 16, 18);
    FieldSlice(s, 12, 28, 18, 20);
    FieldSlice(s, 12, 28, 20, 24);
    FieldSlice(s, 12, 28, 24, 28);
    Uint32Is(s, 20, p.entityCaps);
    Uint16Is(s, 24, p.talkerSources);
    Uint16Is(s, 26, p.talkerCaps);
    Uint16Is(s, 28, p.listenerSinks);
    Uint16Is(s, 30, p.listenerCaps);
    Uint32Is(s, 32, p.controllerCaps);
    Uint32Is(s, 36, p.availableIndex);
  }

  lemma AdpMiddleAt(p: Adpdu, top: Octet, s: seq<Octet>)
    requires |s| == 68 && s[40..56] == AdpMiddle(p, top)
    ensures s[40..48] == p.grandmasterId && s[48] == p.domain && s[49] == top
    ensures s[50] == p.reserved0 % 0x100_0000 / 65536 && s[51] == p.reserved0 % 0x100_0000 / 256 % 256
    ensures Big16(s, 52, p.identifyIndex) && Big16(s, 54, p.interfaceIndex)
  {
    var t, u := s[40..56], Uint32(Padded(p.reserved0, top));
    PaddedOctets(p.reserved0, top, 0);
    hide Uint16, Uint32, Uint32Of, Padded, Big16;
    assert t == p.grandmasterId + [p.domain] + u[..3] + Uint16(p.identifyIndex) + Uint16(p.interfaceIndex);
    assert t[0..8] == p.grandmasterId && t[8] == p.domain && t[9] == u[0] && t[10] == u[1] && t[11] == u[2];
    assert u[..3][0] == u[0] && u[..3][1] == u[1] && u[..3][2] == u[2];
    assert t[12..14] == Uint16(p.identifyIndex) && t[14..16] == Uint16(p.interfaceIndex);
    FieldSlice(s, 40, 16, 0, 8);
    FieldSlice(s, 40, 16, 12, 14);
    FieldSlice(s, 40, 16, 14, 16);
    assert s[48] == t[8] && s[49] == t[9] && s[50] == t[10] && s[51] == t[11];
    Uint16Is(s, 52, p.identifyIndex);
    Uint16Is(s, 54, p.interfaceIndex);
  }

  lemma AemLayout(p: Aemdu)
    requires InRange(p.common.header)
    ensures var s := AemOctets(p);
            && |s| == 24 && HeaderAt(s, p.common.header) && s[12..20] == p.common.controllerId
            && Big16(s, 20, p.common.seqId) && Big16(s, 22, p.commandType)
  {
    var s := AemOctets(p);
    AemSlicesOf(p);
    hide AemOctets, HeaderOctets, Uint16, HeaderAt, Big16;
    HeaderLayout(s, p.common.header);
    Uint16Is(s, 20, p.common.seqId);
    Uint16Is(s, 22, p.commandType);
  }

  lemma AemSlicesOf(p: Aemdu)
    ensures var s := AemOctets(p);
            && s[..12] == HeaderOctets(p.common.header) && s[12..20] == p.common.controllerId
            && s[20..22] == Uint16(p.common.seqId) && s[22..24] == Uint16(p.commandType)
  {
    hide HeaderOctets, Uint16;
  }

  /** The proxy PDU: twelve octets of header, then the payload. */
  lemma AppLayout(p: Appdus.Appdu)
    requires Appdus.Backed(p)
    ensures var s := Appdus.AppHeader(p) + Appdus.Content(p);
            && s[0] == p.version && s[1] == p.messageType && Big16(s, 2, p.payloadLength) && s[4..10] == p.address
            && Big16(s, 10, p.reserved) && s[12..] == Appdus.Content(p)
            && (p.payload.Some? ==> |s| == 12 + p.payloadLength
                                    && forall i :: 0 <= i < p.payloadLength ==> s[12 + i] == p.payload.value[i])
  {
    var s, c := Appdus.AppHeader(p) + Appdus.Content(p), Appdus.Content(p);
    Appdus.HeaderParts(p, c);
    assert forall i :: 0 <= i < |c| ==> s[12 + i] == s[12..][i];
    hide Appdus.AppHeader, Uint16, Big16;
    Uint16Is(s, 2, p.payloadLength);
    Uint16Is(s, 10, p.reserved);
  }

  /** What can be written: room for the header and the payload, a type known to the code, and a payload that
      is there and not too long, if any is asked for. */
  lemma AppWritable(p: Appdus.Appdu, pos: nat, len: nat)
    ensures Appdus.WriteCode(p, pos, len) >= 0 <==>
              && pos + 12 + p.payloadLength <= len
              && (p.messageType <= 6 || p.messageType == 255)
              && (p.payloadLength > 0 ==> p.payload.Some? && p.payloadLength <= 1500)
  {}

  /** An Ethernet frame: the addresses, the tag if there is one, the type, and the payload. */
  lemma FrameLayout(f: EthFrame.Frame)
    requires EthFrame.Sound(f)
    ensures var s := EthFrame.FrameOctets(f);
            && s[..6] == f.dest && s[6..12] == f.src
            && (if f.tpid == 0x8100 then
                  && |s| == 18 + f.length && s[12] == 0x81 && s[13] == 0
                  && s[14] / 32 == f.pcp && s[14] / 16 % 2 == f.dei && 256 * (s[14] as int % 16) + s[15] as int == f.vid
                  && Big16(s, 16, f.ethertype) && s[18..] == f.payload[..f.length]
                else |s| == 14 + f.length && Big16(s, 12, f.ethertype) && s[14..] == f.payload[..f.length])
  {
    var s, n := EthFrame.FrameOctets(f), EthFrame.HeaderSize(f.tpid);
    assert s[..6] == f.dest && s[6..12] == f.src;
    assert s[12..n] == EthFrame.TypeOctets(f) && s[n..] == f.payload[..f.length];
    TypeAt(f, s);
  }

  lemma TypeAt(f: EthFrame.Frame, s: seq<Octet>)
    requires EthFrame.Sound(f)
    requires var n := EthFrame.HeaderSize(f.tpid); n <= |s| && s[12..n] == EthFrame.TypeOctets(f)
    ensures if f.tpid == 0x8100 then
              && s[12] == 0x81 && s[13] == 0
              && s[14] / 32 == f.pcp && s[14] / 16 % 2 == f.dei && 256 * (s[14] as int % 16) + s[15] as int == f.vid
              && Big16(s, 16, f.ethertype)
            else Big16(s, 12, f.ethertype)
  {
    var n := EthFrame.HeaderSize(f.tpid);
    var t := s[12..n];
    assert s[12] == t[0] && s[13] == t[1];
    if f.tpid == 0x8100 {
      assert s[14] == t[2] && s[15] == t[3] && s[16] == t[4] && s[17] == t[5];
      var c := EthFrame.Tci(f);
      assert t[2] == c / 256 && t[3] == c % 256;
      TciAt(f);
    }
  }

  lemma TciAt(f: EthFrame.Frame)
    requires EthFrame.Sound(f)
    ensures var c := EthFrame.Tci(f);
            c / 256 / 32 == f.pcp && c / 256 / 16 % 2 == f.dei && 256 * (c / 256 % 16) + c % 256 == f.vid
  {
    var c, p, d, v := EthFrame.Tci(f), f.pcp as int, f.dei as int, f.vid;
    assert c / 256 == 32 * p + 16 * d + v / 256;
    assert c / 256 / 16 == 2 * p + d;
  }

  /** A frame can be written when twice the position, the header and the payload fit; the code is then what
      they come to. */
  lemma FrameCode(f: EthFrame.Frame, pos: nat, len: nat)
    ensures var n := pos + (pos + (if f.tpid == 0x8100 then 18 else 14) + f.length);
            EthFrame.WriteCode(f, pos, len) == if n <= len then n else -1
  {}

  /** Where a frame cannot be written as a whole, its header is written as far as it fits, and nothing else
      is touched; otherwise the frame stands at its position. */
  lemma FrameWritten(f: EthFrame.Frame, b: seq<Octet>, pos: nat, len: nat)
    requires EthFrame.Sound(f) && len <= |b|
    ensures var s, c := EthFrame.FrameOctets(f), EthFrame.Written(f, b, pos, len);
            var k := if f.tpid == 0x8100 then 18 else 14;
            var n := if EthFrame.WriteCode(f, pos, len) >= 0 then |s|
                     else if pos + k <= len then k else if pos + 14 <= len then 12 else 0;
            && |c| == |b| && (n > 0 ==> pos + n <= |b| && n <= |s| && c[pos..pos + n] == s[..n])
            && forall i :: 0 <= i < |b| && !(pos <= i < pos + n) ==> c[i] == b[i]
  {
    var s, k := EthFrame.FrameOctets(f), EthFrame.HeaderSize(f.tpid);
    assert s[..12] == EthFrame.Addresses(f) && s[..k] == EthFrame.Addresses(f) + EthFrame.TypeOctets(f);
    if pos + 14 <= len {
      PutIs(b, pos, EthFrame.Addresses(f));
      if pos + k <= len {
        PutIs(b, pos, EthFrame.Addresses(f) + EthFrame.TypeOctets(f));
        if EthFrame.WriteCode(f, pos, len) >= 0 { PutIs(b, pos, s); }
      }
    }
    hide Put, EthFrame.TypeOctets, EthFrame.FrameOctets;
  }

  /** What a reader of proxy PDUs accepts, and its three errors: no room for the header; a version, a type or a
      length it does not know; a payload that is cut short. */
  lemma AppReadable(b: seq<Octet>, pos: nat, len: nat)
    requires len <= |b|
    ensures var r := Appdus.ReadCode(b, pos, len);
            if pos + 12 > len then r == -1
            else
              var n := 256 * (b[pos + 2] as int) + b[pos + 3] as int;
              if b[pos] != 0 || !(b[pos + 1] <= 6 || b[pos + 1] == 255) || n > 1500 then r == -3
              else if pos + 12 + n > len then r == -2
              else r == pos + 12 + n
  {}

  /** What a reader of frames makes of the octets: the addresses; a tag of type 8100 with what it holds, or no
      tag; the type; and as much payload as the buffer is long, in front of what the structure held. */
  lemma FrameFieldsMean(prev: EthFrame.Frame, b: seq<Octet>, pos: nat, len: nat)
    requires EthFrame.Sound(prev) && EthFrame.Reach(b, pos, len) && EthFrame.ReadCode(b, pos, len) >= 0
    ensures var g := EthFrame.ReadFields(prev, b, pos, len);
            var tagged := b[pos + 12] == 0x81 && b[pos + 13] == 0;
            var k := if tagged then 18 else 14;
            && pos + k <= len && pos + len <= |b| && len - k <= 640
            && g.dest == b[pos..pos + 6] && g.src == b[pos + 6..pos + 12]
            && (tagged ==> g.tpid == 0x8100 && g.pcp == b[pos + 14] / 32 && g.dei == b[pos + 14] / 16 % 2
                           && g.vid == 256 * (b[pos + 14] as int % 16) + b[pos + 15] as int)
            && (!tagged ==> g.tpid == 0 && g.pcp == 0 && g.dei == 0 && g.vid == 0)
            && Big16(b, pos + k - 2, g.ethertype)
            && g.length == len - k && g.payload == b[pos + k..pos + len] + prev.payload[len - k..]
  {
    Uint16OfIs(b, pos + 12);
    hide Uint16Of, Put, Big16;
    if b[pos + 12] == 0x81 && b[pos + 13] == 0 {
      Uint16OfIs(b, pos + 14);
      Uint16OfIs(b, pos + 16);
      TagBits(b[pos + 14], b[pos + 15]);
      PutFront(prev.payload, b[pos + 18..pos + len]);
    } else {
      PutFront(prev.payload, b[pos + 14..pos + len]);
    }
  }

  lemma PutFront(b: seq<Octet>, s: seq<Octet>)
    requires |s| <= |b|
    ensures Put(b, 0, s) == s + b[|s|..]
  {}

  lemma Uint16OfIs(b: seq<Octet>, i: nat)
    requires i + 2 <= |b|
    ensures Uint16Of(b[i..i + 2]) == 256 * (b[i] as int) + b[i + 1] as int && Big16(b, i, Uint16Of(b[i..i + 2]))
  {
    assert b[i..i + 2][0] == b[i] && b[i..i + 2][1] == b[i + 1];
  }

  lemma TagBits(high: Octet, low: Octet)
    ensures var c := 256 * (high as int) + low as int;
            && c / 0x2000 == high / 32 && c / 0x1000 % 2 == high / 16 % 2
            && c % 0x1000 == 256 * (high as int % 16) + low as int
  {
    var c, h: int := 256 * (high as int) + low as int, high;
    assert h == 32 * (h / 32) + h % 32 && h == 16 * (h / 16) + h % 16;
    assert c == 0x2000 * (h / 32) + (256 * (h % 32) + low as int);
    assert c == 0x1000 * (h / 16) + (256 * (h % 16) + low as int);
  }

  /** What a reader of proxy PDUs leaves in the structure, which it clears first: nothing without a whole
      header; the version alone, or the type alone, when that is what it does not know; otherwise all
      fields, and a payload when it is whole. */
  lemma AppFieldsMean(b: seq<Octet>, pos: nat, len: nat)
    requires len <= |b|
    ensures var q := Appdus.ReadFields(b, pos, len);
            var zero := Appdus.Appdu(0, 0, 0, [0, 0, 0, 0, 0, 0], 0, None);
            if pos + 12 > len then q == zero
            else if b[pos] != 0 then q == zero.(version := b[pos])
            else if !(b[pos + 1] <= 6 || b[pos + 1] == 255) then q == zero.(messageType := b[pos + 1])
            else
              && q.version == 0 && q.messageType == b[pos + 1] && Big16(b, pos + 2, q.payloadLength)
              && q.address == b[pos + 4..pos + 10] && Big16(b, pos + 10, q.reserved)
              && (q.payload.Some? <==> Appdus.ReadCode(b, pos, len) >= 0)
              && (q.payload.Some? ==> 12 + q.payloadLength <= len && q.payload.value == b[12..12 + q.payloadLength])
  {
    if pos + 12 <= len {
      Uint16OfIs(b, pos + 2);
      Uint16OfIs(b, pos + 10);
    }
    hide Uint16Of;
  }
}
