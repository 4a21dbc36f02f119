/**
 The messages the controller forms and the responses it awaits, octet by octet: what stands where in the
 payload, in terms of the arguments, the sender's address and the structure the caller passed in.
 */
module AvdeccWire {
  import opened Words
  import opened Wire
  import opened Pdus
  import opened Aecpdus
  import opened EthFrame
  import opened AvdeccForms
  import opened Layouts

  /** The identifier of a controller: its address with FF FE in the middle. */
  predicate FromAddress(id: Eui64, mac: Eui48) {
    && id[0] == mac[0] && id[1] == mac[1] && id[2] == mac[2] && id[3] == 0xFF && id[4] == 0xFE
    && id[5] == mac[3] && id[6] == mac[4] && id[7] == mac[5]
  }

  /** What an ACMP message says: the arguments, the sender, and of the caller's structure the stream id, the
      destination address, the flags, the VLAN and what is reserved. */
  predicate AcmpSays(r: Acmpdu, mac: Eui48, p: Acmpdu, messageType: Short, seqId: Short, talker: Eui64,
                     talkerUid: Short, listener: Eui64, listenerUid: Short, connections: Short)
  {
    && r.header == Header(1, 0x7C, 0, 0, messageType % 16, 0, 44, p.header.id)
    && FromAddress(r.controllerId, mac)
    && r.talkerId == talker && r.talkerUid == talkerUid && r.listenerId == listener && r.listenerUid == listenerUid
    && r.connections == connections && r.seqId == seqId
    && r.destMac == p.destMac && r.flags == p.flags && r.vlanId == p.vlanId && r.reserved == p.reserved
  }

  /** What the reader makes of a formed ACMP frame, which is addressed to the multicast address. */
  lemma AcmpDecoded(f: Frame, p: Acmpdu, messageType: Short, seqId: Short, talker: Eui64, talkerUid: Short,
                    listener: Eui64, listenerUid: Short, connections: Short)
    requires Sound(f)
    ensures var q := AcmpFilled(p, f.src, messageType, seqId, talker, talkerUid, listener, listenerUid, connections);
            var g := AcmpFormed(f, q);
            && Sound(g) && g == f.(dest := [0x91, 0xE0, 0xF0, 0x01, 0, 0], ethertype := 0x22F0, length := 56,
                                   payload := g.payload)
            && AcmpSays(AcmpOf(g.payload[..56]), f.src, p, messageType, seqId, talker, talkerUid, listener, listenerUid,
                        connections)
  {
    var q := AcmpFilled(p, f.src, messageType, seqId, talker, talkerUid, listener, listenerUid, connections);
    AcmpStart(f, q);
    AcmpTrip(q, AcmpOctets(q));
    FilledSays(p, f.src, messageType, seqId, talker, talkerUid, listener, listenerUid, connections);
    hide AcmpOf, AcmpOctets, Put, Masked, AcmpSays, AcmpFilled;
  }

  lemma FilledSays(p: Acmpdu, mac: Eui48, messageType: Short, seqId: Short, talker: Eui64, talkerUid: Short,
                   listener: Eui64, listenerUid: Short, connections: Short)
    ensures var q := AcmpFilled(p, mac, messageType, seqId, talker, talkerUid, listener, listenerUid, connections);
            Masked(q.header) == q.header
            && AcmpSays(q, mac, p, messageType, seqId, talker, talkerUid, listener, listenerUid, connections)
  {}

  /** The 56 octets of an ACMP message. */
  predicate AcmpWire(s: seq<Octet>, mac: Eui48, p: Acmpdu, messageType: Short, seqId: Short, talker: Eui64,
                     talkerUid: Short, listener: Eui64, listenerUid: Short, connections: Short)
  {
    && |s| == 56
    && s[0] == 0xFC && s[1] == messageType % 16 && s[2] == 0 && s[3] == 44 && s[4..12] == p.header.id
    && FromAddress(s[12..20], mac) && s[20..28] == talker && s[28..36] == listener
    && Big16(s, 36, talkerUid) && Big16(s, 38, listenerUid) && s[40..46] == p.destMac
    && Big16(s, 46, connections) && Big16(s, 48, seqId) && Big16(s, 50, p.flags)
    && Big16(s, 52, p.vlanId) && Big16(s, 54, p.reserved)
  }

  /** The same frame on the wire. Behind the 56 octets the payload is as it was. */
  lemma AcmpOnWire(f: Frame, p: Acmpdu, messageType: Short, seqId: Short, talker: Eui64, talkerUid: Short,
                   listener: Eui64, listenerUid: Short, connections: Short)
    requires Sound(f)
    ensures var q := AcmpFilled(p, f.src, messageType, seqId, talker, talkerUid, listener, listenerUid, connections);
            var g := AcmpFormed(f, q).payload;
            && |g| == 640 && g[56..] == f.payload[56..]
            && AcmpWire(g[..56], f.src, p, messageType, seqId, talker, talkerUid, listener, listenerUid, connections)
  {
    var q := AcmpFilled(p, f.src, messageType, seqId, talker, talkerUid, listener, listenerUid, connections);
    AcmpStart(f, q);
    AcmpOctetsWire(p, f.src, messageType, seqId, talker, talkerUid, listener, listenerUid, connections);
    hide AcmpFormed, AcmpWire, AcmpOctets, AcmpFilled;
  }

  lemma AcmpOctetsWire(p: Acmpdu, mac: Eui48, messageType: Short, seqId: Short, talker: Eui64, talkerUid: Short,
                       listener: Eui64, listenerUid: Short, connections: Short)
    ensures var q := AcmpFilled(p, mac, messageType, seqId, talker, talkerUid, listener, listenerUid, connections);
            AcmpWire(AcmpOctets(q), mac, p, messageType, seqId, talker, talkerUid, listener, listenerUid, connections)
  {
    var q := AcmpFilled(p, mac, messageType, seqId, talker, talkerUid, listener, listenerUid, connections);
    AcmpLayout(q);
    AcmpHead(q.header, AcmpOctets(q), messageType);
    hide AcmpOctets, HeaderAt, Big16;
  }

  lemma AcmpHead(h: Header, s: seq<Octet>, messageType: Short)
    requires HeaderAt(s, h) && h.cd == 1 && h.subtype == 0x7C && h.sv == 0 && h.version == 0
    requires h.controlData == messageType % 16 && h.status == 0 && h.dataLength == 44
    ensures s[0] == 0xFC && s[1] == messageType % 16 && s[2] == 0 && s[3] == 44 && s[4..12] == h.id
  {}

  lemma AcmpStart(f: Frame, q: Acmpdu)
    requires Sound(f)
    ensures var s := AcmpFormed(f, q).payload; |s| == 640 && s[..56] == AcmpOctets(q) && s[56..] == f.payload[56..]
  {
    hide AcmpOctets;
    PutIs(f.payload, 0, AcmpOctets(q));
  }

  /** The 24 octets of an AEM message, whose command has a payload of n octets. */
  predicate AemWire(s: seq<Octet>, mac: Eui48, messageType: Short, command: Short, seqId: Short, target: Eui64, n: nat)
  {
    && |s| == 24
    && s[0] == 0xFB && s[1] == messageType % 16 && s[2] == (12 + n) % 2048 / 256 && s[3] == (12 + n) % 256
    && s[4..12] == target && FromAddress(s[12..20], mac) && Big16(s, 20, seqId) && Big16(s, 22, command)
  }

  /** The AEM message: 24 octets, then the command's payload when it fits, counted by the length of the
      frame; the eleven bits of length in the header count twelve octets and the payload either way. */
  lemma AemOnWire(f: Frame, p: Aemdu, messageType: Short, command: Short, seqId: Short, dest: Eui48, target: Eui64,
                  payload: seq<Octet>)
    requires Sound(f)
    ensures var q := AemFilled(p, f.src, messageType, command, seqId, target, |payload|);
            var g := AemFormed(f, dest, q, payload);
            var fits := 24 + |payload| < 640;
            && Sound(g) && g == f.(dest := dest, ethertype := 0x22F0, length := g.length, payload := g.payload)
            && g.length == (if fits then 24 + |payload| else 24)
            && g.payload[24..] == (if fits then payload + f.payload[24 + |payload|..] else f.payload[24..])
            && AemWire(g.payload[..24], f.src, messageType, command, seqId, target, |payload|)
  {
    var q := AemFilled(p, f.src, messageType, command, seqId, target, |payload|);
    AemStart(f, dest, q, payload);
    AemBehind(f, dest, q, payload);
    AemOctetsWire(p, f.src, messageType, command, seqId, target, |payload|);
    hide AemFormed, AemWire, AemOctets, AemFilled;
  }

  lemma AemOctetsWire(p: Aemdu, mac: Eui48, messageType: Short, command: Short, seqId: Short, target: Eui64, n: nat)
    ensures AemWire(AemOctets(AemFilled(p, mac, messageType, command, seqId, target, n)), mac, messageType, command,
                    seqId, target, n)
  {
    var q := AemFilled(p, mac, messageType, command, seqId, target, n);
    var m := Aemdu(q.common.(header := Masked(q.common.header)), q.commandType);
    AemMasked(q, m);
    AemLayout(m);
    AemHeader(q.common.header, messageType, n, target);
    AemHead(m.common.header, AemOctets(q), messageType, n);
    hide AemOctets, HeaderAt, Big16, Masked;
  }

  /** Writing keeps the bits of the header that fit its fields. */
  lemma AemMasked(q: Aemdu, m: Aemdu)
    requires m == Aemdu(q.common.(header := Masked(q.common.header)), q.commandType)
    ensures AemOctets(m) == AemOctets(q)
  {
    assert Masked(Masked(q.common.header)) == Masked(q.common.header);
    hide Masked;
  }

  lemma AemHead(h: Header, s: seq<Octet>, messageType: Short, n: nat)
    requires HeaderAt(s, h) && h.cd == 1 && h.subtype == 0x7B && h.sv == 0 && h.version == 0
    requires h.controlData == messageType % 16 && h.status == 0 && h.dataLength == (12 + n) % 2048
    ensures s[0] == 0xFB && s[1] == messageType % 16 && s[2] == (12 + n) % 2048 / 256 && s[3] == (12 + n) % 256
  {
    var l := (12 + n) % 2048;
    assert 12 + n == 256 * (8 * ((12 + n) / 2048)) + l;
    assert (12 + n) % 256 == l % 256;
  }

  lemma AemBehind(f: Frame, dest: Eui48, q: Aemdu, payload: seq<Octet>)
    requires Sound(f)
    ensures var g, fits := AemFormed(f, dest, q, payload), 24 + |payload| < 640;
            && Sound(g) && g == f.(dest := dest, ethertype := 0x22F0, length := g.length, payload := g.payload)
            && g.length == (if fits then 24 + |payload| else 24)
            && g.payload[24..] == (if fits then payload + f.payload[24 + |payload|..] else f.payload[24..])
  {
    hide AemOctets;
    PutIs(f.payload, 0, AemOctets(q));
    var b := Put(f.payload, 0, AemOctets(q));
    assert b[24..] == f.payload[24..];
    if 24 + |payload| < 640 {
      PutIs(b, 24, payload);
      assert Put(b, 24, payload)[24..] == payload + b[24 + |payload|..];
      assert b[24 + |payload|..] == f.payload[24 + |payload|..];
    }
  }

  // ----- What is accepted -----

  /** Two octets with the high one first. */
  function Number(s: seq<Octet>, i: nat): int
    requires i + 2 <= |s|
  {
    256 * (s[i] as int) + s[i + 1] as int
  }

  /** An id that is asked for, and is not all zeros, stands at its place, and a number at its own. */
  predicate Stands(s: seq<Octet>, wanted: Option<Eui64>, at: nat, number: Short, numberAt: nat)
    requires at + 8 <= |s| && numberAt + 2 <= |s|
  {
    wanted.None? || (forall i :: 0 <= i < 8 ==> wanted.value[i] == 0)
    || (s[at..at + 8] == wanted.value && Number(s, numberAt) == number)
  }

  /** Of any frame, in terms of its octets: an ACMP message to the multicast address, long enough, one of the
      three responses a listener sends, with the controller and sequence and the listener and its number
      as they are asked for. */
  lemma AcmpAcceptedMeans(f: Frame, controller: Option<Eui64>, seqId: Short, listener: Option<Eui64>,
                          listenerUid: Short)
    requires Sound(f)
    ensures AcmpAccepted(f, controller, seqId, listener, listenerUid) <==>
              && f.ethertype == 0x22F0 && f.dest == [0x91, 0xE0, 0xF0, 0x01, 0, 0] && f.length >= 56
              && f.payload[0] == 0xFC && f.payload[1] % 16 in {7, 9, 11}
              && Stands(f.payload, controller, 12, seqId, 48) && Stands(f.payload, listener, 28, listenerUid, 38)
  {
    var s := f.payload;
    AcmpFieldsOf(s);
    AgreesMeans(s, controller, 12, seqId, 48);
    AgreesMeans(s, listener, 28, listenerUid, 38);
    hide Agrees, Stands, Uint16Of, AcmpOf;
  }

  /** The fields of an ACMP message that are compared. */
  lemma AcmpFieldsOf(s: seq<Octet>)
    requires |s| == 640
    ensures var r := AcmpOf(s[..56]);
            && r.header.controlData == s[1] % 16 && r.controllerId == s[12..20] && r.seqId == Uint16Of(s[48..50])
            && r.listenerId == s[28..36] && r.listenerUid == Uint16Of(s[38..40])
  {
    var t := s[..56];
    FieldSlice(s, 0, 56, 12, 20);
    FieldSlice(s, 0, 56, 28, 36);
    FieldSlice(s, 0, 56, 48, 50);
    FieldSlice(s, 0, 56, 38, 40);
    assert s[0..0 + 56] == t;
    assert t[..12][1] == s[1];
    hide Uint16Of;
  }

  lemma AgreesMeans(s: seq<Octet>, wanted: Option<Eui64>, at: nat, number: Short, numberAt: nat)
    requires at + 8 <= |s| && numberAt + 2 <= |s|
    ensures Agrees(wanted, number, s[at..at + 8], Uint16Of(s[numberAt..numberAt + 2])) <==>
              Stands(s, wanted, at, number, numberAt)
  {
    if wanted.Some? && forall i :: 0 <= i < 8 ==> wanted.value[i] == 0 {
      assert wanted.value == ZeroEui64;
    }
  }

  /** Likewise an AEM response: its type, version and control bit, a length of twelve octets at least, and the
      three ids. */
  lemma AemAcceptedMeans(f: Frame, controller: Eui64, target: Eui64, seqId: Short)
    requires Sound(f)
    ensures var s := f.payload;
            AemAccepted(f, controller, target, seqId) <==>
              && f.length >= 24 && s[0] == 0xFB && s[1] / 16 % 8 == 0 && s[1] % 16 == 1
              && 256 * (s[2] as int % 8) + s[3] as int >= 12
              && s[4..12] == target && s[12..20] == controller && Number(s, 20) == seqId
  {
    var s, t := f.payload, f.payload[..24];
    assert s[0..24] == t && s[0..22] == t[..22] && s[0..12] == t[..22][..12];
    FieldSlice(s, 0, 12, 4, 12);
    FieldSlice(s, 0, 22, 12, 20);
    FieldSlice(s, 0, 22, 20, 22);
    FieldSlice(s, 0, 24, 22, 24);
    var h := s[0..12];
    assert h[0] == s[0] && h[1] == s[1] && h[2] == s[2] && h[3] == s[3];
  }
}
