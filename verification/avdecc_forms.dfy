/**
 The controller's ACMP and AEM messages: what the form functions put into an Ethernet frame, what
 the check functions take for the awaited response, and when the one accepts the other.
 */
module AvdeccForms {
  import opened Words
  import opened Wire
  import opened Pdus
  import opened Aecpdus
  import opened EthFrame

  const AVTP_ETHERTYPE: Short := 0x22F0
  const SUBTYPE_AECP: Octet := 0x7B
  const SUBTYPE_ACMP: Octet := 0x7C
  /** The first octet of an ACMP frame: the subtype with the control bit. */
  const ACMP_FIRST: Octet := 0xFC
  const MULTICAST_ADP_ACMP: Eui48 := [0x91, 0xE0, 0xF0, 0x01, 0x00, 0x00]
  const CONNECT_RX_RESPONSE: Octet := 7
  const DISCONNECT_RX_RESPONSE: Octet := 9
  const GET_RX_STATE_RESPONSE: Octet := 11
  const AEM_RESPONSE: Octet := 1
  const ZeroEui64: Eui64 := [0, 0, 0, 0, 0, 0, 0, 0]

  /** The entity id a controller derives from its address. */
  function EntityOf(mac: Eui48): Eui64 {
    [mac[0], mac[1], mac[2], 0xFF, 0xFE, mac[3], mac[4], mac[5]]
  }

  // ----- ACMP -----

  /** The PDU `acmp_form_msg` fills in; the message type is a field of four bits. */
  function AcmpFilled(p: Acmpdu, src: Eui48, messageType: Short, seqId: Short, talker: Eui64, talkerUid: Short,
                      listener: Eui64, listenerUid: Short, connections: Short): Acmpdu
  {
    p.(header := Header(1, SUBTYPE_ACMP, 0, 0, messageType % 0x10, 0, ACMP_LEN - HEADER_LEN, p.header.id),
       controllerId := EntityOf(src), seqId := seqId, talkerId := talker, talkerUid := talkerUid,
       listenerId := listener, listenerUid := listenerUid, connections := connections)
  }

  function AcmpFormed(f: Frame, p: Acmpdu): Frame
    requires Sound(f)
  {
    f.(length := ACMP_LEN, dest := MULTICAST_ADP_ACMP, ethertype := AVTP_ETHERTYPE,
      payload := Put(f.payload, 0, AcmpOctets(p)))
  }

  /** `acmp_form_msg`. */
  method AcmpFormMsg(frame: TFrame, acmpdu: Acmpdu, messageType: Short, seqId: Short, talker: Eui64, talkerUid: Short,
                     listener: Eui64, listenerUid: Short, connections: Short)
    returns (r: int, p: Acmpdu)
    requires Sound(frame.Value())
    modifies frame, frame.payload
    ensures r == 0
    ensures p == AcmpFilled(acmpdu, old(frame.srcAddress), messageType, seqId, talker, talkerUid, listener,
            listenerUid, connections)
    ensures frame.Value() == AcmpFormed(old(frame.Value()), p)
  {
    hide AcmpOctets, Put;
    p := acmpdu.(header := Header(1, SUBTYPE_ACMP, 0, 0, messageType % 0x10, 0, ACMP_LEN - HEADER_LEN,
      acmpdu.header.id));
    var mac := frame.srcAddress;
    p := p.(controllerId := [mac[0], mac[1], mac[2], 0xFF, 0xFE, mac[3], mac[4], mac[5]]);
    p := p.(seqId := seqId, talkerId := talker, talkerUid := talkerUid);
    p := p.(listenerId := listener, listenerUid := listenerUid, connections := connections);
    var n := AcmpWrite(p, frame.payload, 0, MAX_PAYLOAD);
    frame.length := n;
    frame.destAddress := MULTICAST_ADP_ACMP;
    frame.ethertype := AVTP_ETHERTYPE;
    r := 0;
  }

  /** A null or all-zero id is not compared, nor is the number that goes with it. */
  predicate Agrees(wanted: Option<Eui64>, wantedNumber: Short, id: Eui64, number: Short) {
    wanted.None? || wanted.value == ZeroEui64 || (wanted.value == id && wantedNumber == number)
  }

  predicate AcmpMatches(p: Acmpdu, controller: Option<Eui64>, seqId: Short, listener: Option<Eui64>,
      listenerUid: Short) {
    && p.header.controlData in {CONNECT_RX_RESPONSE, DISCONNECT_RX_RESPONSE, GET_RX_STATE_RESPONSE}
    && Agrees(controller, seqId, p.controllerId, p.seqId)
    && Agrees(listener, listenerUid, p.listenerId, p.listenerUid)
  }

  /** What the check function accepts. */
  predicate AcmpAccepted(f: Frame, controller: Option<Eui64>, seqId: Short, listener: Option<Eui64>, listenerUid: Short)
    requires |f.payload| == MAX_PAYLOAD
  {
    && f.ethertype == AVTP_ETHERTYPE && f.dest == MULTICAST_ADP_ACMP && f.payload[0] == ACMP_FIRST
    && f.length >= ACMP_LEN
    && AcmpMatches(AcmpOf(f.payload[..ACMP_LEN]), controller, seqId, listener, listenerUid)
  }

  /** `acmp_check_listener`; the PDU it reads is returned. */
  method AcmpCheckListener(frame: TFrame, acmpdu: Acmpdu, controller: Option<Eui64>, seqId: Short,
                           listener: Option<Eui64>, listenerUid: Short)
    returns (r: int, p: Acmpdu)
    requires Sound(frame.Value())
    ensures r == if AcmpAccepted(frame.Value(), controller, seqId, listener, listenerUid) then 0 else -1
    ensures r == 0 ==> p == AcmpOf(frame.payload[..ACMP_LEN])
  {
    hide AcmpOf, HeaderOf;
    r, p := -1, acmpdu;
    if frame.ethertype == AVTP_ETHERTYPE && frame.destAddress == MULTICAST_ADP_ACMP && frame.payload[0] == ACMP_FIRST {
      var n;
      n, p := AcmpRead(acmpdu, frame.payload, 0, frame.length);
      assert frame.payload[0..0 + ACMP_LEN] == frame.payload[..][..ACMP_LEN];
      if n > 0 {
        if p.header.controlData == CONNECT_RX_RESPONSE || p.header.controlData == DISCONNECT_RX_RESPONSE
           || p.header.controlData == GET_RX_STATE_RESPONSE {
          if controller.Some? && controller.value != ZeroEui64 {
            if p.controllerId == controller.value {
              if p.seqId == seqId {
                r := 0;
              } else {
                r := -1;
              }
            } else {
              r := -1;
            }
          } else {
            r := 0;
          }
          if r == 0 {
            if listener.Some? && listener.value != ZeroEui64 {
              if p.listenerId == listener.value {
                if p.listenerUid == listenerUid {
                  r := 0;
                } else {
                  r := -1;
                }
              } else {
                r := -1;
              }
            } else {
              r := 0;
            }
          }
        }
      }
    }
  }

  /** Through the whole encoding and decoding: a formed frame is accepted exactly when it is one of the
      three receiver responses and the awaited controller, sequence, listener and unique id agree. */
  lemma AcmpFormedIsAccepted(f: Frame, p: Acmpdu, messageType: Short, seqId: Short, talker: Eui64, talkerUid: Short,
                             listener: Eui64, listenerUid: Short, connections: Short,
                             controller': Option<Eui64>, seqId': Short, listener': Option<Eui64>, listenerUid': Short)
    requires Sound(f)
    ensures var q := AcmpFilled(p, f.src, messageType, seqId, talker, talkerUid, listener, listenerUid, connections);
            AcmpAccepted(AcmpFormed(f, q), controller', seqId', listener', listenerUid')
            <==> messageType % 0x10 in {CONNECT_RX_RESPONSE, DISCONNECT_RX_RESPONSE, GET_RX_STATE_RESPONSE}
                 && Agrees(controller', seqId', EntityOf(f.src), seqId)
                 && Agrees(listener', listenerUid', listener, listenerUid)
  {
    var q := AcmpFilled(p, f.src, messageType, seqId, talker, talkerUid, listener, listenerUid, connections);
    var g := AcmpFormed(f, q);
    AcmpReadAfterWrite(q, f.payload, 0);
    assert g.payload[..ACMP_LEN] == Put(f.payload, 0, AcmpOctets(q))[0..0 + ACMP_LEN];
    FirstOctetIs(f.payload, q);
    assert Masked(q.header) == q.header;
    hide AcmpOf, AcmpOctets, Put, Masked, Agrees, EntityOf;
  }

  lemma FirstOctetIs(b: seq<Octet>, p: Acmpdu)
    requires ACMP_LEN <= |b| && p.header.cd == 1 && p.header.subtype == SUBTYPE_ACMP
    ensures Put(b, 0, AcmpOctets(p))[0] == ACMP_FIRST
  {
    assert AcmpOctets(p)[0] == HeaderOctets(p.header)[0];
  }

  // ----- AECP AEM -----

  function AemFilled(p: Aemdu, src: Eui48, messageType: Short, command: Short, seqId: Short, target: Eui64,
      payloadLength: nat): Aemdu {
    Aemdu(Aecpdu(Header(1, SUBTYPE_AECP, 0, 0, messageType % 0x100, 0,
                 (AEM_LEN - HEADER_LEN + payloadLength) % 0x1_0000, target), EntityOf(src), seqId),
          command)
  }

  /** The frame with its command payload, or without it when it does not fit. */
  function AemFormed(f: Frame, dest: Eui48, p: Aemdu, command: seq<Octet>): Frame
    requires Sound(f)
  {
    var g := f.(dest := dest, ethertype := AVTP_ETHERTYPE, length := AEM_LEN,
      payload := Put(f.payload, 0, AemOctets(p)));
    if AEM_LEN + |command| < MAX_PAYLOAD
      then g.(length := AEM_LEN + |command|, payload := Put(g.payload, AEM_LEN, command)) else g
  }

  /** `aecp_aem_form_msg`. */
  method AemFormMsg(frame: TFrame, aemdu: Aemdu, messageType: Short, command: Short, seqId: Short, dest: Eui48,
                    target: Eui64, payload: seq<Octet>)
    returns (r: int, p: Aemdu)
    requires Sound(frame.Value())
    modifies frame, frame.payload
    ensures r == if AEM_LEN + |payload| < MAX_PAYLOAD then 0 else 1
    ensures p == AemFilled(aemdu, old(frame.srcAddress), messageType, command, seqId, target, |payload|)
    ensures frame.Value() == AemFormed(old(frame.Value()), dest, p, payload)
  {
    hide AemOctets, Put;
    frame.destAddress := dest;
    frame.ethertype := AVTP_ETHERTYPE;
    var mac := frame.srcAddress;
    var h := aemdu.common.header.(cd := 1, subtype := SUBTYPE_AECP, version := 0, status := 0, sv := 0);
    h := h.(dataLength := (AEM_LEN - HEADER_LEN + |payload|) % 0x1_0000, controlData := messageType % 0x100);
    p := aemdu.(common := aemdu.common.(header := h,
      controllerId := [mac[0], mac[1], mac[2], 0xFF, 0xFE, mac[3], mac[4], mac[5]]));
    p := p.(commandType := command, common := p.common.(seqId := seqId, header := h.(id := target)));
    var n := AemWrite(p, frame.payload, 0, MAX_PAYLOAD);
    frame.length := n;
    if frame.length + |payload| < MAX_PAYLOAD {
      SetOctets(payload, frame.payload, frame.length);
      frame.length := frame.length + |payload|;
      r := 0;
    } else {
      r := 1;
    }
  }

  predicate AemMatches(p: Aemdu, controller: Eui64, target: Eui64, seqId: Short) {
    var h := p.common.header;
    && h.version == 0 && h.subtype == SUBTYPE_AECP && h.cd == 1 && h.controlData == AEM_RESPONSE
    && h.dataLength >= AEM_LEN - HEADER_LEN
    && p.common.controllerId == controller && h.id == target && p.common.seqId == seqId
  }

  predicate AemAccepted(f: Frame, controller: Eui64, target: Eui64, seqId: Short)
    requires |f.payload| == MAX_PAYLOAD
  {
    f.length >= AEM_LEN && AemMatches(AemOf(f.payload[..AEM_LEN]), controller, target, seqId)
  }

  /** `aecp_aem_check`. */
  method AemCheck(frame: TFrame, aem: Aemdu, controller: Eui64, target: Eui64, seqId: Short) returns (r: int, p: Aemdu)
    requires Sound(frame.Value())
    ensures r == if AemAccepted(frame.Value(), controller, target, seqId) then 0 else -1
    ensures r == 0 ==> p == AemOf(frame.payload[..AEM_LEN])
  {
    hide AemOf;
    r := -1;
    var pos;
    pos, p := AemRead(aem, frame.payload, 0, frame.length);
    assert frame.payload[0..0 + AEM_LEN] == frame.payload[..][..AEM_LEN];
    if pos > 0 {
      var h := p.common.header;
      if h.version == 0 && h.subtype == SUBTYPE_AECP && h.cd == 1 {
        if h.controlData == AEM_RESPONSE {
          if h.dataLength >= AEM_LEN - HEADER_LEN {
            if p.common.controllerId == controller {
              if h.id == target {
                if p.common.seqId == seqId {
                  r := 0;
                }
              }
            }
          }
        }
      }
    }
  }

  /** What the reader makes of a formed frame. */
  lemma AemDecoded(f: Frame, p: Aemdu, messageType: Short, command: Short, seqId: Short, dest: Eui48, target: Eui64,
      payload: seq<Octet>)
    requires Sound(f)
    ensures var q := AemFilled(p, f.src, messageType, command, seqId, target, |payload|);
            var g := AemFormed(f, dest, q, payload);
            && |g.payload| == MAX_PAYLOAD && g.length >= AEM_LEN
            && AemOf(g.payload[..AEM_LEN])
               == Aemdu(Aecpdu(Header(1, SUBTYPE_AECP, 0, 0, messageType % 0x10, 0,
                               (AEM_LEN - HEADER_LEN + |payload|) % 0x800, target), EntityOf(f.src), seqId), command)
  {
    var q := AemFilled(p, f.src, messageType, command, seqId, target, |payload|);
    var g := AemFormed(f, dest, q, payload);
    assert g.length >= AEM_LEN;
    AemStart(f, dest, q, payload);
    AemTrip(q, g.payload[..AEM_LEN]);
    AemHeader(q.common.header, messageType, |payload|, target);
    hide AemOf, AemOctets, Put, EntityOf, AemFormed, Masked;
  }

  /** A formed frame is accepted exactly when it is an AEM response and controller, target and sequence
      agree, whatever its command payload, unless the payload's length overflows the eleven bits of
      the header's length. */
  lemma AemFormedIsAccepted(f: Frame, p: Aemdu, messageType: Short, command: Short, seqId: Short, dest: Eui48,
                            target: Eui64, payload: seq<Octet>, controller': Eui64, target': Eui64, seqId': Short)
    requires Sound(f)
    ensures var q := AemFilled(p, f.src, messageType, command, seqId, target, |payload|);
            var g := AemFormed(f, dest, q, payload);
            |g.payload| == MAX_PAYLOAD &&
            (AemAccepted(g, controller', target', seqId')
             <==> messageType % 0x10 == AEM_RESPONSE
                  && (AEM_LEN - HEADER_LEN + |payload|) % 0x800 >= AEM_LEN - HEADER_LEN
                  && controller' == EntityOf(f.src) && target' == target && seqId' == seqId)
  {
    AemDecoded(f, p, messageType, command, seqId, dest, target, payload);
    hide AemOf, AemFormed, AemFilled, EntityOf;
  }

  /** A command payload that fits the frame never overflows the header's length. */
  lemma FittingLength(n: nat)
    requires AEM_LEN + n < MAX_PAYLOAD
    ensures (AEM_LEN - HEADER_LEN + n) % 0x800 >= AEM_LEN - HEADER_LEN
  {}

  /** What survives of the header that was filled in. */
  lemma AemHeader(h: Header, messageType: Short, n: nat, target: Eui64)
    requires h == Header(1, SUBTYPE_AECP, 0, 0, messageType % 0x100, 0, (AEM_LEN - HEADER_LEN + n) % 0x1_0000, target)
    ensures Masked(h) == h.(controlData := messageType % 0x10, dataLength := (AEM_LEN - HEADER_LEN + n) % 0x800)
  {
    LengthBits(AEM_LEN - HEADER_LEN + n);
    TypeBits(messageType);
  }

  lemma TypeBits(t: Short)
    ensures t % 0x100 % 0x10 == t % 0x10
  {
    assert t == 0x10 * (t / 0x10) + t % 0x10;
    assert t % 0x100 == 0x10 * (t / 0x10 % 0x10) + t % 0x10;
  }

  lemma LengthBits(n: nat)
    ensures n % 0x1_0000 % 0x800 == n % 0x800
  {
    assert n == 0x800 * (0x20 * (n / 0x1_0000)) + n % 0x1_0000;
  }

  /** The command payload lies behind the PDU. */
  lemma AemStart(f: Frame, dest: Eui48, p: Aemdu, command: seq<Octet>)
    requires Sound(f)
    ensures var g := AemFormed(f, dest, p, command);
            |g.payload| == MAX_PAYLOAD && g.payload[..AEM_LEN] == AemOctets(p)
  {
    hide AemOctets;
    PutIs(f.payload, 0, AemOctets(p));
    var b := Put(f.payload, 0, AemOctets(p));
    assert b[..AEM_LEN] == AemOctets(p);
    if AEM_LEN + |command| < MAX_PAYLOAD {
      PutIs(b, AEM_LEN, command);
      assert Put(b, AEM_LEN, command)[..AEM_LEN] == b[..AEM_LEN];
    }
  }
}
