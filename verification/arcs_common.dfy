/**
 The ARCS side as the program keeps it: the parser's fields and its ring, changed one octet at a
 time, and the application's queue of reports. Every method is tied to ArcsParser or ArcsApp.
 */
module ArcsCommon {
  import opened Words
  import opened ArcsFrame
  import opened ArcsParser
  import opened UserTimer
  import opened RingBuffer
  import opened ComQueue
  import opened ArcsApp
  import opened ArcsFlight

  class TArcsPro {
    const ringBuf: TCharRingBuf
    const smTimer: TUserTimer
    const itvTimer: TUserTimer
    const dataBuf: array<Octet>
    var head: Octet
    var typ: Octet
    var seqId: Short
    var cmd: Octet
    var dataLen: Short
    var msgLen: Word
    var recvOver: bool

    ghost predicate Apart()
      reads ringBuf, dataBuf
    {
      && dataBuf.Length == PRO_QT_MAX
      && smTimer != itvTimer
      && ringBuf.pBuf != dataBuf
    }

    function MsgPro(): Msg
      reads this, dataBuf
      requires dataBuf.Length == PRO_QT_MAX
    {
      Msg(head, typ, seqId, cmd, dataLen, dataBuf[..])
    }

    /** The parser the fields hold. */
    function Value(): Rx
      reads this, dataBuf, smTimer, itvTimer
      requires dataBuf.Length == PRO_QT_MAX
    {
      Rx(msgLen, MsgPro(), recvOver, smTimer.Value(), itvTimer.Value())
    }

    ghost predicate Valid()
      reads this, dataBuf, smTimer, itvTimer, ringBuf, ringBuf.pBuf
    {
      Apart() && ringBuf.Valid() && Ok(Value())
    }

    /** `ArcsCommon_initial`, with the size of the ring buffer and the buffer itself. */
    constructor (size: nat, buf: array<Octet>)
      requires buf.Length == size >= 1
      ensures Valid() && Initial(Value()) && ringBuf.items == []
      ensures ringBuf.pBuf == buf && fresh(ringBuf) && fresh(smTimer) && fresh(itvTimer) && fresh(dataBuf)
    {
      var ring := new TCharRingBuf(size, buf);
      var sm := new TUserTimer();
      var itv := new TUserTimer();
      ringBuf, smTimer, itvTimer := ring, sm, itv;
      dataBuf := new Octet[PRO_QT_MAX];
      head, typ, seqId, cmd, dataLen := 0, 0, 0, 0, 0;
      msgLen, recvOver := 0, true;
    }

    /** One turn of the drain: octet `ch`, with `d` data octets counted so far. */
    method TakeChar(d: Short, ch: Octet, ti: Word, ts: Word) returns (d': Short)
      requires Apart() && Ok(Value())
      modifies this, dataBuf, smTimer, itvTimer
      ensures (Value(), d') == Feed(old(Value()), d, ch, ti, ts)
    {
      d' := d;
      itvTimer.Start(ITV_MS, ti);
      recvOver := false;
      if msgLen == 0 && ch == PROTOCAL_QT_TYPE {
        head, msgLen := PROTOCAL_QT_TYPE, 1;
      } else if msgLen == 1 {
        typ, msgLen := ch, 2;
      } else if msgLen == 2 {
        seqId, msgLen := ch, 3;
      } else if msgLen == 3 {
        seqId, msgLen := seqId + 0x100 * ch, 4;
      } else if msgLen == 4 {
        cmd, msgLen := ch, 5;
      } else if msgLen == 5 {
        dataLen, msgLen := ch, 6;
      } else if msgLen == 6 {
        dataLen := dataLen + 0x100 * ch;
        if dataLen > PRO_QT_MAX {
          msgLen := 0;
        } else {
          msgLen, d' := 7, 0;
        }
      } else if msgLen >= 7 {
        d' := TakeData(d, ch, ts);
      }
    }

    /** The data octets and the check octet. */
    method TakeData(d: Short, ch: Octet, ts: Word) returns (d': Short)
      requires Apart() && msgLen >= 7 && dataLen <= PRO_QT_MAX && !recvOver
      modifies this, dataBuf, smTimer
      ensures var r, r' := old(Value()), Value();
              if d < r.msg.dataLen then
                r' == r.(msg := r.msg.(dataBuf := r.msg.dataBuf[d := ch]), msgLen := (r.msgLen + 1) % WORD)
                  && d' == d + 1
              else if d == r.msg.dataLen && ch == Check(r.msg)
                then r' == r.(recvOver := true, sm := Started(SM_MS, ts)) && d' == d
              else r' == r.(msgLen := 0) && d' == d
    {
      d' := d;
      if d < dataLen {
        dataBuf[d] := ch;
        assert dataBuf[..] == old(dataBuf[..])[d := ch];
        msgLen, d' := (msgLen + 1) % WORD, d + 1;
      } else if d == dataLen {
        var bad := CheckCrc(MsgPro(), ch);
        if bad == 0 {
          recvOver := true;
          smTimer.Start(SM_MS, ts);
        } else {
          msgLen := 0;
        }
      } else {
        msgLen := 0;
      }
    }

    /** `ArcsCommon_recvPacketPro`: what the port received goes to the ring while no registration is
        under way; otherwise, or when nothing was received, the port is closed. */
    method RecvPacketPro(reLen: int, bytes: seq<Octet>, idle: bool) returns (closed: bool)
      requires Valid() && (reLen > 0 ==> |bytes| == reLen)
      modifies ringBuf, ringBuf.pBuf
      ensures Valid() && Value() == old(Value()) && ringBuf.got == old(ringBuf.got)
      ensures closed <==> reLen <= 0 || !idle
      ensures var room := ringBuf.bufSize - |old(ringBuf.items)|;
              ringBuf.items == if closed then old(ringBuf.items)
                               else if reLen <= room then old(ringBuf.items) + bytes
                               else old(ringBuf.items) + bytes[..room]
    {
      hide Feed, Ok, Stored;
      closed := reLen <= 0 || !idle;
      if !closed {
        ringBuf.HoldsNoMore();
        ringBuf.SaveAll(bytes);
      }
    }

    /** The head of a call. */
    method HandOver(clock: Readings) returns (out: Option<Msg>)
      requires Apart() && Ok(Value())
      modifies this, smTimer, itvTimer
      ensures (Value(), out) == Deliver(old(Value()), clock)
    {
      out := None;
      if recvOver {
        itvTimer.Start(ITV_MS, clock(0));
        var over := smTimer.Timeout(clock(1));
        if over {
          out := Some(MsgPro());
          smTimer.Stop();
          msgLen := 0;
          recvOver := false;
        }
      }
    }

    /** `ArcsCommon_qtCharMsgPro`: `d0` is what the uninitialised count holds. The message handed to
        the application is returned. */
    method QtCharMsgPro(d0: Short, clock: Readings) returns (out: Option<Msg>)
      requires Valid()
      modifies this, dataBuf, smTimer, itvTimer, ringBuf
      ensures Valid() && ringBuf.items == [] && ringBuf.saved == old(ringBuf.saved)
      ensures (Value(), out) == Handled(old(Value()), Call(d0, old(ringBuf.items), clock))
    {
      hide Deliver, Drain, Ok, TCharRingBuf.Valid;
      out := HandOver(clock);
      var n := DrainRing(d0, clock);
      ghost var r2 := Value();
      var late := itvTimer.Timeout(clock(2 * n + 2));
      if late {
        msgLen := 0;
      }
      assert Value() == Finish(r2, clock(2 * n + 2));
    }

    /** The drain: it ends when the ring is empty. */
    method DrainRing(d0: Short, clock: Readings) returns (n: nat)
      requires Valid()
      modifies this, dataBuf, smTimer, itvTimer, ringBuf
      ensures Valid() && ringBuf.items == [] && ringBuf.saved == old(ringBuf.saved)
      ensures n == |old(ringBuf.items)|
      ensures Value() == Drain(old(Value()), d0, old(ringBuf.items), clock, 1).0
    {
      hide Feed, Ok, TCharRingBuf.Valid;
      var d := d0;
      n := 0;
      var ok, ch := ringBuf.GetChar(0);
      while ok
        invariant Valid() && ringBuf.saved == old(ringBuf.saved)
        invariant ok ==> n + 1 + |ringBuf.items| == |old(ringBuf.items)|
        invariant !ok ==> n == |old(ringBuf.items)| && ringBuf.items == []
        invariant Drain(Value(), d, if ok then [ch] + ringBuf.items else [], clock, n + 1)
                  == Drain(old(Value()), d0, old(ringBuf.items), clock, 1)
        decreases ok, |ringBuf.items|
      {
        ghost var rest := ringBuf.items;
        assert ([ch] + rest)[1..] == rest;
        d := TakeChar(d, ch, clock(2 * (n + 1)), clock(2 * (n + 1) + 1));
        n := n + 1;
        ok, ch := ringBuf.GetChar(ch);
      }
    }
  }

  class TArcsApp {
    const arcsQrQueue: TComQueue<Msg>
    var lastSeq: Short
    var arcsSeq: Short
    var qrFinishFlag: bool
    /** The frames of this protocol in the list of all frames in flight, in its order. */
    var flight: seq<Shot>

    ghost function Value(): App
      reads this, arcsQrQueue
      requires arcsQrQueue.size >= 1
    {
      App(arcsQrQueue.size - 1, lastSeq, arcsSeq, qrFinishFlag, arcsQrQueue.items)
    }

    ghost predicate Valid()
      reads this, arcsQrQueue, arcsQrQueue.buf
    {
      arcsQrQueue.Valid() && arcsQrQueue.size >= 1
    }

    constructor (maxNum: nat)
      ensures Valid() && Value() == Start(QueueSize(maxNum) - 1).app && flight == []
      ensures fresh(arcsQrQueue) && fresh(arcsQrQueue.buf)
    {
      var q := new TComQueue<Msg>(QueueSize(maxNum));
      arcsQrQueue := q;
      lastSeq, arcsSeq, qrFinishFlag, flight := 0, 0, false, [];
    }

    /** The copy of one record into the buffer of the report that is being filled. */
    method CopyRecord(buf: array<Octet>, r: Record, pos: nat)
      requires buf.Length == PRO_QT_MAX && pos + RECORD <= PRO_QT_MAX
      modifies buf
      ensures buf[..] == old(buf[..])[..pos] + r + old(buf[..])[pos + RECORD..]
    {
      for i := 0 to RECORD
        invariant forall j :: 0 <= j < PRO_QT_MAX ==> buf[j] == if pos <= j < pos + i then r[j - pos] else old(buf[j])
      {
        buf[pos + i] := r[i];
      }
    }

    method Clear(buf: array<Octet>)
      requires buf.Length == PRO_QT_MAX
      modifies buf
      ensures buf[..] == Zeros(PRO_QT_MAX)
    {
      for i := 0 to PRO_QT_MAX
        invariant forall j :: 0 <= j < i ==> buf[j] == 0
      {
        buf[i] := 0;
      }
    }

    /** A filled report is numbered and posted; without memory, or room in the queue, it is lost. */
    method PostReport(buf: array<Octet>, tNum: nat, allotted: bool)
      requires Valid() && buf.Length == PRO_QT_MAX && tNum <= PER_REPORT
      modifies this`arcsSeq, arcsQrQueue, arcsQrQueue.buf
      ensures Valid() && arcsSeq == Next(old(arcsSeq))
      ensures var m := Msg(PROTOCAL_QT_TYPE, PRO_REPORT_TYPE, arcsSeq, QT_QUEUE_ID, RECORD * tNum, buf[..]);
              arcsQrQueue.items == Queued(old(arcsQrQueue.items), arcsQrQueue.size - 1, m, allotted)
    {
      arcsSeq := (arcsSeq + 1) % 0x1_0000;
      var dataLen := RECORD * tNum;
      if dataLen + PRO_COMMON_LEN <= PRO_QT_MAX && allotted {
        var ok := arcsQrQueue.PostFifo(Msg(PROTOCAL_QT_TYPE, PRO_REPORT_TYPE, arcsSeq, QT_QUEUE_ID, dataLen, buf[..]));
      }
    }

    /** One turn of the loop over the endpoints: record `r` joins the report being filled, which is
        posted when it is full or the list ends. `batch` are the records in it so far. */
    method AddEndpoint(buf: array<Octet>, r: Record, tNum: nat, end: bool, allotted: bool, ghost batch: seq<Record>)
        returns (n: nat)
      requires Valid() && buf.Length == PRO_QT_MAX && tNum == |batch| < PER_REPORT
      requires tNum > 0 ==> buf[..] == Filled(batch)
      modifies this`arcsSeq, buf, arcsQrQueue, arcsQrQueue.buf
      ensures Valid()
      ensures tNum + 1 < PER_REPORT && !end ==>
                && n == tNum + 1 && buf[..] == Filled(batch + [r])
                && arcsQrQueue.items == old(arcsQrQueue.items) && arcsSeq == old(arcsSeq)
      ensures tNum + 1 == PER_REPORT || end ==>
                && n == 0 && arcsSeq == Next(old(arcsSeq))
                && arcsQrQueue.items == Queued(old(arcsQrQueue.items), arcsQrQueue.size - 1,
                   Report(batch + [r], arcsSeq), allotted)
    {
      if tNum == 0 {
        Clear(buf);
        FilledEmpty();
        assert batch == [];
      }
      FilledMore(batch, r);
      CopyRecord(buf, r, RECORD * tNum);
      n := tNum + 1;
      if n == PER_REPORT || end {
        PostReport(buf, n, allotted);
        n := 0;
      }
    }

    /** The answer to a query for all endpoints, and their reports. */
    method QueryAll(m: Msg, rs: seq<Record>, mem: Memory) returns (replies: seq<Msg>)
      requires Valid()
      modifies this`arcsSeq, arcsQrQueue, arcsQrQueue.buf
      ensures Valid()
      ensures (Value(), replies) == ArcsApp.QueryAll(old(Value()), m, rs, mem)
    {
      var count := arcsQrQueue.count;
      assert count == |arcsQrQueue.items|;
      if count > 0 {
        return [EmptyReply(PRO_RESP_MASK + HANDLING, m.seqId, QT_QUEUE_ID)];
      }
      replies := [EmptyReply(PRO_RESP_MASK, m.seqId, QT_QUEUE_ID)];
      PostEndpoints(rs, mem);
    }

    /** The loop over the endpoints. */
    method PostEndpoints(rs: seq<Record>, mem: Memory)
      requires Valid()
      modifies this`arcsSeq, arcsQrQueue, arcsQrQueue.buf
      ensures Valid()
      ensures Value() == Filed(old(Value()), Reports(rs, old(arcsSeq)), mem)
    {
      hide Progress, Filled, Report, Reports, Filed, Queued, TComQueue<Msg>.Valid;
      var buf := new Octet[PRO_QT_MAX];
      var tNum, i, n := 0, 0, 0;
      ghost var b, ms := 0, [];
      ProgressStarts(Value(), rs, mem);
      while i < |rs|
        invariant 0 <= b <= i <= |rs| && tNum == i - b < PER_REPORT && Valid() && (i == |rs| ==> tNum == 0)
        invariant tNum > 0 ==> buf[..] == Filled(rs[b..i])
        invariant n == |ms| && Progress(old(Value()), rs, mem, b, ms, Value())
      {
        var full := tNum + 1 == PER_REPORT || i + 1 == |rs|;
        ghost var was := Value();
        tNum := AddEndpoint(buf, rs[i], tNum, i + 1 == |rs|, mem(n), rs[b..i]);
        assert rs[b..i] + [rs[i]] == rs[b..i + 1];
        i := i + 1;
        if full {
          ProgressGoesOn(old(Value()), rs, mem, b, i, ms, was);
          ms := ms + [Report(rs[b..i], arcsSeq)];
          b, n := i, n + 1;
        }
      }
      ProgressEnds(old(Value()), rs, mem, ms, Value());
    }

    /** The answer to a query for one terminal, and its report. */
    method QueryOne(m: Msg, r: Option<Record>, mem: Memory) returns (replies: seq<Msg>)
      requires Valid()
      modifies this`arcsSeq, arcsQrQueue, arcsQrQueue.buf
      ensures Valid()
      ensures (Value(), replies) == ArcsApp.QueryOne(old(Value()), m, r, mem)
    {
      hide Report, Filled;
      var count := arcsQrQueue.count;
      assert count == |arcsQrQueue.items|;
      if count > 0 {
        return [EmptyReply(PRO_RESP_MASK + HANDLING, m.seqId, QT_QUEUE_ID)];
      }
      if r.None? {
        return [AddressReply(PRO_RESP_MASK + NO_ID, m)];
      }
      replies := [AddressReply(PRO_RESP_MASK, m)];
      var buf := new Octet[PRO_QT_MAX];
      var n := AddEndpoint(buf, r.value, 0, true, mem(0), []);
      assert [] + [r.value] == [r.value];
      FiledOne(old(Value()), Report([r.value], arcsSeq), mem);
    }

    /** `ArcsCmd_queryId`. */
    method QueryId(m: Msg, f: Found) returns (replies: seq<Msg>)
      requires Valid()
      modifies this`arcsSeq, arcsQrQueue, arcsQrQueue.buf
      ensures Valid()
      ensures (Value(), replies) == Query(old(Value()), m, f)
    {
      hide Valid, ArcsApp.QueryAll, ArcsApp.QueryOne;
      replies := [];
      if m.typ != PRO_QUERY_TYPE {
        return;
      }
      var low: int, high: int := m.dataBuf[0], m.dataBuf[1];
      var qAddr := low + 0x100 * high;
      if qAddr == 0xFFFF {
        replies := QueryAll(m, f.endpoints, f.memory);
      } else {
        replies := QueryOne(m, f.terminal, f.memory);
      }
    }

    /** `search_node_inflight_from_dblist`: a walk along the frames in flight. */
    method SearchFlight(seqId: Short) returns (i: nat)
      ensures i == Find(flight, seqId)
    {
      i := 0;
      while i < |flight| && flight[i].seqId != seqId
        invariant i <= |flight| && Find(flight, seqId) == i + Find(flight[i..], seqId)
      {
        assert flight[i..][1..] == flight[i + 1..];
        i := i + 1;
      }
    }

    /** `ArcsCommon_appDataPro`. */
    method AppDataPro(m: Msg, f: Found) returns (act: Action)
      requires Valid()
      modifies this, arcsQrQueue, arcsQrQueue.buf
      ensures Valid()
      ensures (Value(), act) == OnMessage(old(Value()), m, f)
      ensures flight == Landed(old(flight), m)
    {
      hide Query, Find;
      if m.typ >= PRO_RESP_MASK {
        if m.cmd == QT_QUEUE_ID && qrFinishFlag {
          qrFinishFlag := false;
        }
        var i := SearchFlight(m.seqId);
        if i < |flight| {
          flight := flight[..i] + flight[i + 1..];
        }
        act := Acknowledged(m.seqId);
      } else if lastSeq == m.seqId {
        act := AnsweredAgain(EmptyReply(PRO_RESP_MASK, m.seqId, m.cmd));
      } else {
        lastSeq := m.seqId;
        var replies := [];
        if m.cmd == QT_QUEUE_ID {
          replies := QueryId(m, f);
        }
        act := Executed(m.seqId, m.cmd, replies);
      }
    }

    /** `ArcsCommon_sendPacket`: a frame that is no response joins those in flight, if there is memory
        for it and a list to join. Without memory it is not sent; `portLen` is what the port returns
        for a frame it is given. Its command must have a time to wait. */
    method SendPacket(m: Msg, isResp: bool, allotted: bool, listed: bool, portLen: int) returns (r: int)
      requires Valid() && m.head == PROTOCAL_QT_TYPE && (isResp || HasTimeout(m.cmd))
      modifies this`flight
      ensures r == if isResp || allotted then portLen else -1
      ensures flight == if isResp || !listed then old(flight) else Launched(old(flight), m, allotted)
      ensures forall s: Air :: !isResp && listed && s.flight == old(flight) && s.waiting != [] && s.waiting[0] == m ==>
                                 flight == Transmitted(s, allotted).flight
    {
      if !isResp {
        if !allotted {
          return -1;
        }
        if listed {
          flight := flight + [Shot(m.seqId, m.cmd, 1)];
        }
      }
      r := portLen;
    }

    /** `ArcsCommon_qrPro`. */
    method QrPro() returns (sent: Option<Msg>)
      requires Valid()
      modifies this`qrFinishFlag, arcsQrQueue
      ensures Valid()
      ensures (Value(), sent) == Pump(old(Value()))
    {
      sent := None;
      if !qrFinishFlag {
        var ok, m := arcsQrQueue.PopFifo(EmptyReply(0, 0, 0));
        if ok {
          sent := Some(m);
          qrFinishFlag := true;
        }
      }
    }

    /** `ArcsCommon_packetTimeouts`, for the i-th frame in flight. */
    method PacketTimeout(i: nat)
      requires Valid() && i < |flight|
      modifies this`qrFinishFlag, this`flight
      ensures Valid()
      ensures Value() == OnTimeout(old(Value()), old(flight[i].cmd), old(flight[i].retried) >= RETRIED)
      ensures flight == Expired(old(flight), i)
    {
      var t := flight[i];
      if t.retried >= RETRIED {
        if t.cmd == QT_QUEUE_ID && qrFinishFlag {
          qrFinishFlag := false;
        }
        flight := flight[..i] + flight[i + 1..];
      } else {
        flight := flight[i := t.(retried := t.retried + 1)];
      }
    }
  }

  /** The reports of the first b endpoints have been numbered and posted, and the others are to come. */
  ghost predicate Progress(a0: App, rs: seq<Record>, mem: Memory, b: nat, ms: seq<Msg>, a: App) {
    b <= |rs| && a == Filed(a0, ms, mem) && ms + Reports(rs[b..], a.arcsSeq) == Reports(rs, a0.arcsSeq)
  }

  lemma ProgressStarts(a: App, rs: seq<Record>, mem: Memory)
    ensures Progress(a, rs, mem, 0, [], a)
  {
    assert Posted(a.queue, a.cap, []) == a.queue;
    assert Filed(a, [], mem) == a;
    hide *;
    ProgressIs(a, rs, mem, 0, [], a);
    assert rs[0..] == rs;
  }

  lemma ProgressIs(a0: App, rs: seq<Record>, mem: Memory, b: nat, ms: seq<Msg>, a: App)
    requires b <= |rs|
    ensures Progress(a0, rs, mem, b, ms, a)
            <==> a == Filed(a0, ms, mem) && ms + Reports(rs[b..], a.arcsSeq) == Reports(rs, a0.arcsSeq)
  {
    hide Reports, Filed;
  }

  lemma ProgressEnds(a0: App, rs: seq<Record>, mem: Memory, ms: seq<Msg>, a: App)
    requires Progress(a0, rs, mem, |rs|, ms, a)
    ensures a == Filed(a0, Reports(rs, a0.arcsSeq), mem)
  {
    hide *;
    ProgressIs(a0, rs, mem, |rs|, ms, a);
    ReportsNone(a.arcsSeq);
    assert rs[|rs|..] == [];
    assert ms + [] == ms;
  }

  lemma FiledOne(a: App, m: Msg, mem: Memory)
    ensures Filed(a, [m], mem) == a.(queue := Queued(a.queue, a.cap, m, mem(0)), arcsSeq := Next(a.arcsSeq))
  {
    assert Filed(a, [], mem) == a;
    FiledOneMore(a, [], m, mem);
    assert [] + [m] == [m];
  }

  lemma ReportsNone(last: Short)
    ensures Reports([], last) == []
  {}

  /** One more report, with the endpoints from b up to i. */
  lemma ProgressGoesOn(a0: App, rs: seq<Record>, mem: Memory, b: nat, i: nat, ms: seq<Msg>, a: App)
    requires Progress(a0, rs, mem, b, ms, a)
    requires b < i <= |rs| && i - b <= PER_REPORT && (i - b == PER_REPORT || i == |rs|)
    ensures var m := Report(rs[b..i], Next(a.arcsSeq));
            Progress(a0, rs, mem, i, ms + [m],
              a.(queue := Queued(a.queue, a.cap, m, mem(|ms|)), arcsSeq := Next(a.arcsSeq)))
  {
    hide *;
    var m, seqId := Report(rs[b..i], Next(a.arcsSeq)), Next(a.arcsSeq);
    ProgressIs(a0, rs, mem, b, ms, a);
    FiledOneMore(a0, ms, m, mem);
    ReportsStep(rs[b..], a.arcsSeq, i - b);
    assert rs[b..][..i - b] == rs[b..i] && rs[b..][i - b..] == rs[i..];
    assert ms + ([m] + Reports(rs[i..], seqId)) == ms + [m] + Reports(rs[i..], seqId);
    ProgressIs(a0, rs, mem, i, ms + [m], Filed(a0, ms + [m], mem));
  }

  /** A buffer with the records of the report that is being filled, and zeros. */
  function Filled(batch: seq<Record>): (b: seq<Octet>)
    requires |batch| <= PER_REPORT
    ensures |b| == PRO_QT_MAX
  {
    Flatten(batch) + Zeros(PRO_QT_MAX - RECORD * |batch|)
  }

  lemma FilledEmpty()
    ensures Filled([]) == Zeros(PRO_QT_MAX)
  {
    assert Flatten([]) == [];
  }

  lemma FilledMore(batch: seq<Record>, r: Record)
    requires |batch| < PER_REPORT
    ensures var b, n := Filled(batch), RECORD * |batch|;
            Filled(batch + [r]) == b[..n] + r + b[n + RECORD..]
    ensures forall seqId ::
              Report(batch + [r], seqId)
              == Msg(PROTOCAL_QT_TYPE, PRO_REPORT_TYPE, seqId, QT_QUEUE_ID, RECORD * (|batch| + 1), Filled(batch + [r]))
  {
    assert (batch + [r])[..|batch|] == batch;
  }

  lemma ReportsStep(rs: seq<Record>, last: Short, k: nat)
    requires 0 < k <= |rs| && k <= PER_REPORT && (k == PER_REPORT || k == |rs|)
    ensures Reports(rs, last) == [Report(rs[..k], Next(last))] + Reports(rs[k..], Next(last))
  {
    hide Report;
    if k == |rs| { assert rs[..k] == rs; }
  }

  /** `ArcsCommon_process`: the parser, the message it hands over, and the pump. */
  method Process(p: TArcsPro, a: TArcsApp, d0: Short, clock: Readings, f: Found)
      returns (out: Option<Msg>, sent: Option<Msg>)
    requires p.Valid() && a.Valid()
    modifies p, p.dataBuf, p.smTimer, p.itvTimer, p.ringBuf, a, a.arcsQrQueue, a.arcsQrQueue.buf
    ensures p.Valid() && a.Valid()
    ensures (p.Value(), out) == Handled(old(p.Value()), Call(d0, old(p.ringBuf.items), clock))
    ensures var a1 := if out.Some? then OnMessage(old(a.Value()), out.value, f).0 else old(a.Value());
            (a.Value(), sent) == Pump(a1)
    ensures a.flight == if out.Some? then Landed(old(a.flight), out.value) else old(a.flight)
  {
    hide Handled, OnMessage, Pump, Landed;
    out := p.QtCharMsgPro(d0, clock);
    if out.Some? {
      var act := a.AppDataPro(out.value, f);
    }
    sent := a.QrPro();
  }
}
