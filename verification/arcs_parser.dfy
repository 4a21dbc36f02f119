/**
 The byte-at-a-time frame parser of the ARCS protocol. One call handles a message that has been
 complete for long enough, then drains the ring. The count of data octets is a local variable the
 source leaves uninitialised at every call, so each call starts it at a value of its own.
 */
module ArcsParser {
  import opened Words
  import opened ArcsFrame
  import opened UserTimer

  const ITV_MS: Word := 3
  const SM_MS: Word := 2

  /** The parser between two octets. */
  datatype Rx = Rx(msgLen: Word, msg: Msg, recvOver: bool, sm: Timer, itv: Timer)

  /** The octets of the current message that arrived so far fit what is yet to come. */
  ghost predicate Ok(r: Rx) {
    && (r.msgLen == 3 ==> r.msg.seqId < 0x100)
    && (r.msgLen == 6 ==> r.msg.dataLen < 0x100)
    && (r.msgLen >= 7 ==> r.msg.dataLen <= PRO_QT_MAX)
    && (r.recvOver && r.sm.running ==> r.msg.dataLen <= PRO_QT_MAX)
  }

  /** One octet; `d` is the running count of data octets, `ti` and `ts` the readings the two timers
      are started at. The store index `d` is below `dataLen`, hence below 256, whatever `d` was at
      the start of the call. */
  function Feed(r: Rx, d: Short, ch: Octet, ti: Word, ts: Word): (res: (Rx, Short))
    requires Ok(r)
    ensures Ok(res.0)
  {
    var q := r.(itv := Started(ITV_MS, ti), recvOver := false);
    var m := r.msg;
    if r.msgLen == 0 && ch == PROTOCAL_QT_TYPE then (q.(msg := m.(head := PROTOCAL_QT_TYPE), msgLen := 1), d)
    else if r.msgLen == 1 then (q.(msg := m.(typ := ch), msgLen := 2), d)
    else if r.msgLen == 2 then (q.(msg := m.(seqId := ch), msgLen := 3), d)
    else if r.msgLen == 3 then (q.(msg := m.(seqId := m.seqId + 0x100 * ch), msgLen := 4), d)
    else if r.msgLen == 4 then (q.(msg := m.(cmd := ch), msgLen := 5), d)
    else if r.msgLen == 5 then (q.(msg := m.(dataLen := ch), msgLen := 6), d)
    else if r.msgLen == 6 then
      var n := m.dataLen + 0x100 * ch;
      if n > PRO_QT_MAX then (q.(msg := m.(dataLen := n), msgLen := 0), d)
      else (q.(msg := m.(dataLen := n), msgLen := 7), 0)
    else if r.msgLen >= 7 then
      if d < m.dataLen then (q.(msg := m.(dataBuf := m.dataBuf[d := ch]), msgLen := (r.msgLen + 1) % WORD), d + 1)
      else if d == m.dataLen && ch == Check(m) then (q.(recvOver := true, sm := Started(SM_MS, ts)), d)
      else (q.(msgLen := 0), d)
    else (q, d)
  }

  /** The clock as one call reads it: reading n of the call. Any readings whatever. */
  type Readings = nat -> Word

  /** The octets of one drain, the first of them number `n` of the call. */
  function Drain(r: Rx, d: Short, bytes: seq<Octet>, clock: Readings, n: nat): (res: (Rx, Short))
    requires Ok(r)
    ensures Ok(res.0)
    decreases |bytes|
  {
    if bytes == [] then (r, d)
    else
      var (r', d') := Feed(r, d, bytes[0], clock(2 * n), clock(2 * n + 1));
      Drain(r', d', bytes[1..], clock, n + 1)
  }

  /** The head of a call: a complete message that was silent long enough is handed over. */
  function Deliver(r: Rx, clock: Readings): (res: (Rx, Option<Msg>))
    requires Ok(r)
    ensures Ok(res.0)
  {
    if !r.recvOver then (r, None)
    else
      var q := r.(itv := Started(ITV_MS, clock(0)), sm := Polled(r.sm, clock(1)));
      if q.sm.elapsed then (q.(sm := Stopped(q.sm), msgLen := 0, recvOver := false), Some(q.msg)) else (q, None)
  }

  function Finish(r: Rx, now: Word): (r': Rx)
    requires Ok(r)
    ensures Ok(r')
  {
    var q := r.(itv := Polled(r.itv, now));
    if q.itv.elapsed then q.(msgLen := 0) else q
  }

  datatype Call = Call(d0: Short, bytes: seq<Octet>, clock: Readings)

  function Handled(r: Rx, c: Call): (res: (Rx, Option<Msg>))
    requires Ok(r)
    ensures Ok(res.0)
  {
    var (r1, out) := Deliver(r, c.clock);
    var r2 := Drain(r1, c.d0, c.bytes, c.clock, 1).0;
    (Finish(r2, c.clock(2 * |c.bytes| + 2)), out)
  }

  /** After `ArcsCommon_initial` the flag is set, but no silence timer runs. */
  ghost predicate Initial(r: Rx) {
    r.msgLen == 0 && r.recvOver && !r.sm.running && !r.sm.elapsed && !r.itv.running && !r.itv.elapsed
  }

  // ----- Frames within one drain -----

  lemma {:induction false} DrainAppend(r: Rx, d: Short, a: seq<Octet>, b: seq<Octet>, clock: Readings, n: nat)
    requires Ok(r)
    ensures var (r1, d1) := Drain(r, d, a, clock, n);
            Drain(r, d, a + b, clock, n) == Drain(r1, d1, b, clock, n + |a|)
    decreases |a|
  {
    hide Feed, Ok;
    if a == [] {
      assert a + b == b;
    } else {
      var next := Feed(r, d, a[0], clock(2 * n), clock(2 * n + 1));
      DrainAppend(next.0, next.1, a[1..], b, clock, n + 1);
      assert (a + b)[1..] == a[1..] + b;
    }
  }

  lemma DrainOne(r: Rx, d: Short, a: seq<Octet>, ch: Octet, clock: Readings, n: nat)
    requires Ok(r)
    ensures var (r1, d1) := Drain(r, d, a, clock, n);
            var k := n + |a|;
            Drain(r, d, a + [ch], clock, n) == Feed(r1, d1, ch, clock(2 * k), clock(2 * k + 1))
  {
    var (r1, d1) := Drain(r, d, a, clock, n);
    DrainAppend(r, d, a, [ch], clock, n);
    var (r2, d2) := Feed(r1, d1, ch, clock(2 * (n + |a|)), clock(2 * (n + |a|) + 1));
    assert Drain(r2, d2, [ch][1..], clock, n + |a| + 1) == (r2, d2);
  }

  /** Octets before a head octet leave no trace in the message. */
  lemma {:induction false} JunkIsIgnored(r: Rx, d: Short, junk: seq<Octet>, clock: Readings, n: nat)
    requires Ok(r) && r.msgLen == 0 && PROTOCAL_QT_TYPE !in junk
    ensures var (r', d') := Drain(r, d, junk, clock, n);
            r'.msgLen == 0 && r'.msg == r.msg && d' == d && r'.recvOver == (r.recvOver && junk == [])
    decreases |junk|
  {
    if junk != [] {
      var (r', d') := Feed(r, d, junk[0], clock(2 * n), clock(2 * n + 1));
      JunkIsIgnored(r', d', junk[1..], clock, n + 1);
    }
  }

  /** What the parser knows after j octets of the frame of a message. */
  ghost predicate Gathered(r: Rx, d: Short, m: Msg, j: nat)
    requires Fits(m) && j <= PRO_COMMON_LEN + m.dataLen
  {
    && Ok(r) && r.msgLen == j
    && (j >= 1 ==> r.msg.head == m.head)
    && (j >= 2 ==> r.msg.typ == m.typ)
    && (j == 3 ==> r.msg.seqId == m.seqId % 0x100)
    && (j >= 4 ==> r.msg.seqId == m.seqId)
    && (j >= 5 ==> r.msg.cmd == m.cmd)
    && (j == 6 ==> r.msg.dataLen == m.dataLen % 0x100)
    && (j >= 7 ==> r.msg.dataLen == m.dataLen && d == j - 7 && r.msg.dataBuf[..j - 7] == m.dataBuf[..j - 7])
  }

  lemma FeedGathers(r: Rx, d: Short, m: Msg, j: nat, ti: Word, ts: Word)
    requires Fits(m) && m.head == PROTOCAL_QT_TYPE && j < PRO_COMMON_LEN + m.dataLen
    requires Gathered(r, d, m, j)
    ensures var (r', d') := Feed(r, d, Frame(m)[j], ti, ts);
            Gathered(r', d', m, j + 1) && !r'.recvOver
  {
    if j >= 7 {
      assert Frame(m)[j] == m.dataBuf[j - 7];
      assert r.msg.dataBuf[j - 7 := m.dataBuf[j - 7]][..j - 6] == r.msg.dataBuf[..j - 7] + [m.dataBuf[j - 7]];
    } else {
      assert Frame(m)[j] == Header(m)[j];
    }
  }

  lemma {:induction false} DrainGathers(r: Rx, d: Short, m: Msg, i: nat, j: nat, clock: Readings, n: nat)
    requires Fits(m) && m.head == PROTOCAL_QT_TYPE && i <= j <= PRO_COMMON_LEN + m.dataLen
    requires Gathered(r, d, m, i)
    ensures var (r', d') := Drain(r, d, Frame(m)[i..j], clock, n);
            Gathered(r', d', m, j) && (i < j ==> !r'.recvOver)
    decreases j - i
  {
    if i < j {
      var f := Frame(m)[i..j];
      var (r1, d1) := Feed(r, d, f[0], clock(2 * n), clock(2 * n + 1));
      FeedGathers(r, d, m, i, clock(2 * n), clock(2 * n + 1));
      DrainGathers(r1, d1, m, i + 1, j, clock, n + 1);
      assert f[1..] == Frame(m)[i + 1..j];
    }
  }

  /** The parser holds the message complete, and its silence timer has just been started. */
  ghost predicate Complete(r: Rx, m: Msg, at: Word)
    requires Fits(m)
  {
    Ok(r) && r.recvOver && r.sm == Started(SM_MS, at) && Fits(r.msg) && Same(r.msg, m)
  }

  lemma LastOctetCompletes(r: Rx, d: Short, m: Msg, ti: Word, ts: Word)
    requires Fits(m) && Gathered(r, d, m, PRO_COMMON_LEN + m.dataLen)
    ensures Complete(Feed(r, d, Check(m), ti, ts).0, m, ts)
  {
    assert Header(r.msg) == Header(m) && Data(r.msg) == Data(m);
    hide Check;
  }

  lemma LastApart(f: seq<Octet>, i: nat)
    requires i < |f|
    ensures f[i..] == f[i..|f| - 1] + [f[|f| - 1]]
  {}

  lemma FrameEnds(m: Msg)
    requires Fits(m)
    ensures PRO_COMMON_LEN == 7 && Frame(m)[7 + m.dataLen] == Check(m)
  {}

  /** From any point of a frame, the rest of the frame completes the message. */
  lemma RestCompletes(r: Rx, d: Short, m: Msg, i: nat, clock: Readings, n: nat)
    requires Fits(m) && m.head == PROTOCAL_QT_TYPE && i <= PRO_COMMON_LEN + m.dataLen
    requires Gathered(r, d, m, i)
    ensures Complete(Drain(r, d, Frame(m)[i..], clock, n).0, m, clock(2 * (n + PRO_COMMON_LEN + m.dataLen - i) + 1))
  {
    FrameEnds(m);
    hide *;
    var k := PRO_COMMON_LEN + m.dataLen;
    var most := Frame(m)[i..k];
    var mid := Drain(r, d, most, clock, n);
    DrainGathers(r, d, m, i, k, clock, n);
    LastOctetCompletes(mid.0, mid.1, m, clock(2 * (n + |most|)), clock(2 * (n + |most|) + 1));
    DrainOne(r, d, most, Check(m), clock, n);
    LastApart(Frame(m), i);
  }

  /** Any octets but the head octet, then one frame, in a single drain: the message is complete and
      is the encoded one, whatever the buffers and the uninitialised count held. */
  lemma FrameIsReceived(r: Rx, d: Short, junk: seq<Octet>, m: Msg, clock: Readings, n: nat)
    requires Ok(r) && r.msgLen == 0 && PROTOCAL_QT_TYPE !in junk
    requires Fits(m) && m.head == PROTOCAL_QT_TYPE
    ensures Complete(Drain(r, d, junk + Frame(m), clock, n).0, m,
            clock(2 * (n + |junk| + PRO_COMMON_LEN + m.dataLen) + 1))
  {
    var (r1, d1) := Drain(r, d, junk, clock, n);
    DrainAppend(r, d, junk, Frame(m), clock, n);
    JunkIsIgnored(r, d, junk, clock, n);
    assert Frame(m)[0..] == Frame(m);
    RestCompletes(r1, d1, m, 0, clock, n + |junk|);
  }
}
