/**
 The ARCS parser over runs of calls: what is handed over was complete, undisturbed and silent; and
 a frame that arrives alone is handed over.
 */
module ArcsRuns {
  import opened Words
  import opened ArcsFrame
  import opened UserTimer
  import opened ArcsParser

  /** What happened, oldest first: an octet that completed no message, an octet that passed the test
      of a message, and a message handed over; the last two with the clock reading. */
  datatype Event =
    | Octets
    | Completed(msg: Msg, check: Octet, at: Word)
    | Delivered(msg: Msg, at: Word)

  function DrainLog(r: Rx, d: Short, bytes: seq<Octet>, clock: Readings, n: nat): seq<Event>
    requires Ok(r)
    decreases |bytes|
  {
    if bytes == [] then []
    else
      var (r', d') := Feed(r, d, bytes[0], clock(2 * n), clock(2 * n + 1));
      [if r'.recvOver then Completed(r'.msg, bytes[0], clock(2 * n + 1)) else Octets]
      + DrainLog(r', d', bytes[1..], clock, n + 1)
  }

  function CallLog(r: Rx, c: Call): seq<Event>
    requires Ok(r)
  {
    var (r1, out) := Deliver(r, c.clock);
    (if out.Some? then [Delivered(out.value, c.clock(1))] else []) + DrainLog(r1, c.d0, c.bytes, c.clock, 1)
  }

  /** The parser and the log after some calls. */
  function Trace(r: Rx, log: seq<Event>, calls: seq<Call>): (res: (Rx, seq<Event>))
    requires Ok(r)
    ensures Ok(res.0)
    decreases |calls|
  {
    if calls == [] then (r, log) else Trace(Handled(r, calls[0]).0, log + CallLog(r, calls[0]), calls[1..])
  }

  /** A completed message passed its test. A delivered message is the one the event just before
      completed, more than the silence time ago: no octet came in between, and no completion is
      delivered twice. */
  ghost predicate SafeLog(log: seq<Event>) {
    forall i :: 0 <= i < |log| ==> SafeEvent(log, i)
  }

  ghost predicate SafeEvent(log: seq<Event>, i: nat)
    requires i < |log|
  {
    match log[i]
    case Octets => true
    case Completed(m, check, _) => Fits(m) && check == Check(m)
    case Delivered(m, at) =>
      0 < i && log[i - 1].Completed? && log[i - 1].msg == m && Since(log[i - 1].at, at) > SM_MS
  }

  /** A running silence timer of a complete message was started by the last event. */
  ghost predicate Armed(r: Rx, log: seq<Event>) {
    && !r.sm.elapsed
    && (r.recvOver && r.sm.running ==>
          log != [] && log[|log| - 1].Completed? && log[|log| - 1].msg == r.msg
          && r.sm.start == log[|log| - 1].at && r.sm.count == SM_MS)
  }

  lemma SafeSnoc(log: seq<Event>, e: Event)
    requires SafeLog(log) && SafeEvent(log + [e], |log|)
    ensures SafeLog(log + [e])
  {
    forall i | 0 <= i < |log + [e]| ensures SafeEvent(log + [e], i) {
      if i < |log| { assert SafeEvent(log, i); }
    }
  }

  lemma FeedIsSafe(r: Rx, d: Short, ch: Octet, ti: Word, ts: Word, log: seq<Event>)
    requires Ok(r) && SafeLog(log) && Armed(r, log)
    ensures var r' := Feed(r, d, ch, ti, ts).0;
            var log' := log + [if r'.recvOver then Completed(r'.msg, ch, ts) else Octets];
            SafeLog(log') && Armed(r', log')
  {
    var r' := Feed(r, d, ch, ti, ts).0;
    SafeSnoc(log, if r'.recvOver then Completed(r'.msg, ch, ts) else Octets);
  }

  lemma {:induction false} DrainIsSafe(r: Rx, d: Short, bytes: seq<Octet>, clock: Readings, n: nat, log: seq<Event>)
    requires Ok(r) && SafeLog(log) && Armed(r, log)
    ensures var log' := log + DrainLog(r, d, bytes, clock, n);
            SafeLog(log') && Armed(Drain(r, d, bytes, clock, n).0, log')
    decreases |bytes|
  {
    if bytes == [] {
      assert log + [] == log;
    } else {
      FeedIsSafe(r, d, bytes[0], clock(2 * n), clock(2 * n + 1), log);
      var next := Feed(r, d, bytes[0], clock(2 * n), clock(2 * n + 1));
      var e := if next.0.recvOver then Completed(next.0.msg, bytes[0], clock(2 * n + 1)) else Octets;
      var rest := DrainLog(next.0, next.1, bytes[1..], clock, n + 1);
      hide Feed, SafeLog, Armed, Ok;
      DrainIsSafe(next.0, next.1, bytes[1..], clock, n + 1, log + [e]);
      assert log + [e] + rest == log + ([e] + rest);
    }
  }

  lemma DeliverIsSafe(r: Rx, clock: Readings, log: seq<Event>)
    requires Ok(r) && SafeLog(log) && Armed(r, log)
    ensures var (r1, out) := Deliver(r, clock);
            var log' := log + if out.Some? then [Delivered(out.value, clock(1))] else [];
            SafeLog(log') && Armed(r1, log')
  {
    var (r1, out) := Deliver(r, clock);
    if out.Some? {
      SafeSnoc(log, Delivered(out.value, clock(1)));
    } else {
      assert log + [] == log;
    }
  }

  lemma CallIsSafe(r: Rx, c: Call, log: seq<Event>)
    requires Ok(r) && SafeLog(log) && Armed(r, log)
    ensures var log' := log + CallLog(r, c);
            SafeLog(log') && Armed(Handled(r, c).0, log')
  {
    hide SafeLog, Armed, Deliver, Drain, DrainLog, Finish, Ok;
    var d := Deliver(r, c.clock);
    var first := if d.1.Some? then [Delivered(d.1.value, c.clock(1))] else [];
    var rest := DrainLog(d.0, c.d0, c.bytes, c.clock, 1);
    DeliverIsSafe(r, c.clock, log);
    DrainIsSafe(d.0, c.d0, c.bytes, c.clock, 1, log + first);
    assert log + first + rest == log + (first + rest);
    FinishKeepsArmed(Drain(d.0, c.d0, c.bytes, c.clock, 1).0, c.clock(2 * |c.bytes| + 2), log + first + rest);
  }

  lemma FinishKeepsArmed(r: Rx, now: Word, log: seq<Event>)
    requires Ok(r) && Armed(r, log)
    ensures Armed(Finish(r, now), log)
  {}

  lemma {:induction false} TraceIsSafe(r: Rx, log: seq<Event>, calls: seq<Call>)
    requires Ok(r) && SafeLog(log) && Armed(r, log)
    ensures SafeLog(Trace(r, log, calls).1)
    decreases |calls|
  {
    if calls != [] {
      CallIsSafe(r, calls[0], log);
      TraceIsSafe(Handled(r, calls[0]).0, log + CallLog(r, calls[0]), calls[1..]);
    }
  }

  /** Every run from the initial state, whatever arrives, whatever the clock shows, and whatever the
      uninitialised count holds at each call. */
  lemma EveryRunIsSafe(r: Rx, calls: seq<Call>)
    requires Initial(r)
    ensures SafeLog(Trace(r, [], calls).1)
  {
    TraceIsSafe(r, [], calls);
  }

  // ----- A frame that arrives alone is handed over -----

  /** A call that neither brings octets nor comes late leaves a complete message as it is. */
  lemma QuietCall(r: Rx, c: Call, m: Msg, at: Word)
    requires Fits(m) && Complete(r, m, at) && c.bytes == [] && Since(at, c.clock(1)) <= SM_MS
    ensures Complete(Handled(r, c).0, m, at) && Handled(r, c).1 == None
  {}

  lemma {:induction false} QuietCalls(r: Rx, calls: seq<Call>, m: Msg, at: Word)
    requires Fits(m) && Complete(r, m, at)
    requires forall c :: c in calls ==> c.bytes == [] && Since(at, c.clock(1)) <= SM_MS
    ensures Complete(Trace(r, [], calls).0, m, at)
    ensures Trace(r, [], calls).1 == []
    decreases |calls|
  {
    if calls != [] {
      QuietCall(r, calls[0], m, at);
      assert CallLog(r, calls[0]) == [];
      QuietCalls(Handled(r, calls[0]).0, calls[1..], m, at);
    }
  }

  /** The first call after the silence time hands the message over, and only that call does. */
  lemma LateCall(r: Rx, c: Call, m: Msg, at: Word)
    requires Fits(m) && Complete(r, m, at) && Since(at, c.clock(1)) > SM_MS
    ensures Handled(r, c).1.Some? && Fits(Handled(r, c).1.value) && Same(Handled(r, c).1.value, m)
    ensures c.bytes == [] ==> !Handled(r, c).0.recvOver && Handled(r, c).0.msgLen == 0 && Handled(r, c).0.msg == r.msg
  {}

  /** Every quiet call restarts the interval, so that a message that waits to be handed over is not cut short
      by it as long as each call is itself short. */
  lemma QuietKeepsPlace(r: Rx, c: Call, m: Msg, at: Word)
    requires Fits(m) && Complete(r, m, at) && c.bytes == [] && Since(at, c.clock(1)) <= SM_MS
    ensures Handled(r, c).0.msgLen == if Since(c.clock(0), c.clock(2)) > ITV_MS then 0 else r.msgLen
  {}

  /** Junk without a head octet and one frame in one call; then calls with nothing to read before the
      silence time is over; then one after it: the last hands over the encoded message. */
  lemma FrameIsDelivered(r: Rx, c: Call, junk: seq<Octet>, m: Msg, quiet: seq<Call>, late: Call)
    requires Ok(r) && r.msgLen == 0
    requires PROTOCAL_QT_TYPE !in junk && Fits(m) && m.head == PROTOCAL_QT_TYPE && c.bytes == junk + Frame(m)
    requires var at := c.clock(2 * |c.bytes| + 1);
             && (forall q :: q in quiet ==> q.bytes == [] && Since(at, q.clock(1)) <= SM_MS)
             && Since(at, late.clock(1)) > SM_MS
    ensures var out := Handled(Trace(Handled(r, c).0, [], quiet).0, late).1;
            out.Some? && Fits(out.value) && Same(out.value, m)
  {
    var at := c.clock(2 * |c.bytes| + 1);
    FrameIsReceived(Deliver(r, c.clock).0, c.d0, junk, m, c.clock, 1);
    assert 1 + |junk| + PRO_COMMON_LEN + m.dataLen == |c.bytes|;
    assert Complete(Handled(r, c).0, m, at);
    QuietCalls(Handled(r, c).0, quiet, m, at);
    LateCall(Trace(Handled(r, c).0, [], quiet).0, late, m, at);
  }
}
