/**
 The frames of the ARCS protocol that await an answer, around the application: a report that is sent
 waits for its transmission, is then in flight, and leaves when a response bears its number or its
 second timeout comes. Whether the pump can always go on depends on them.
 */
module ArcsFlight {
  import opened Words
  import opened ArcsFrame
  import opened ArcsApp

  /** A frame in flight; `retried` counts how often it went out. */
  datatype Shot = Shot(seqId: Short, cmd: Octet, retried: Octet)

  const RETRIED: Octet := 2

  /** The five commands of the protocol have a time to wait for their answer. */
  predicate HasTimeout(cmd: Octet) {
    1 <= cmd <= 5
  }

  /** The place of the first frame of a number; the end if there is none. */
  function Find(flight: seq<Shot>, seqId: Short): (i: nat)
    ensures i <= |flight|
    ensures i < |flight| ==> flight[i].seqId == seqId
  {
    if flight == [] || flight[0].seqId == seqId then 0 else 1 + Find(flight[1..], seqId)
  }

  function Without(flight: seq<Shot>, i: nat): seq<Shot> {
    if i < |flight| then flight[..i] + flight[i + 1..] else flight
  }

  /** The frames in flight after a message arrived. */
  function Landed(flight: seq<Shot>, m: Msg): seq<Shot> {
    if IsResponse(m) then Without(flight, Find(flight, m.seqId)) else flight
  }

  /** A timeout sends a frame once more, or gives it up. */
  function Expired(flight: seq<Shot>, i: nat): seq<Shot>
    requires i < |flight|
  {
    if flight[i].retried >= RETRIED then Without(flight, i)
    else flight[i := flight[i].(retried := flight[i].retried + 1)]
  }

  /** The application, the reports handed to the sending thread, and the frames in flight. */
  datatype Air = Air(ledger: Ledger, waiting: seq<Msg>, flight: seq<Shot>)

  datatype Event =
    | Arrival(m: Msg, found: Found)
    | Turn
    | Transmit(allotted: bool)
    | Expiry(i: nat)

  /** What the application sees of an event. */
  function Seen(s: Air, e: Event): seq<Label> {
    match e
    case Arrival(m, f) => [Message(m, f)]
    case Turn => [Tick]
    case Transmit(_) => []
    case Expiry(i) =>
      if i < |s.flight| then [Timeout(s.flight[i].seqId, s.flight[i].cmd, s.flight[i].retried >= RETRIED)] else []
  }

  /** The frames in flight after one more was given to the sending thread. */
  function Launched(flight: seq<Shot>, m: Msg, allotted: bool): seq<Shot> {
    if allotted then flight + [Shot(m.seqId, m.cmd, 1)] else flight
  }

  /** A frame that finds no memory is neither sent nor in flight. */
  function Transmitted(s: Air, allotted: bool): Air {
    if s.waiting == [] then s
    else s.(waiting := s.waiting[1..], flight := Launched(s.flight, s.waiting[0], allotted))
  }

  function AirStep(s: Air, e: Event): Air {
    match e
    case Arrival(m, f) => Air(Step(s.ledger, Message(m, f)), s.waiting, Landed(s.flight, m))
    case Turn =>
      var out := Pump(s.ledger.app).1;
      Air(Step(s.ledger, Tick), s.waiting + if out.Some? then [out.value] else [], s.flight)
    case Transmit(allotted) => Transmitted(s, allotted)
    case Expiry(i) =>
      if i < |s.flight| then
        Air(Step(s.ledger, Timeout(s.flight[i].seqId, s.flight[i].cmd, s.flight[i].retried >= RETRIED)), s.waiting,
          Expired(s.flight, i))
      else s
  }

  function AirRun(s: Air, es: seq<Event>): Air
    decreases |es|
  {
    if es == [] then s else AirRun(AirStep(s, es[0]), es[1..])
  }

  function AllSeen(s: Air, es: seq<Event>): seq<Label>
    decreases |es|
  {
    if es == [] then [] else Seen(s, es[0]) + AllSeen(AirStep(s, es[0]), es[1..])
  }

  function Ground(cap: nat): Air {
    Air(Start(cap), [], [])
  }

  /** Only reports wait, are sent or are in flight, and a frame in flight went out once or twice. */
  ghost predicate Sound(s: Air) {
    && (forall m :: m in s.ledger.app.queue ==> m.cmd == QT_QUEUE_ID)
    && (forall m :: m in s.waiting ==> m.cmd == QT_QUEUE_ID)
    && (forall t :: t in s.flight ==> t.cmd == QT_QUEUE_ID && 1 <= t.retried <= RETRIED)
  }

  lemma {:induction false} ReportsAreReports(rs: seq<Record>, last: Short)
    ensures forall m :: m in Reports(rs, last) ==> m.cmd == QT_QUEUE_ID
    decreases |rs|
  {
    if |rs| > PER_REPORT { ReportsAreReports(rs[PER_REPORT..], Next(last)); }
  }

  /** A message only adds reports to the queue. */
  lemma MessageAdds(a: App, m: Msg, f: Found)
    requires forall q :: q in a.queue ==> q.cmd == QT_QUEUE_ID
    ensures forall q :: q in OnMessage(a, m, f).0.queue ==> q.cmd == QT_QUEUE_ID
  {
    ReportsAreReports(f.endpoints, a.arcsSeq);
    hide Reports, Next, Flatten;
  }

  lemma StepIsSound(s: Air, e: Event)
    requires Sound(s)
    ensures Sound(AirStep(s, e))
  {
    if e.Arrival? { MessageAdds(s.ledger.app, e.m, e.found); }
    hide OnMessage, Asked, Find;
  }

  lemma SeenStep(s: Air, e: Event)
    requires Sound(s)
    ensures AirStep(s, e).ledger == Run(s.ledger, Seen(s, e))
  {
    var ls := Seen(s, e);
    hide Pump, OnMessage, Asked;
    if ls != [] {
      assert Run(s.ledger, ls) == Run(Step(s.ledger, ls[0]), ls[1..]);
    }
  }

  lemma {:induction false} RunAppend(s: Ledger, a: seq<Label>, b: seq<Label>)
    ensures Run(s, a + b) == Run(Run(s, a), b)
    decreases |a|
  {
    hide Step;
    if a == [] {
      assert a + b == b;
    } else {
      RunAppend(Step(s, a[0]), a[1..], b);
      assert (a + b)[1..] == a[1..] + b;
    }
  }

  /** Around the frames in flight the application makes one of its runs, so all that was said of every
      run holds here: of the timeouts, those of the frames in flight happen. */
  lemma {:induction false} FlightRefines(s: Air, es: seq<Event>)
    requires Sound(s)
    ensures Sound(AirRun(s, es)) && AirRun(s, es).ledger == Run(s.ledger, AllSeen(s, es))
    decreases |es|
  {
    hide AirStep, Seen, Sound, Step;
    if es != [] {
      StepIsSound(s, es[0]);
      SeenStep(s, es[0]);
      var s' := AirStep(s, es[0]);
      FlightRefines(s', es[1..]);
      RunAppend(s.ledger, Seen(s, es[0]), AllSeen(s', es[1..]));
    }
  }

  // ----- Whether the pump goes on -----

  /** The pump waits, and nothing is left that could time out. */
  predicate Stuck(s: Air) {
    s.ledger.app.flag && s.waiting == [] && s.flight == []
  }

  /** The one frame that the pump waits for is taken from flight by a response to another command,
      which leaves the flag of the pump up, or finds no memory when it is to be sent. */
  predicate Loses(s: Air, e: Event) {
    && s.ledger.app.flag && |s.waiting| + |s.flight| == 1
    && match e
       case Arrival(m, _) => IsResponse(m) && m.cmd != QT_QUEUE_ID && Find(s.flight, m.seqId) < |s.flight|
       case Transmit(allotted) => !allotted && s.waiting != []
       case _ => false
  }

  lemma StepSticks(s: Air, e: Event)
    requires Sound(s) && !Stuck(s)
    ensures Stuck(AirStep(s, e)) <==> Loses(s, e)
  {
    match e {
      case Arrival(m, f) =>
        FlagAfter(s.ledger.app, m, f);
        hide OnMessage, Asked, Find;
      case Turn =>
      case Transmit(_) =>
      case Expiry(i) =>
        if i < |s.flight| { assert s.flight[i] in s.flight; }
    }
  }

  ghost predicate NeverStuck(s: Air, es: seq<Event>)
    decreases |es|
  {
    !Stuck(s) && (es != [] ==> NeverStuck(AirStep(s, es[0]), es[1..]))
  }

  ghost predicate NeverLoses(s: Air, es: seq<Event>)
    decreases |es|
  {
    es != [] ==> !Loses(s, es[0]) && NeverLoses(AirStep(s, es[0]), es[1..])
  }

  lemma {:induction false} SticksExactly(s: Air, es: seq<Event>)
    requires Sound(s) && !Stuck(s)
    ensures NeverStuck(s, es) <==> NeverLoses(s, es)
    decreases |es|
  {
    hide AirStep, Sound, Stuck, Loses;
    if es != [] {
      StepSticks(s, es[0]);
      StepIsSound(s, es[0]);
      if !Loses(s, es[0]) { SticksExactly(AirStep(s, es[0]), es[1..]); }
    }
  }

  /** In every run from the start the pump is never stuck, if and only if it never loses the one frame
      it waits for. */
  lemma StuckExactly(cap: nat, es: seq<Event>)
    ensures NeverStuck(Ground(cap), es) <==> NeverLoses(Ground(cap), es)
  {
    SticksExactly(Ground(cap), es);
  }

  /** While a frame is in flight, two timeouts of the first one free the pump. */
  lemma TwoTimeoutsFree(s: Air)
    requires Sound(s) && s.flight != []
    ensures !AirRun(s, [Expiry(0), Expiry(0)]).ledger.app.flag
  {
    var s1 := AirStep(s, Expiry(0));
    var s2 := AirStep(s1, Expiry(0));
    assert s.flight[0] in s.flight;
    StepIsSound(s, Expiry(0));
    if s1.flight != [] { assert s1.flight[0] in s1.flight; }
    assert !s2.ledger.app.flag;
    hide AirStep;
    assert AirRun(s, [Expiry(0), Expiry(0)]) == AirRun(s1, [Expiry(0)]) == AirRun(s2, []);
  }

  predicate AnswersReport(e: Event) {
    e.Arrival? && IsResponse(e.m) && e.m.cmd == QT_QUEUE_ID
  }

  lemma StaysStuck(s: Air, e: Event)
    requires Stuck(s) && !AnswersReport(e)
    ensures Stuck(AirStep(s, e)) && AirStep(s, e).ledger.sent == s.ledger.sent
  {
    if e.Arrival? { FlagAfter(s.ledger.app, e.m, e.found); }
    hide OnMessage, Asked, Find;
  }

  /** A stuck pump sends nothing until the host answers a report it may never have got. */
  lemma {:induction false} StuckForEver(s: Air, es: seq<Event>)
    requires Stuck(s) && forall e :: e in es ==> !AnswersReport(e)
    ensures Stuck(AirRun(s, es)) && AirRun(s, es).ledger.sent == s.ledger.sent
    decreases |es|
  {
    hide AirStep, Stuck, AnswersReport;
    if es != [] {
      StaysStuck(s, es[0]);
      StuckForEver(AirStep(s, es[0]), es[1..]);
    }
  }

  /** It happens: a response to another command that bears the number of the report in flight. */
  lemma StrayAnswerSticks(cap: nat, rs: seq<Record>, stray: Msg)
    requires rs != [] && cap >= 1 && IsResponse(stray) && stray.cmd != QT_QUEUE_ID && stray.seqId == 1
    ensures Stuck(AirRun(Ground(cap),
            [Arrival(AskAll(1), Found(rs, None, Plenty)), Turn, Transmit(true),
              Arrival(stray, Found([], None, Plenty))]))
  {
    var q, last := Arrival(AskAll(1), Found(rs, None, Plenty)), Arrival(stray, Found([], None, Plenty));
    var s1 := AirStep(Ground(cap), q);
    FirstReport(cap, rs);
    hide Reports, AskAll;
    var s2 := AirStep(s1, Turn);
    var s3 := AirStep(s2, Transmit(true));
    var s4 := AirStep(s3, last);
    FlagAfter(s3.ledger.app, stray, Found([], None, Plenty));
    assert s2.ledger.app.flag && |s2.waiting| == 1 && s2.waiting[0].seqId == 1 && s2.flight == [];
    assert s3.flight == [Shot(1, s2.waiting[0].cmd, 1)] && s3.waiting == [];
    assert Stuck(s4);
    hide AirStep;
    RunFour(Ground(cap), q, Turn, Transmit(true), last);
  }

  lemma FirstReport(cap: nat, rs: seq<Record>)
    requires rs != [] && cap >= 1
    ensures var s := AirStep(Ground(cap), Arrival(AskAll(1), Found(rs, None, Plenty)));
            && s.waiting == [] && s.flight == [] && !s.ledger.app.flag
            && s.ledger.app.queue != [] && s.ledger.app.queue[0].seqId == 1
  {
    var ms := Reports(rs, 0);
    ReportsCount(rs, 0);
    ReportsInSequence(rs, 0);
    PlentyForAll(ms);
    hide Reports, Allotted;
    assert ms[0].seqId == (0 + 1 + 0) % 0x1_0000;
  }

  lemma RunFour(s: Air, e1: Event, e2: Event, e3: Event, e4: Event)
    ensures AirRun(s, [e1, e2, e3, e4]) == AirStep(AirStep(AirStep(AirStep(s, e1), e2), e3), e4)
  {
    hide AirStep;
    var s1 := AirStep(s, e1);
    var s2 := AirStep(s1, e2);
    var s3 := AirStep(s2, e3);
    assert AirRun(s, [e1, e2, e3, e4]) == AirRun(s1, [e2, e3, e4]) == AirRun(s2, [e3, e4]) == AirRun(s3, [e4]);
    assert AirRun(s3, [e4]) == AirRun(AirStep(s3, e4), []);
  }

  // ----- The list itself -----

  /** A response takes the first frame of its number from flight, wherever that is, and leaves the others in
      their order; with no frame of its number it leaves all. No other message takes any. */
  lemma LandedIs(flight: seq<Shot>, m: Msg, i: nat)
    requires i <= |flight| && forall j :: 0 <= j < i ==> flight[j].seqId != m.seqId
    requires i < |flight| ==> flight[i].seqId == m.seqId
    ensures Landed(flight, m) == if m.typ >= 0x80 && i < |flight| then flight[..i] + flight[i + 1..] else flight
  {
    FindIs(flight, m.seqId, i);
  }

  lemma {:induction false} FindIs(flight: seq<Shot>, seqId: Short, i: nat)
    requires i <= |flight| && forall j :: 0 <= j < i ==> flight[j].seqId != seqId
    requires i < |flight| ==> flight[i].seqId == seqId
    ensures Find(flight, seqId) == i
    decreases |flight|
  {
    if i > 0 {
      assert forall j :: 0 <= j < i - 1 ==> flight[1..][j] == flight[j + 1];
      FindIs(flight[1..], seqId, i - 1);
    }
  }

  /** A timeout touches one frame: it has gone out once more, or, after the second time, it is given up. */
  lemma ExpiredIs(flight: seq<Shot>, i: nat)
    requires i < |flight| && 1 <= flight[i].retried <= 2
    ensures var t := flight[i];
            Expired(flight, i) == if t.retried == 2 then flight[..i] + flight[i + 1..]
                                  else flight[..i] + [Shot(t.seqId, t.cmd, 2)] + flight[i + 1..]
  {}

  /** The sending thread takes the reports in the order they were handed to it; each is the last in flight
      then, having gone out once, or is lost for want of memory. */
  lemma TransmittedIs(s: Air, m: Msg, rest: seq<Msg>, allotted: bool)
    requires s.waiting == [m] + rest
    ensures Transmitted(s, allotted)
            == Air(s.ledger, rest, if allotted then s.flight + [Shot(m.seqId, m.cmd, 1)] else s.flight)
  {}
}
