/**
 The application side of the ARCS protocol as a transition system: duplicate suppression, the
 query that reports every endpoint three to a report, the bounded queue of reports, and the pump
 that sends one report at a time.
 */
module ArcsApp {
  import opened Words
  import opened ArcsFrame

  const PRO_RESP_MASK: Octet := 0x80
  const PRO_QUERY_TYPE: Octet := 0x00
  const PRO_REPORT_TYPE: Octet := 0x40
  const HANDLING: Octet := 0x02
  const NO_ID: Octet := 0x01
  const QT_QUEUE_ID: Octet := 0x01

  /** What one endpoint contributes to a report: a packed structure of 78 octets. */
  const RECORD: nat := 78
  const PER_REPORT: nat := 3

  type Record = r: seq<Octet> | |r| == RECORD witness seq(RECORD, _ => 0)

  // ----- Reports -----

  function Flatten(rs: seq<Record>): (s: seq<Octet>)
    ensures |s| == RECORD * |rs|
  {
    if rs == [] then [] else Flatten(rs[..|rs| - 1]) + rs[|rs| - 1]
  }

  function Next(seqId: Short): Short {
    (seqId + 1) % 0x1_0000
  }

  function Report(rs: seq<Record>, seqId: Short): (m: Msg)
    requires |rs| <= PER_REPORT
    ensures Fits(m)
  {
    Msg(PROTOCAL_QT_TYPE, PRO_REPORT_TYPE, seqId, QT_QUEUE_ID, RECORD * |rs|,
      Flatten(rs) + Zeros(PRO_QT_MAX - RECORD * |rs|))
  }

  /** The reports of a list of endpoints, numbered on from the last number used. */
  function Reports(rs: seq<Record>, last: Short): seq<Msg>
    decreases |rs|
  {
    if rs == [] then []
    else if |rs| <= PER_REPORT then [Report(rs, Next(last))]
    else [Report(rs[..PER_REPORT], Next(last))] + Reports(rs[PER_REPORT..], Next(last))
  }

  function Payload(ms: seq<Msg>): seq<Octet>
    requires forall m :: m in ms ==> Fits(m)
  {
    if ms == [] then [] else Data(ms[0]) + Payload(ms[1..])
  }

  lemma {:induction false} FlattenAppend(a: seq<Record>, b: seq<Record>)
    ensures Flatten(a + b) == Flatten(a) + Flatten(b)
    decreases |b|
  {
    if b == [] {
      assert a + b == a;
    } else {
      var b', x := b[..|b| - 1], b[|b| - 1];
      FlattenAppend(a, b');
      assert (a + b)[..|a + b| - 1] == a + b' && (a + b)[|a + b| - 1] == x;
      assert Flatten(a + b) == Flatten(a + b') + x;
      assert Flatten(b) == Flatten(b') + x;
    }
  }

  lemma ReportData(rs: seq<Record>, seqId: Short)
    requires |rs| <= PER_REPORT
    ensures Data(Report(rs, seqId)) == Flatten(rs)
  {}

  /** A third as many reports as endpoints, rounded up; each fits the buffer with its header, and the
      octet of length. */
  lemma {:induction false} ReportsCount(rs: seq<Record>, last: Short)
    ensures |Reports(rs, last)| == (|rs| + PER_REPORT - 1) / PER_REPORT
    ensures forall m :: m in Reports(rs, last) ==> Fits(m) && PRO_COMMON_LEN + m.dataLen <= 0xFF
    decreases |rs|
  {
    if |rs| > PER_REPORT { ReportsCount(rs[PER_REPORT..], Next(last)); }
    hide Flatten;
  }

  /** The payloads together are the records, in list order. */
  lemma {:induction false} ReportsCarryTheList(rs: seq<Record>, last: Short)
    ensures (forall m :: m in Reports(rs, last) ==> Fits(m)) && Payload(Reports(rs, last)) == Flatten(rs)
    decreases |rs|
  {
    ReportsCount(rs, last);
    var ms := Reports(rs, last);
    if rs == [] {
    } else if |rs| <= PER_REPORT {
      hide Flatten, Report;
      ReportData(rs, Next(last));
      assert Payload([]) == [];
      assert ms[1..] == [];
    } else {
      hide Flatten, Report;
      var first := rs[..PER_REPORT];
      ReportsCarryTheList(rs[PER_REPORT..], Next(last));
      ReportData(first, Next(last));
      FlattenAppend(first, rs[PER_REPORT..]);
      assert first + rs[PER_REPORT..] == rs;
      assert ms[1..] == Reports(rs[PER_REPORT..], Next(last));
    }
  }

  lemma NextStep(last: Short, i: nat)
    ensures (Next(last) + 1 + i) % 0x1_0000 == (last + 1 + (i + 1)) % 0x1_0000
  {}

  /** Reports numbered on from `last`, all but the last of them full. */
  ghost predicate InSequence(ms: seq<Msg>, last: Short) {
    && (forall i :: 0 <= i < |ms| - 1 ==> ms[i].dataLen == RECORD * PER_REPORT)
    && (forall i :: 0 <= i < |ms| ==> ms[i].seqId == (last + 1 + i) % 0x1_0000)
  }

  lemma InSequenceCons(m: Msg, ms: seq<Msg>, last: Short)
    requires InSequence(ms, Next(last)) && m.seqId == Next(last) && m.dataLen == RECORD * PER_REPORT
    ensures InSequence([m] + ms, last)
  {
    var all := [m] + ms;
    forall i | 0 < i < |all| ensures all[i].seqId == (last + 1 + i) % 0x1_0000 {
      var j := i - 1;
      assert all[i] == ms[j] && ms[j].seqId == (Next(last) + 1 + j) % 0x1_0000;
      NextStep(last, j);
    }
  }

  /** All reports but the last hold three records, and their numbers follow one another modulo 2^16. */
  lemma {:induction false} ReportsInSequence(rs: seq<Record>, last: Short)
    ensures InSequence(Reports(rs, last), last)
    decreases |rs|
  {
    if |rs| > PER_REPORT {
      ReportsInSequence(rs[PER_REPORT..], Next(last));
      InSequenceCons(Report(rs[..PER_REPORT], Next(last)), Reports(rs[PER_REPORT..], Next(last)), last);
    }
  }

  // ----- The size of the queue -----

  /** The size the source computes for a maximal number of terminals. */
  function QueueSize(maxNum: nat): nat {
    (maxNum + (3 - maxNum % 3)) / 3 + 1
  }

  /** One slot stays unused; what is left holds the reports of n endpoints exactly up to this bound. */
  lemma RoomForReports(maxNum: nat, n: nat)
    ensures (n + 2) / 3 <= QueueSize(maxNum) - 1 <==> n <= MostEndpoints(maxNum)
  {}

  /** The comment beside the formula speaks of three further host units. There is room for them only
      when the maximum is a multiple of three, which 1024 is not. */
  lemma RoomForHostUnits(maxNum: nat)
    ensures (maxNum + 3 + 2) / 3 <= QueueSize(maxNum) - 1 <==> maxNum % 3 == 0
  {}

  // ----- Steps -----

  /** `l_lastSeq`, `l_arcsSeq`, `qrFinishFlag` and the report queue. */
  datatype App = App(cap: nat, lastSeq: Short, arcsSeq: Short, flag: bool, queue: seq<Msg>)

  /** Whether there is memory for the n-th report of a query. */
  type Memory = nat -> bool

  const Plenty: Memory := (_: nat) => true

  /** What a query meets: the record of every endpoint in list order, the record of the terminal
      asked for, if there is one, and memory for its reports. */
  datatype Found = Found(endpoints: seq<Record>, terminal: Option<Record>, memory: Memory)

  datatype Action =
    | Acknowledged(seqId: Short)
    | AnsweredAgain(reply: Msg)
    | Executed(seqId: Short, cmd: Octet, replies: seq<Msg>)

  predicate IsResponse(m: Msg) {
    m.typ >= PRO_RESP_MASK
  }

  function EmptyReply(typ: Octet, seqId: Short, cmd: Octet): Msg {
    Msg(PROTOCAL_QT_TYPE, typ, seqId, cmd, 0, Zeros(PRO_QT_MAX))
  }

  function AddressReply(typ: Octet, m: Msg): Msg
  {
    Msg(PROTOCAL_QT_TYPE, typ, m.seqId, QT_QUEUE_ID, 2, m.dataBuf[..2] + Zeros(PRO_QT_MAX - 2))
  }

  function Min(a: int, b: int): int {
    if a <= b then a else b
  }

  /** Posts to a bounded queue, one after another: what does not fit is dropped. */
  function Posted(q: seq<Msg>, cap: nat, ms: seq<Msg>): (q': seq<Msg>)
    ensures q <= q'
  {
    if |q| >= cap then q else q + ms[..Min(|ms|, cap - |q|)]
  }

  lemma PostedOneMore(q: seq<Msg>, cap: nat, ms: seq<Msg>, m: Msg)
    ensures var q' := Posted(q, cap, ms);
            Posted(q, cap, ms + [m]) == if |q'| < cap then q' + [m] else q'
  {
    if |q| + |ms| < cap {
      assert (ms + [m])[..|ms| + 1] == ms + [m] && ms[..|ms|] == ms;
    } else if |q| < cap {
      assert (ms + [m])[..cap - |q|] == ms[..cap - |q|];
    }
  }

  /** The reports that find memory. */
  function Allotted(ms: seq<Msg>, mem: Memory): (r: seq<Msg>)
    ensures |r| <= |ms|
    ensures forall m :: m in r ==> m in ms
  {
    if ms == [] then []
    else Allotted(ms[..|ms| - 1], mem) + if mem(|ms| - 1) then [ms[|ms| - 1]] else []
  }

  lemma AllottedOneMore(ms: seq<Msg>, m: Msg, mem: Memory)
    ensures Allotted(ms + [m], mem) == Allotted(ms, mem) + if mem(|ms|) then [m] else []
  {
    assert (ms + [m])[..|ms|] == ms;
  }

  lemma {:induction false} PlentyForAll(ms: seq<Msg>)
    ensures Allotted(ms, Plenty) == ms
  {
    if ms != [] { PlentyForAll(ms[..|ms| - 1]); }
  }

  /** One post of a report for which there is memory or not. */
  function Queued(q: seq<Msg>, cap: nat, m: Msg, allotted: bool): seq<Msg> {
    if allotted && |q| < cap then q + [m] else q
  }

  /** The state after some reports were numbered and posted: without memory a report is lost, and its
      number is used all the same. */
  function Filed(a: App, ms: seq<Msg>, mem: Memory): App {
    a.(queue := Posted(a.queue, a.cap, Allotted(ms, mem)), arcsSeq := (a.arcsSeq + |ms|) % 0x1_0000)
  }

  lemma FiledOneMore(a: App, ms: seq<Msg>, m: Msg, mem: Memory)
    ensures var a' := Filed(a, ms, mem);
            Filed(a, ms + [m], mem)
            == a'.(queue := Queued(a'.queue, a'.cap, m, mem(|ms|)), arcsSeq := Next(a'.arcsSeq))
  {
    AllottedOneMore(ms, m, mem);
    PostedOneMore(a.queue, a.cap, Allotted(ms, mem), m);
    assert Allotted(ms, mem) + [] == Allotted(ms, mem);
    NextIs(a.arcsSeq, |ms|);
    hide Posted, Next, Allotted;
  }

  lemma NextIs(last: Short, n: nat)
    ensures Next((last + n) % 0x1_0000) == (last + (n + 1)) % 0x1_0000
  {}

  function QueryAll(a: App, m: Msg, rs: seq<Record>, mem: Memory): (App, seq<Msg>) {
    if a.queue != [] then (a, [EmptyReply(PRO_RESP_MASK + HANDLING, m.seqId, QT_QUEUE_ID)])
    else
      (Filed(a, Reports(rs, a.arcsSeq), mem), [EmptyReply(PRO_RESP_MASK, m.seqId, QT_QUEUE_ID)])
  }

  function QueryOne(a: App, m: Msg, r: Option<Record>, mem: Memory): (App, seq<Msg>)
  {
    if a.queue != [] then (a, [EmptyReply(PRO_RESP_MASK + HANDLING, m.seqId, QT_QUEUE_ID)])
    else if r.None? then (a, [AddressReply(PRO_RESP_MASK + NO_ID, m)])
    else
      (Filed(a, [Report([r.value], Next(a.arcsSeq))], mem), [AddressReply(PRO_RESP_MASK, m)])
  }

  predicate AsksForAll(m: Msg)
  {
    m.dataBuf[0] == 0xFF && m.dataBuf[1] == 0xFF
  }

  /** `ArcsCmd_queryId`. */
  function Query(a: App, m: Msg, f: Found): (App, seq<Msg>)
  {
    if m.typ != PRO_QUERY_TYPE then (a, [])
    else if AsksForAll(m) then QueryAll(a, m, f.endpoints, f.memory)
    else QueryOne(a, m, f.terminal, f.memory)
  }

  /** `ArcsCommon_appDataPro`: a message handed over by the parser. */
  function OnMessage(a: App, m: Msg, f: Found): (App, Action)
  {
    if IsResponse(m) then (a.(flag := a.flag && m.cmd != QT_QUEUE_ID), Acknowledged(m.seqId))
    else if a.lastSeq == m.seqId then (a, AnsweredAgain(EmptyReply(PRO_RESP_MASK, m.seqId, m.cmd)))
    else
      var a' := a.(lastSeq := m.seqId);
      if m.cmd == QT_QUEUE_ID then
        var (q, replies) := Query(a', m, f);
        (q, Executed(m.seqId, m.cmd, replies))
      else (a', Executed(m.seqId, m.cmd, []))
  }

  /** `ArcsCommon_qrPro`: the report sent, if any. */
  function Pump(a: App): (App, Option<Msg>) {
    if !a.flag && a.queue != [] then (a.(flag := true, queue := a.queue[1..]), Some(a.queue[0])) else (a, None)
  }

  /** A timeout of an unanswered frame; only the last one gives the report up. */
  function OnTimeout(a: App, cmd: Octet, last: bool): App {
    a.(flag := a.flag && !(last && cmd == QT_QUEUE_ID))
  }

  /** What drives the application. A timeout is that of the frame with the given number. */
  datatype Label =
    | Message(m: Msg, found: Found)
    | Tick
    | Timeout(seqId: Short, cmd: Octet, last: bool)

  /** The application state, the reports asked for and the reports sent so far, and the number of the
      last report sent until a response or a last timeout bears it. */
  datatype Ledger = Ledger(app: App, asked: seq<Msg>, sent: seq<Msg>, open: Option<Short>)

  /** The reports a message asks for, when its query is not rejected, as far as there is memory. */
  function Asked(a: App, m: Msg, f: Found): seq<Msg>
  {
    if IsResponse(m) || a.lastSeq == m.seqId || m.cmd != QT_QUEUE_ID || m.typ != PRO_QUERY_TYPE || a.queue != [] then []
    else if AsksForAll(m) then Allotted(Reports(f.endpoints, a.arcsSeq), f.memory)
    else if f.terminal.Some? then Allotted([Report([f.terminal.value], Next(a.arcsSeq))], f.memory)
    else []
  }

  /** A response to a report, or a report given up: what lowers the flag of the pump. */
  predicate Frees(l: Label) {
    match l
    case Message(m, _) => IsResponse(m) && m.cmd == QT_QUEUE_ID
    case Tick => false
    case Timeout(_, cmd, last) => last && cmd == QT_QUEUE_ID
  }

  /** The number of the frame that is answered or given up. */
  function Number(l: Label): Short
    requires Frees(l)
  {
    if l.Message? then l.m.seqId else l.seqId
  }

  function Step(s: Ledger, l: Label): Ledger
  {
    var open := if Frees(l) && s.open == Some(Number(l)) then None else s.open;
    match l
    case Message(m, f) => Ledger(OnMessage(s.app, m, f).0, s.asked + Asked(s.app, m, f), s.sent, open)
    case Tick =>
      var (a, out) := Pump(s.app);
      if out.Some? then Ledger(a, s.asked, s.sent + [out.value], Some(out.value.seqId)) else s.(app := a)
    case Timeout(_, cmd, last) => s.(app := OnTimeout(s.app, cmd, last), open := open)
  }

  function Run(s: Ledger, ls: seq<Label>): Ledger
    decreases |ls|
  {
    if ls == [] then s else Run(Step(s, ls[0]), ls[1..])
  }

  function Start(cap: nat): Ledger {
    Ledger(App(cap, 0, 0, false, []), [], [], None)
  }

  /** No query of the run meets more endpoints than the given number. */
  predicate Bounded(l: Label, n: nat) {
    l.Message? ==> |l.found.endpoints| <= n
  }

  ghost predicate AllBounded(ls: seq<Label>, n: nat) {
    forall l :: l in ls ==> Bounded(l, n)
  }

  /** Every report that was asked for and found memory is waiting or sent, in order. */
  ghost predicate Kept(s: Ledger) {
    s.asked == s.sent + s.app.queue
  }

  lemma MessageKeepsAll(s: Ledger, m: Msg, f: Found)
    requires Kept(s)
    requires s.app.cap >= 1 && |f.endpoints| <= PER_REPORT * s.app.cap
    ensures Kept(Step(s, Message(m, f))) && Step(s, Message(m, f)).app.cap == s.app.cap
  {
    AskedIsQueued(s.app, m, f);
    hide OnMessage, Asked;
  }

  /** A query is only answered with reports when none is waiting, so there is room for all of them. */
  lemma AskedIsQueued(a: App, m: Msg, f: Found)
    requires a.cap >= 1 && |f.endpoints| <= PER_REPORT * a.cap
    ensures var a', asked := OnMessage(a, m, f).0, Asked(a, m, f);
            && a'.cap == a.cap && a'.queue == a.queue + asked
            && a'.flag == (a.flag && !Frees(Message(m, f)))
  {
    ReportsCount(f.endpoints, a.arcsSeq);
    hide Reports, Report;
    var asked := Asked(a, m, f);
    assert asked[..|asked|] == asked;
  }

  lemma TickKeepsAll(s: Ledger)
    requires Kept(s)
    ensures Kept(Step(s, Tick)) && Step(s, Tick).app.cap == s.app.cap
  {
    if s.app.queue != [] { assert s.app.queue == [s.app.queue[0]] + s.app.queue[1..]; }
  }

  lemma {:induction false} RunKeepsAll(s: Ledger, ls: seq<Label>)
    requires Kept(s) && s.app.cap >= 1
    requires AllBounded(ls, PER_REPORT * s.app.cap)
    ensures Kept(Run(s, ls))
    decreases |ls|
  {
    if ls != [] {
      assert Bounded(ls[0], PER_REPORT * s.app.cap);
      match ls[0] {
        case Message(m, f) => MessageKeepsAll(s, m, f);
        case Tick => TickKeepsAll(s);
        case Timeout(_, cmd, last) =>
      }
      RunKeepsAll(Step(s, ls[0]), ls[1..]);
    }
  }

  /** The most endpoints whose reports the queue has room for. */
  function MostEndpoints(maxNum: nat): nat {
    maxNum + (3 - maxNum % 3)
  }

  /** With the source's queue size, in every run in which no query meets more endpoints than the exact
      bound, the queue drops no report: those that found memory are those sent and those waiting, in
      order. */
  lemma NoReportIsDropped(maxNum: nat, ls: seq<Label>)
    requires AllBounded(ls, MostEndpoints(maxNum))
    ensures Kept(Run(Start(QueueSize(maxNum) - 1), ls))
  {
    RunKeepsAll(Start(QueueSize(maxNum) - 1), ls);
  }

  /** One endpoint beyond the exact bound, and the last report of a query is lost. */
  lemma OneTooMany(maxNum: nat, rs: seq<Record>, last: Short)
    requires |rs| > MostEndpoints(maxNum)
    ensures var cap := QueueSize(maxNum) - 1;
            |Posted([], cap, Reports(rs, last))| == cap < |Reports(rs, last)|
  {
    ReportsCount(rs, last);
    RoomForReports(maxNum, |rs|);
  }

  /** The command that asks for all endpoints. */
  function AskAll(seqId: Short): Msg {
    Msg(PROTOCAL_QT_TYPE, PRO_QUERY_TYPE, seqId, QT_QUEUE_ID, 2, [0xFF, 0xFF] + Zeros(PRO_QT_MAX - 2))
  }

  /** So the bound is exact: no run drops a report if and only if the queries stay within it. */
  lemma RoomIsExact(maxNum: nat, n: nat)
    ensures (forall ls: seq<Label> :: AllBounded(ls, n) ==> Kept(Run(Start(QueueSize(maxNum) - 1), ls)))
            <==> n <= MostEndpoints(maxNum)
  {
    var s := Start(QueueSize(maxNum) - 1);
    if n <= MostEndpoints(maxNum) {
      forall ls: seq<Label> | AllBounded(ls, n) ensures Kept(Run(s, ls)) {
        forall l | l in ls ensures Bounded(l, MostEndpoints(maxNum)) { assert Bounded(l, n); }
        NoReportIsDropped(maxNum, ls);
      }
    } else {
      var rs := seq(n, _ => Zeros(RECORD));
      var l := Message(AskAll(1), Found(rs, None, Plenty));
      assert AllBounded([l], n);
      QueryTooLarge(maxNum, rs);
      assert !Kept(Run(s, [l]));
    }
  }

  lemma QueryTooLarge(maxNum: nat, rs: seq<Record>)
    requires |rs| > MostEndpoints(maxNum)
    ensures !Kept(Run(Start(QueueSize(maxNum) - 1), [Message(AskAll(1), Found(rs, None, Plenty))]))
  {
    OneTooMany(maxNum, rs, 0);
    PlentyForAll(Reports(rs, 0));
    var l, s := Message(AskAll(1), Found(rs, None, Plenty)), Start(QueueSize(maxNum) - 1);
    var s' := Step(s, l);
    hide Reports, QueueSize, Allotted;
    assert Run(s, [l]) == Run(s', []) == s';
    assert s'.asked == Reports(rs, 0) && s'.app.queue == Posted([], s.app.cap, Reports(rs, 0)) && s'.sent == [];
    assert [] + s'.app.queue == s'.app.queue;
  }

  // ----- The pump -----

  /** How many of the labels are responses to a report or last timeouts of one. */
  function Freeing(ls: seq<Label>): nat {
    if ls == [] then 0 else (if Frees(ls[0]) then 1 else 0) + Freeing(ls[1..])
  }

  /** Whether the pump may send; as a number, to count with. */
  function Held(s: Ledger): nat {
    if s.app.flag then 1 else 0
  }

  lemma FlagAfter(a: App, m: Msg, f: Found)
    ensures OnMessage(a, m, f).0.flag == (a.flag && !Frees(Message(m, f)))
  {
    hide Reports, Report;
  }

  lemma StepIsPaid(s: Ledger, l: Label)
    ensures var s' := Step(s, l);
            |s'.sent| + Held(s) <= |s.sent| + Held(s') + if Frees(l) then 1 else 0
  {
    if l.Message? { FlagAfter(s.app, l.m, l.found); }
    hide OnMessage, Asked;
  }

  lemma {:induction false} RunIsPaid(s: Ledger, ls: seq<Label>)
    ensures |Run(s, ls).sent| + Held(s) <= |s.sent| + Held(Run(s, ls)) + Freeing(ls)
    decreases |ls|
  {
    if ls != [] {
      StepIsPaid(s, ls[0]);
      RunIsPaid(Step(s, ls[0]), ls[1..]);
    }
  }

  /** In every run, all sends but the first were paid for by a response to a report or a last timeout,
      each of which pays once. */
  lemma SendsArePaid(cap: nat, ls: seq<Label>)
    ensures var s := Run(Start(cap), ls);
            |s.sent| <= Freeing(ls) + 1 && (!s.app.flag ==> |s.sent| <= Freeing(ls))
  {
    RunIsPaid(Start(cap), ls);
  }

  /** At every moment of the run, the pump may only send when the last report was answered or given up
      under its own number. */
  ghost predicate StopsAndWaits(s: Ledger, ls: seq<Label>)
    decreases |ls|
  {
    && (!s.app.flag ==> s.open == None)
    && (ls == [] || StopsAndWaits(Step(s, ls[0]), ls[1..]))
  }

  /** Whatever frees the pump in the run bears the number of the last report sent. */
  ghost predicate OwnReleases(s: Ledger, ls: seq<Label>)
    decreases |ls|
  {
    ls != [] ==>
      && (s.app.flag && Frees(ls[0]) ==> s.sent != [] && Number(ls[0]) == s.sent[|s.sent| - 1].seqId)
      && OwnReleases(Step(s, ls[0]), ls[1..])
  }

  /** A pump that waits, waits for the last report sent. */
  ghost predicate Waits(s: Ledger) {
    s.app.flag ==> s.sent != [] && s.open == Some(s.sent[|s.sent| - 1].seqId)
  }

  lemma StepWaits(s: Ledger, l: Label)
    requires Waits(s) && (!s.app.flag ==> s.open == None)
    ensures var s' := Step(s, l);
            && Waits(s')
            && ((!s'.app.flag ==> s'.open == None) <==>
                (s.app.flag && Frees(l) ==> Number(l) == s.sent[|s.sent| - 1].seqId))
  {
    if l.Message? { FlagAfter(s.app, l.m, l.found); }
    hide OnMessage, Asked;
  }

  lemma {:induction false} WaitsExactly(s: Ledger, ls: seq<Label>)
    requires Waits(s) && (!s.app.flag ==> s.open == None)
    ensures StopsAndWaits(s, ls) <==> OwnReleases(s, ls)
    decreases |ls|
  {
    if ls != [] {
      StepWaits(s, ls[0]);
      hide Step, Frees;
      var s' := Step(s, ls[0]);
      if !s'.app.flag ==> s'.open == None { WaitsExactly(s', ls[1..]); }
    }
  }

  /** The pump compares no numbers, so it stops and waits exactly in the runs in which whatever frees
      it bears the number of the report it waits for. */
  lemma StopAndWaitExactly(cap: nat, ls: seq<Label>)
    ensures StopsAndWaits(Start(cap), ls) <==> OwnReleases(Start(cap), ls)
  {
    WaitsExactly(Start(cap), ls);
  }

  /** The host's answer to the report of a number. */
  function Answer(seqId: Short): Label {
    Message(EmptyReply(PRO_RESP_MASK + PRO_REPORT_TYPE, seqId, QT_QUEUE_ID), Found([], None, Plenty))
  }

  /** A query of seven endpoints, and then the answer to the first report arrives twice: the third
      report goes out although nothing ever answered the second or gave it up. */
  lemma StaleAnswerFrees(cap: nat, rs: seq<Record>)
    requires cap >= 3 && |rs| == 7
    ensures var s := Run(Start(cap),
            [Message(AskAll(1), Found(rs, None, Plenty)), Tick, Answer(1), Tick, Answer(1), Tick]);
            s.sent == Reports(rs, 0) && |s.sent| == 3 && s.sent[1].seqId == 2
  {
    var q := Message(AskAll(1), Found(rs, None, Plenty));
    ReportsCount(rs, 0);
    ReportsInSequence(rs, 0);
    QueryQueues(cap, rs);
    hide Reports, Step, Answer, AskAll, Run;
    AnsweredTwice(Step(Start(cap), q), Reports(rs, 0));
    RunSix(Start(cap), q, Tick, Answer(1), Tick, Answer(1), Tick);
  }

  lemma AnsweredTwice(s: Ledger, ms: seq<Msg>)
    requires !s.app.flag && s.app.queue == ms && |ms| == 3 && s.sent == []
    ensures Step(Step(Step(Step(Step(s, Tick), Answer(1)), Tick), Answer(1)), Tick).sent == ms
  {
    hide Step, Answer;
    SentAndAnswered(s, 1);
    var s2 := Step(Step(s, Tick), Answer(1));
    SentAndAnswered(s2, 1);
    SentNext(Step(Step(s2, Tick), Answer(1)));
  }

  lemma QueryQueues(cap: nat, rs: seq<Record>)
    requires |Reports(rs, 0)| <= cap
    ensures var s := Step(Start(cap), Message(AskAll(1), Found(rs, None, Plenty)));
            !s.app.flag && s.app.queue == Reports(rs, 0) && s.sent == []
  {
    var ms := Reports(rs, 0);
    PlentyForAll(ms);
    assert ms[..|ms|] == ms && [] + ms == ms;
    hide Reports, Allotted;
  }

  /** The pump sends, and an answer to any report frees it. */
  lemma SentAndAnswered(s: Ledger, seqId: Short)
    requires !s.app.flag && s.app.queue != []
    ensures var s' := Step(Step(s, Tick), Answer(seqId));
            && s'.app == s.app.(queue := s.app.queue[1..])
            && s'.sent == s.sent + [s.app.queue[0]]
  {
    hide Query, Asked;
  }

  lemma SentNext(s: Ledger)
    requires !s.app.flag && s.app.queue != []
    ensures Step(s, Tick).sent == s.sent + [s.app.queue[0]]
  {}

  lemma RunSix(s: Ledger, l1: Label, l2: Label, l3: Label, l4: Label, l5: Label, l6: Label)
    ensures Run(s, [l1, l2, l3, l4, l5, l6]) == Step(Step(Step(Step(Step(Step(s, l1), l2), l3), l4), l5), l6)
  {
    hide Step;
    var s1 := Step(s, l1);
    var s2 := Step(s1, l2);
    var s3 := Step(s2, l3);
    assert Run(s, [l1, l2, l3, l4, l5, l6]) == Run(s1, [l2, l3, l4, l5, l6]) == Run(s2, [l3, l4, l5, l6])
      == Run(s3, [l4, l5, l6]);
    var s4 := Step(s3, l4);
    var s5 := Step(s4, l5);
    var s6 := Step(s5, l6);
    assert Run(s3, [l4, l5, l6]) == Run(s4, [l5, l6]) == Run(s5, [l6]) == Run(s6, []);
  }

  // ----- Duplicates -----

  /** The numbers of the commands executed when messages are handed over one after another. */
  function ExecutedSeqs(a: App, ms: seq<(Msg, Found)>): seq<Short>
    decreases |ms|
  {
    if ms == [] then []
    else
      var (a', act) := OnMessage(a, ms[0].0, ms[0].1);
      (if act.Executed? then [act.seqId] else []) + ExecutedSeqs(a', ms[1..])
  }

  predicate IsCommand(m: Msg, seqId: Short) {
    !IsResponse(m) && m.seqId == seqId
  }

  /** A command and its retransmissions, however many and with responses in between, are executed
      once together, unless the number is the last one executed before. */
  lemma {:induction false} RetransmissionsRunOnce(a: App, ms: seq<(Msg, Found)>, seqId: Short)
    requires forall p :: p in ms ==> IsResponse(p.0) || IsCommand(p.0, seqId)
    ensures ExecutedSeqs(a, ms)
            == if a.lastSeq != seqId && exists p :: p in ms && IsCommand(p.0, seqId) then [seqId] else []
    decreases |ms|
  {
    if ms != [] {
      var m := ms[0].0;
      var a' := OnMessage(a, m, ms[0].1).0;
      RetransmissionsRunOnce(a', ms[1..], seqId);
      assert forall p :: p in ms <==> p == ms[0] || p in ms[1..];
      if IsCommand(m, seqId) {
        LastSeqIs(a, m, ms[0].1);
      } else {
        assert a'.lastSeq == a.lastSeq;
      }
    }
  }

  lemma LastSeqIs(a: App, m: Msg, f: Found)
    requires !IsResponse(m)
    ensures OnMessage(a, m, f).0.lastSeq == m.seqId
    ensures OnMessage(a, m, f).1.Executed? <==> a.lastSeq != m.seqId
  {}

  /** No two commands executed one after the other bear the same number. */
  lemma {:induction false} NeighboursDiffer(a: App, ms: seq<(Msg, Found)>)
    ensures var s := ExecutedSeqs(a, ms);
            && (s != [] ==> s[0] != a.lastSeq)
            && forall i :: 0 < i < |s| ==> s[i - 1] != s[i]
    decreases |ms|
  {
    if ms != [] {
      var a' := OnMessage(a, ms[0].0, ms[0].1).0;
      NeighboursDiffer(a', ms[1..]);
      if !IsResponse(ms[0].0) { LastSeqIs(a, ms[0].0, ms[0].1); }
    }
  }

  /** The remembered number starts at 0, so a first command is executed only if its number is not 0. */
  lemma FirstCommand(cap: nat, m: Msg, f: Found)
    requires !IsResponse(m)
    ensures OnMessage(Start(cap).app, m, f).1.Executed? <==> m.seqId != 0
  {
    LastSeqIs(Start(cap).app, m, f);
  }
}
