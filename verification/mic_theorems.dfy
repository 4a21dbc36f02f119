/**
 What holds of the microphone manager over every run: of its histories alone, and of its states
 between passes.
 */
module MicTheorems {
  import opened Words
  import opened MicHistory
  import opened MicModel
  import opened MicSafety
  import opened UserTimer

  // ----- Every run -----

  lemma EveryRunIsSafe(cap: nat, ls: seq<Label>)
    ensures SafeHistory(Run(Init(cap), ls).log)
  {
    InitInv(cap);
    RunKeepsInv(Init(cap), ls);
  }

  /** Conservation: at every moment the answered requests of a queue, then the waiting ones, are
      the accepted ones in order, and no request occurs twice. */
  lemma NothingLost(cap: nat, ls: seq<Label>, k: Kind, p: nat)
    requires p < PRIORITIES
    ensures var s := Run(Init(cap), ls);
            && Done(s.log, k, p) + Ids(Of(s, k).qs[p]) == Accepted(s.log, k, p)
            && Increasing(Accepted(s.log, k, p))
  {
    InitInv(cap);
    RunKeepsInv(Init(cap), ls);
    var s := Run(Init(cap), ls);
    assert QueueInv(s.log, k, p, Of(s, k).qs[p], s.nextId);
  }

  /** Between passes a machine waits for the command of the head of its current queue, or it is
      idle and starts at the chairman's queue; a success never outlives its pass. */
  lemma BetweenPasses(cap: nat, ls: seq<Label>, k: Kind)
    ensures var s := Run(Init(cap), ls);
            var m := Of(s, k);
            s.pc.Idle? ==>
              && !m.st.Success?
              && (m.st.Wait? ==>
                    m.cur < PRIORITIES && m.qs[m.cur] != [] && InFlight(s.log, k) == Waiting(m.cur, m.qs[m.cur][0].id))
              && (!m.st.Wait? ==> m.cur == 0 && InFlight(s.log, k).Free?)
  {
    InitInv(cap);
    RunKeepsInv(Init(cap), ls);
  }

  /** In every run a visit that does not answer its request leaves the queue with the same requests in
      the same places: the post back to the head never meets a full queue. */
  lemma PutBackFits(cap: nat, ls: seq<Label>, k: Kind, i: nat, e: Reading)
    requires var s := Run(Init(cap), ls);
             s.pc == Scan(k, i) && i < PRIORITIES && VisitResult(s, k, i, e) == Kept
    ensures var s := Run(Init(cap), ls);
            Ids(Of(DoVisit(s, k, i, e), k).qs[i]) == Ids(Of(s, k).qs[i])
  {
    InitInv(cap);
    RunKeepsInv(Init(cap), ls);
    InvParts(Run(Init(cap), ls), k);
    hide Inv, Run, DoVisit, VisitResult;
    KeptStays(Run(Init(cap), ls), k, i, e);
  }

  lemma KeptStays(s: State, k: Kind, i: nat, e: Reading)
    requires Shaped(s) && i < PRIORITIES && VisitResult(s, k, i, e) == Kept && |Of(s, k).qs[i]| <= s.cap
    ensures Ids(Of(DoVisit(s, k, i, e), k).qs[i]) == Ids(Of(s, k).qs[i])
  {
    var q := Of(s, k).qs[i];
    var o := Dispatch(k, Of(s, k).st, q[0], e);
    hide Dispatch;
    assert Of(DoVisit(s, k, i, e), k).qs[i] == [q[0].(budget := o.budget)] + q[1..];
  }

  // ----- Commands and results -----

  /** Commands a machine had taken. */
  function Issued(h: History, k: Kind): nat {
    match h
    case Nil => 0
    case Snoc(h', e) => Issued(h', k) + if e.Tried? && e.kind == k && e.reply.Taken? then 1 else 0
  }

  /** Results and timeouts it consumed. */
  function Results(h: History, k: Kind): nat {
    match h
    case Nil => 0
    case Snoc(h', e) => Results(h', k) + if e.Heard? && e.kind == k then 1 else 0
  }

  /** Never more than one command outstanding: the account is 1 while waiting and 0 otherwise. */
  lemma {:induction false} CommandAccount(h: History, k: Kind)
    requires SafeHistory(h)
    ensures Issued(h, k) - Results(h, k) == if InFlight(h, k).Waiting? then 1 else 0
  {
    if h.Snoc? { CommandAccount(h.init, k); }
  }

  lemma WaitingAccount(cap: nat, ls: seq<Label>, k: Kind)
    ensures var s := Run(Init(cap), ls);
            Issued(s.log, k) - Results(s.log, k) == if Of(s, k).st.Wait? then 1 else 0
  {
    InitInv(cap);
    RunKeepsInv(Init(cap), ls);
    CommandAccount(Run(Init(cap), ls).log, k);
  }

  /** An ACMP event moves at most one machine, and only one that it is addressed to and that waits; the
      others keep their state, their queues and the command they have in flight. */
  lemma AcmpReachesOne(s: State, tick: nat, k: Kind)
    requires s.acmp != []
    ensures !(Addressed(k, s.acmp[0]) && Of(s, k).st.Wait?) ==>
              Of(DoBegin(s, tick), k) == Of(s, k) && InFlight(DoBegin(s, tick).log, k) == InFlight(s.log, k)
    ensures DoBegin(s, tick).conn == s.conn || DoBegin(s, tick).disc == s.disc
  {
    assert InFlight(Snoc(s.log, PassStart), k) == InFlight(s.log, k);
    var h1 := LogAcmp(Snoc(s.log, PassStart), Connector, s.conn.st, s.acmp[0]);
    assert k.Disconnector? ==> InFlight(h1, k) == InFlight(s.log, k);
  }

  // ----- Answers -----

  /** Entry `e` stands in the history, and `h0` is what came before it. */
  predicate Precedes(h0: History, e: Entry, h: History) {
    h.Snoc? && (h == Snoc(h0, e) || Precedes(h0, e, h.init))
  }

  lemma {:induction false} EntriesAreSafe(h0: History, e: Entry, h: History)
    requires SafeHistory(h) && Precedes(h0, e, h)
    ensures SafeHistory(h0) && SafeEntry(h0, e)
  {
    if h != Snoc(h0, e) { EntriesAreSafe(h0, e, h.init); }
  }

  /** Answers come in the order of the requests, each at most once. */
  lemma {:induction false} AnswersInOrder(h: History, k: Kind, p: nat)
    requires SafeHistory(h)
    ensures Increasing(Accepted(h, k, p))
    ensures |Done(h, k, p)| <= |Accepted(h, k, p)| && Done(h, k, p) == Accepted(h, k, p)[..|Done(h, k, p)|]
  {
    if h.Snoc? { AnswersInOrder(h.init, k, p); }
  }

  // ----- Retries -----

  /** A dispatch of the request. */
  predicate IsTry(e: Entry, k: Kind, p: nat, id: nat) {
    e.Tried? && e.kind == k && e.prior == p && e.id == id
  }

  /** Dispatches of a request. */
  function Tries(h: History, k: Kind, p: nat, id: nat): nat {
    match h
    case Nil => 0
    case Snoc(h', e) => Tries(h', k, p, id) + if IsTry(e, k, p, id) then 1 else 0
  }

  /** Every dispatch of the request found it permitted and its terminal not in the wanted state,
      and had its command refused. */
  predicate OnlyRefused(h: History, k: Kind, p: nat, id: nat) {
    match h
    case Nil => true
    case Snoc(h', e) =>
      && OnlyRefused(h', k, p, id)
      && (IsTry(e, k, p, id) ==> e.reply.Refused?)
  }

  predicate WasGranted(h: History, k: Kind, p: nat, id: nat) {
    h.Snoc? && ((h.last.Granted? && h.last.kind == k && h.last.prior == p && h.last.id == id)
      || WasGranted(h.init, k, p, id))
  }

  lemma {:induction false} GrantedIsAccepted(h: History, k: Kind, p: nat, id: nat)
    ensures WasGranted(h, k, p, id) <==> id in Accepted(h, k, p)
  {
    if h.Snoc? { GrantedIsAccepted(h.init, k, p, id); }
  }

  lemma {:induction false} NotYetGranted(h: History, k: Kind, p: nat, id: nat)
    requires SafeHistory(h) && !WasGranted(h, k, p, id)
    ensures Tries(h, k, p, id) == 0 && Spent(h, k, p, id) == 0 && Grant(h, k, p, id) == 0
    ensures id !in Done(h, k, p)
  {
    if h.Snoc? {
      NotYetGranted(h.init, k, p, id);
      GrantedIsAccepted(h.init, k, p, id);
    }
  }

  /** Whether the request has been settled, answered already or about to be. */
  predicate IsSettled(h: History, k: Kind, p: nat, id: nat) {
    id in Done(h, k, p) || (EndsSettled(h) && h.last.kind == k && h.last.prior == p && h.last.id == id)
  }

  /** The oldest request is none of the answered ones. */
  lemma OldestIsNotDone(h: History, k: Kind, p: nat, id: nat)
    requires SafeHistory(h) && IsOldest(h, k, p, id)
    ensures id !in Done(h, k, p)
  {
    AnswersInOrder(h, k, p);
    var acc, d := Accepted(h, k, p), |Done(h, k, p)|;
    forall i | 0 <= i < d ensures Done(h, k, p)[i] != id {
      assert acc[i] < acc[d];
    }
  }

  /**
   A request of budget b whose command is refused every time is settled by exactly its (b+1)-th
   dispatch: before that it has been tried at most b times, and it is never tried again.
   */
  lemma {:induction false} RefusalsUseTheBudget(h: History, k: Kind, p: nat, id: nat)
    requires SafeHistory(h) && OnlyRefused(h, k, p, id) && WasGranted(h, k, p, id)
    ensures IsSettled(h, k, p, id) ==>
              Tries(h, k, p, id) == Grant(h, k, p, id) + 1 && Spent(h, k, p, id) == Grant(h, k, p, id)
    ensures !IsSettled(h, k, p, id) ==> Tries(h, k, p, id) == Spent(h, k, p, id) <= Grant(h, k, p, id)
  {
    if !WasGranted(h.init, k, p, id) {
      GrantedIsAccepted(h.init, k, p, id);
      NotYetGranted(h.init, k, p, id);
    } else {
      LastEntry(h, k, p, id);
      LastSettles(h, k, p, id);
      hide SafeEntry, IsSettled;
      RefusalsUseTheBudget(h.init, k, p, id);
    }
  }

  /** A settled request is not dispatched, and stays settled; only a dispatch settles one. */
  lemma LastSettles(h: History, k: Kind, p: nat, id: nat)
    requires SafeHistory(h) && h.Snoc?
    ensures IsTry(h.last, k, p, id) ==>
              !IsSettled(h.init, k, p, id) && (IsSettled(h, k, p, id) <==> h.last.handled)
    ensures !IsTry(h.last, k, p, id) ==> (IsSettled(h, k, p, id) <==> IsSettled(h.init, k, p, id))
  {
    if IsTry(h.last, k, p, id) { OldestIsNotDone(h.init, k, p, id); }
  }

  // ----- Cancellation -----

  /** Commands issued for a request, taken or refused. */
  function Commands(h: History, k: Kind, p: nat, id: nat): nat {
    match h
    case Nil => 0
    case Snoc(h', e) =>
      Commands(h', k, p, id) + if IsTry(e, k, p, id) && !e.reply.NotSent? then 1 else 0
  }

  predicate Extends(h: History, h0: History) {
    h == h0 || (h.Snoc? && Extends(h.init, h0))
  }

  /** A cancelled request has no permissions: it was accepted before, and once. */
  lemma {:induction false} CancelledHasNone(h: History, k: Kind, p: nat, id: nat)
    requires SafeHistory(h) && IsCancelled(h, k, p, id)
    ensures Entitled(h, k, p, id) == 0 && id in Accepted(h, k, p)
  {
    if h.last != Cancelled(k, p, id) { CancelledHasNone(h.init, k, p, id); }
  }

  lemma NoBits(sys: bv32)
    ensures sys & 0 == 0
  {}

  /** Once a queued request was cancelled, no later step of any run issues a command for it. */
  lemma {:induction false} CancelledIsQuiet(h0: History, h: History, k: Kind, p: nat, id: nat)
    requires SafeHistory(h) && Extends(h, h0) && IsCancelled(h0, k, p, id)
    ensures IsCancelled(h, k, p, id) && Commands(h, k, p, id) == Commands(h0, k, p, id)
  {
    if h != h0 {
      CancelledIsQuiet(h0, h.init, k, p, id);
      CancelledHasNone(h.init, k, p, id);
      if h.last.Tried? { NoBits(h.last.sys); }
    }
  }

  lemma ExtendsTrans(h2: History, h1: History, h0: History)
    requires Extends(h2, h1) && Extends(h1, h0)
    ensures Extends(h2, h0)
  {
    if h2 != h1 { ExtendsTrans(h2.init, h1, h0); }
  }

  lemma {:induction false} LogCancelsExtends(h: History, k: Kind, p: nat, q: seq<Req>)
    ensures Extends(LogCancels(h, k, p, q), h)
    decreases |q|
  {
    if q != [] {
      var h1 := Snoc(h, Cancelled(k, p, q[0].id));
      LogCancelsExtends(h1, k, p, q[1..]);
      assert Extends(h1, h);
      ExtendsTrans(LogCancels(h, k, p, q), h1, h);
    }
  }

  lemma StepExtends(s: State, l: Label)
    requires Shaped(s)
    ensures Extends(Step(s, l).log, s.log)
  {
    match l
    case CancelQueue(k, p) => if p < PRIORITIES { LogCancelsExtends(s.log, k, p, Of(s, k).qs[p][0..]); }
    case Begin(tick) =>
      assert Extends(Snoc(s.log, PassStart), s.log);
      if s.acmp != [] {
        var h1 := LogAcmp(Snoc(s.log, PassStart), Connector, s.conn.st, s.acmp[0]);
        assert Extends(h1, s.log);
      }
    case Visit(e) =>
    case _ =>
  }

  lemma {:induction false} RunExtends(s: State, ls: seq<Label>)
    requires Shaped(s)
    ensures Extends(Run(s, ls).log, s.log)
    decreases |ls|
  {
    if ls != [] {
      StepShaped(s, ls[0]);
      StepExtends(s, ls[0]);
      RunExtends(Step(s, ls[0]), ls[1..]);
      ExtendsTrans(Run(s, ls).log, Step(s, ls[0]).log, s.log);
    }
  }

  /** At any moment of any run: a queued request that has been cancelled is never commanded again,
      whatever the run goes on to do, and it keeps its place among the accepted ones. */
  lemma CancelledForEver(cap: nat, ls: seq<Label>, ls': seq<Label>, k: Kind, p: nat, id: nat)
    requires IsCancelled(Run(Init(cap), ls).log, k, p, id)
    ensures var h, h' := Run(Init(cap), ls).log, Run(Run(Init(cap), ls), ls').log;
            && Commands(h', k, p, id) == Commands(h, k, p, id)
            && (id in Accepted(h, k, p) ==> id in Accepted(h', k, p))
  {
    var s := Run(Init(cap), ls);
    RunAppend(Init(cap), ls, ls');
    EveryRunIsSafe(cap, ls + ls');
    RunExtends(s, ls');
    CancelledIsQuiet(s.log, Run(s, ls').log, k, p, id);
    AcceptedGrows(s.log, Run(s, ls').log, k, p);
  }

  lemma {:induction false} AcceptedGrows(h0: History, h: History, k: Kind, p: nat)
    requires Extends(h, h0)
    ensures Accepted(h0, k, p) <= Accepted(h, k, p)
  {
    if h != h0 { AcceptedGrows(h0, h.init, k, p); }
  }

  // ----- Passes are runs -----

  lemma {:induction false} RunAppend(s: State, a: seq<Label>, b: seq<Label>)
    requires Shaped(s)
    ensures Run(s, a + b) == Run(Run(s, a), b)
    decreases |b|
  {
    if b == [] {
      assert a + b == a;
    } else {
      assert a + b == a + [b[0]] + b[1..];
      RunAppend(s, a + [b[0]], b[1..]);
      RunSnoc(s, a, b[0]);
    }
  }

  lemma {:induction false} ScanIsRun(s: State, k: Kind, e: Reading) returns (ls: seq<Label>)
    requires Shaped(s)
    ensures ScanRun(s, k, e) == Run(s, ls)
    decreases if s.pc.Scan? && s.pc.kind == k && s.pc.at < PRIORITIES then PRIORITIES - s.pc.at else 0
  {
    ls := [];
    if s.pc.Scan? && s.pc.kind == k && s.pc.at < PRIORITIES {
      var s' := Step(s, Visit(e));
      StepShaped(s, Visit(e));
      assert s' == DoVisit(s, k, s.pc.at, e);
      ScanTurn(s, k, e);
      hide DoVisit, VisitResult;
      var rest := ScanIsRun(s', k, e);
      ls := [Visit(e)] + rest;
      assert ls[1..] == rest;
    }
  }

  lemma CallbackIsRun(s: State, calls: seq<Label>) returns (ls: seq<Label>)
    requires Shaped(s)
    ensures CallbackRun(s, calls) == Run(s, ls)
  {
    ls := [];
    if s.pc.Calling? {
      var made := if Delivered(s.log) then calls else [];
      ls := made + [Return];
      RunSnoc(s, made, Return);
    }
  }

  lemma HalfIsRun(s: State, k: Kind, e: Reading, calls: seq<Label>) returns (ls: seq<Label>)
    requires Shaped(s)
    ensures HalfPass(s, k, e, calls) == Run(s, ls)
  {
    var a := ScanIsRun(s, k, e);
    var b := CallbackIsRun(Run(s, a), calls);
    ls := a + b;
    RunAppend(s, a, b);
  }

  /** A whole pass of the routine is a run, so every theorem about runs speaks of it. */
  lemma PassIsRun(s: State, tick: nat, ed: Reading, callsD: seq<Label>, ec: Reading, callsC: seq<Label>)
      returns (ls: seq<Label>)
    requires Shaped(s) && s.pc.Idle?
    ensures Pass(s, tick, ed, callsD, ec, callsC) == Run(s, ls)
  {
    BeginShaped(s, tick);
    PassHalves(s, tick, ed, callsD, ec, callsC);
    var s1 := DoBegin(s, tick);
    assert Run(s, [Begin(tick)]) == s1 by {
      RunSnoc(s, [], Begin(tick));
      assert [] + [Begin(tick)] == [Begin(tick)];
    }
    hide Pass, HalfPass, DoBegin;
    var a := HalfIsRun(s1, Disconnector, ed, callsD);
    var b := HalfIsRun(Run(s1, a), Connector, ec, callsC);
    ls := [Begin(tick)] + a + b;
    RunAppend(s, [Begin(tick)], a);
    RunAppend(s, [Begin(tick)] + a, b);
  }

  /** Wherever passes and calls of a run have led, the next pass keeps the history safe. */
  lemma PassesAreSafe(cap: nat, ls: seq<Label>, tick: nat, ed: Reading, callsD: seq<Label>, ec: Reading,
      callsC: seq<Label>)
    requires Run(Init(cap), ls).pc.Idle?
    ensures SafeHistory(Pass(Run(Init(cap), ls), tick, ed, callsD, ec, callsC).log)
  {
    var more := PassIsRun(Run(Init(cap), ls), tick, ed, callsD, ec, callsC);
    RunAppend(Init(cap), ls, more);
    EveryRunIsSafe(cap, ls + more);
  }

  // ----- Pace -----

  /** With no ACMP event waiting, a pass begins exactly when 100 ms have gone by since the last one
      that the clock started, across a wrap-around of the tick counter. */
  lemma PassesArePaced(s: State, t0: nat, t: nat)
    requires s.acmp == [] && s.pc.Idle? && s.lastTick == Clock(t0) && t0 <= t < t0 + WORD
    ensures DoBegin(s, Clock(t)).pc.Scan? <==> t - t0 >= PERIOD_MS
    ensures DoBegin(s, Clock(t)) == s <==> t - t0 < PERIOD_MS
  {
    SinceIsReal(t0, t);
  }

  // ----- Priority -----

  /** The first non-empty queue from the i-th on. */
  function FirstBusy(m: Manager, i: nat): (j: nat)
    requires |m.qs| == PRIORITIES && i <= PRIORITIES
    ensures i <= j <= PRIORITIES
    ensures j < PRIORITIES ==> m.qs[j] != []
    ensures forall p :: i <= p < j ==> m.qs[p] == []
    decreases PRIORITIES - i
  {
    if i == PRIORITIES || m.qs[i] != [] then i else FirstBusy(m, i + 1)
  }

  function LogEmpty(h: History, k: Kind, i: nat, j: nat): History
    decreases j - i
  {
    if i >= j then h else LogEmpty(Snoc(h, Empty(k, i)), k, i + 1, j)
  }

  /** An undisturbed scan visits the first non-empty queue and no other; with none it ends. */
  lemma {:induction false} ScanVisitsFirstBusy(s: State, k: Kind, i: nat, e: Reading)
    requires Shaped(s) && s.pc == Scan(k, i) && i < PRIORITIES
    ensures var j := FirstBusy(Of(s, k), i);
            var h := LogEmpty(s.log, k, i, j);
            ScanRun(s, k, e) == if j < PRIORITIES then DoVisit(s.(pc := Scan(k, j), log := h), k, j, e)
                                else s.(pc := After(s, k), log := h)
    decreases PRIORITIES - i
  {
    var s' := DoVisit(s, k, i, e);
    ScanTurn(s, k, e);
    if Of(s, k).qs[i] == [] {
      assert s' == s.(pc := NextQueue(s, k, i), log := Snoc(s.log, Empty(k, i)));
      if i + 1 < PRIORITIES {
        ScanVisitsFirstBusy(s', k, i + 1, e);
        var j := FirstBusy(Of(s, k), i);
        assert s'.(pc := Scan(k, j), log := LogEmpty(s'.log, k, i + 1, j))
          == s.(pc := Scan(k, j), log := LogEmpty(s.log, k, i, j));
      } else {
        ScanOver(s', k, e);
      }
    } else {
      assert s'.pc == Calling(k) || s'.pc == After(s', k);
      ScanOver(s', k, e);
      assert s.(pc := Scan(k, i), log := LogEmpty(s.log, k, i, i)) == s;
    }
  }

  // ----- When the budget bounds the commands -----

  /** How often a command of the request was accepted while its counter showed 0. */
  function TakenAtZero(h: History, k: Kind, p: nat, id: nat): nat {
    match h
    case Nil => 0
    case Snoc(h', e) =>
      TakenAtZero(h', k, p, id)
      + if IsTry(e, k, p, id) && e.reply.Taken? && Remaining(h', k, p, id) == 0 then 1 else 0
  }

  lemma {:induction false} NotYetTaken(h: History, k: Kind, p: nat, id: nat)
    requires Tries(h, k, p, id) == 0
    ensures TakenAtZero(h, k, p, id) == 0 && Commands(h, k, p, id) == 0
  {
    if h.Snoc? { NotYetTaken(h.init, k, p, id); }
  }

  /** A counter that started at the budget and was stepped down n times has wrapped so often. */
  predicate Balanced(budget: Octet, n: nat, wraps: nat) {
    n + (budget - n) % 256 == budget + 256 * wraps
  }

  /** The counter is a counter modulo 256 that wraps exactly when a command is accepted at 0: together
      with the commands it was stepped down for, it makes up the budget and 256 for every wrap. */
  lemma BudgetAccount(h: History, k: Kind, p: nat, id: nat)
    requires SafeHistory(h) && WasGranted(h, k, p, id)
    ensures Spent(h, k, p, id) + Remaining(h, k, p, id) == Grant(h, k, p, id) + 256 * TakenAtZero(h, k, p, id)
  {
    Balance(h, k, p, id);
    hide SafeHistory, WasGranted, Spent, Grant, TakenAtZero;
  }

  lemma {:induction false} Balance(h: History, k: Kind, p: nat, id: nat)
    requires SafeHistory(h) && WasGranted(h, k, p, id)
    ensures Balanced(Grant(h, k, p, id), Spent(h, k, p, id), TakenAtZero(h, k, p, id))
  {
    if !WasGranted(h.init, k, p, id) {
      NotYetGranted(h.init, k, p, id);
      NotYetTaken(h.init, k, p, id);
    } else {
      LastEntry(h, k, p, id);
      LastCounts(h, k, p, id);
      hide SafeEntry, Balanced, Remaining, Spent, Grant, TakenAtZero;
      Balance(h.init, k, p, id);
      CounterSteps(h.init, k, p, id);
    }
  }

  /** What the last entry adds to the account. */
  lemma LastCounts(h: History, k: Kind, p: nat, id: nat)
    requires h.Snoc? && !(h.last.Granted? && h.last.kind == k && h.last.prior == p && h.last.id == id)
    ensures var e, left := h.last, IsTry(h.last, k, p, id) && !h.last.reply.NotSent? && !h.last.handled;
            && Grant(h, k, p, id) == Grant(h.init, k, p, id)
            && Spent(h, k, p, id) == Spent(h.init, k, p, id) + (if left then 1 else 0)
            && TakenAtZero(h, k, p, id) == TakenAtZero(h.init, k, p, id)
               + if IsTry(e, k, p, id) && e.reply.Taken? && Remaining(h.init, k, p, id) == 0 then 1 else 0
  {
    hide Remaining;
  }

  lemma CounterSteps(h: History, k: Kind, p: nat, id: nat)
    requires Balanced(Grant(h, k, p, id), Spent(h, k, p, id), TakenAtZero(h, k, p, id))
    ensures Balanced(Grant(h, k, p, id), Spent(h, k, p, id) + 1,
                     TakenAtZero(h, k, p, id) + if Remaining(h, k, p, id) == 0 then 1 else 0)
  {
    hide Grant, Spent, TakenAtZero;
  }

  /** A request is granted once; and a dispatch settles it only when it issues no command or is refused
      with its counter at 0. */
  lemma LastEntry(h: History, k: Kind, p: nat, id: nat)
    requires SafeHistory(h) && h.Snoc? && WasGranted(h.init, k, p, id)
    ensures h.last.Granted? ==> !(h.last.kind == k && h.last.prior == p && h.last.id == id)
    ensures IsTry(h.last, k, p, id) && !h.last.reply.NotSent? ==>
              (h.last.handled <==> h.last.reply.Refused? && Remaining(h.init, k, p, id) == 0)
  {
    GrantedIsAccepted(h.init, k, p, id);
    hide Remaining;
  }

  /** Only the dispatch that settles a request can issue a command without stepping its counter down. */
  lemma {:induction false} CommandsAreSpent(h: History, k: Kind, p: nat, id: nat)
    requires SafeHistory(h)
    ensures Commands(h, k, p, id) <= Spent(h, k, p, id) + if IsSettled(h, k, p, id) then 1 else 0
  {
    if h.Snoc? {
      LastSettles(h, k, p, id);
      hide SafeEntry, IsSettled;
      CommandsAreSpent(h.init, k, p, id);
    } else {
      assert Commands(h, k, p, id) == 0;
    }
  }

  /**
   In every run the budget bounds a request's commands exactly as long as none was accepted while its
   counter showed 0: then, and only then, no more commands have left the request waiting than its
   budget allows. All its commands are at most one more, the one that settles it.
   */
  lemma BudgetBoundsExactly(cap: nat, ls: seq<Label>, k: Kind, p: nat, id: nat)
    requires WasGranted(Run(Init(cap), ls).log, k, p, id)
    ensures var h := Run(Init(cap), ls).log;
            && (Spent(h, k, p, id) <= Grant(h, k, p, id) <==> TakenAtZero(h, k, p, id) == 0)
            && (TakenAtZero(h, k, p, id) == 0 ==> Commands(h, k, p, id) <= Grant(h, k, p, id) + 1)
            && (TakenAtZero(h, k, p, id) > 0 ==> Commands(h, k, p, id) > Grant(h, k, p, id))
  {
    var h := Run(Init(cap), ls).log;
    EveryRunIsSafe(cap, ls);
    BudgetAccount(h, k, p, id);
    CommandsAreSpent(h, k, p, id);
    SpentAreCommands(h, k, p, id);
  }

  lemma {:induction false} SpentAreCommands(h: History, k: Kind, p: nat, id: nat)
    ensures Spent(h, k, p, id) <= Commands(h, k, p, id)
  {
    if h.Snoc? { SpentAreCommands(h.init, k, p, id); }
  }

  // ----- The budget bounds refusals only -----

  /** A refused command settles its request exactly when the commands that left it pending are, modulo
      256, as many as the budget it was accepted with. */
  lemma ExhaustionIsModular(cap: nat, ls: seq<Label>, h0: History, e: Entry)
    requires Precedes(h0, e, Run(Init(cap), ls).log) && e.Tried? && e.reply.Refused?
    ensures e.handled <==> Spent(h0, e.kind, e.prior, e.id) % 256 == Grant(h0, e.kind, e.prior, e.id)
  {
    EveryRunIsSafe(cap, ls);
    EntriesAreSafe(h0, e, Run(Init(cap), ls).log);
    Congruent(Grant(h0, e.kind, e.prior, e.id), Spent(h0, e.kind, e.prior, e.id));
  }

  lemma Congruent(g: Octet, n: nat)
    ensures (g - n) % 256 == 0 <==> n % 256 == g
  {}

  const Lost := AcmpEvt(ConnectTimeout, 0, 0, 0, 0, 0, 0)

  const Unlucky := Reading(1, false, true, false)

  /** One round of bad luck: the command was lost, the pass finds the disconnector's queues empty,
      and the command is accepted once more. */
  function Round(): seq<Label> {
    [PostAcmp(Lost), Begin(0), Visit(Unlucky), Visit(Unlucky), Visit(Unlucky), Visit(Unlucky)]
  }

  predicate NoneSucceeded(h: History) {
    h.Nil? || (NoneSucceeded(h.init) &&
               !(h.last.Heard? && h.last.kind == Connector && Succeeds(Connector, h.last.sig, h.last.status)))
  }

  /** After n rounds: n commands taken, none successful, nothing answered, the budget wrapped. */
  predicate StillTrying(s: State, spk: Terminal, budget: Octet, n: nat) {
    && s.cap > 0 && s.pc.Idle? && s.acmp == [] && s.disc == NewManager
    && s.conn == Manager(if n == 0 then Finish else Wait, 0, [[Req(0, spk, 1, (budget - n) % 256)], [], []])
    && AllInVain(s.log, n)
  }

  /** One request was accepted and not answered; its n commands were taken and none succeeded. */
  predicate AllInVain(h: History, n: nat) {
    && Accepted(h, Connector, 0) == [0] && Done(h, Connector, 0) == []
    && Commands(h, Connector, 0, 0) == n && NoneSucceeded(h)
  }

  lemma TakenAgain(s: State, spk: Terminal, left: Octet)
    requires s.cap > 0 && s.pc == Scan(Connector, 0) && s.disc == NewManager
    requires (s.conn.st.Finish? || s.conn.st.Failed?) && s.conn.qs == [[Req(0, spk, 1, left)], [], []]
    ensures var s' := Step(s, Visit(Unlucky));
            && s' == s.(conn := Manager(Wait, 0, [[Req(0, spk, 1, Decrement(left))], [], []]), pc := Idle,
               log := s'.log)
            && s'.log == Snoc(s.log, Tried(Connector, 0, 0, 1, false, Taken, false))
  {
    assert 1 & 1 != 0 as bv32;
    var r := Req(0, spk, 1, Decrement(left));
    assert PushFront(s.conn.qs[0][1..], s.cap, r) == [r];
    assert s.conn.qs[0 := [r]] == [[r], [], []];
  }

  /** The head of a round: a timeout, which makes a waiting machine fail, and an empty disconnector. */
  lemma RoundBegins(s: State, spk: Terminal, budget: Octet, n: nat)
    requires StillTrying(s, spk, budget, n)
    ensures var s' := Step(Step(s, PostAcmp(Lost)), Begin(0));
            && s' == s.(conn := Manager(if n == 0 then Finish else Failed, 0, s.conn.qs), pc := Scan(Disconnector, 0),
               log := s'.log)
            && AllInVain(s'.log, n)
  {
    var evt := Lost;
    assert Step(s, PostAcmp(evt)).acmp == [evt];
    assert AllInVain(Snoc(s.log, PassStart), n);
  }

  lemma RoundPassesBy(s: State, n: nat, i: nat)
    requires s.disc == NewManager && s.conn.cur == 0 && |s.conn.qs| == PRIORITIES && AllInVain(s.log, n)
    requires i < PRIORITIES && s.pc == Scan(Disconnector, i)
    ensures var s' := Step(s, Visit(Unlucky));
            && s' == s.(pc := if i + 1 < PRIORITIES then Scan(Disconnector, i + 1) else Scan(Connector, 0),
               log := s'.log)
            && AllInVain(s'.log, n)
  {}

  lemma RoundKeepsTrying(s: State, spk: Terminal, budget: Octet, n: nat)
    requires StillTrying(s, spk, budget, n)
    ensures StillTrying(Run(s, Round()), spk, budget, n + 1)
  {
    var s2 := Step(Step(s, PostAcmp(Lost)), Begin(0));
    RoundBegins(s, spk, budget, n);
    assert Run(s, Round()) == Run(s2, [Visit(Unlucky), Visit(Unlucky), Visit(Unlucky), Visit(Unlucky)]) by {
      hide Step;
    }
    RoundVisits(s2, spk, budget, n);
  }

  lemma RoundVisits(s: State, spk: Terminal, budget: Octet, n: nat)
    requires s.cap > 0 && s.acmp == [] && s.disc == NewManager && s.pc == Scan(Disconnector, 0) && AllInVain(s.log, n)
    requires s.conn == Manager(if n == 0 then Finish else Failed, 0, [[Req(0, spk, 1, (budget - n) % 256)], [], []])
    ensures StillTrying(Run(s, [Visit(Unlucky), Visit(Unlucky), Visit(Unlucky), Visit(Unlucky)]), spk, budget, n + 1)
  {
    var v := Visit(Unlucky);
    var t := Run(s, [v, v, v]);
    hide Step, AllInVain, Run;
    PassThree(s, n);
    RunSnoc(s, [v, v, v], v);
    assert [v, v, v] + [v] == [v, v, v, v];
    TakenAgain(t, spk, (budget - n) % 256);
    VainAgain(t.log, n);
    OneLess(budget, n);
  }

  lemma VainAgain(h: History, n: nat)
    requires AllInVain(h, n)
    ensures AllInVain(Snoc(h, Tried(Connector, 0, 0, 1, false, Taken, false)), n + 1)
  {}

  lemma OneLess(budget: Octet, n: nat)
    ensures Decrement((budget - n) % 256) == (budget - (n + 1)) % 256
  {}

  /** The three visits of the disconnector's queues. */
  lemma PassThree(s: State, n: nat)
    requires s.disc == NewManager && s.conn.cur == 0 && |s.conn.qs| == PRIORITIES && AllInVain(s.log, n)
    requires s.pc == Scan(Disconnector, 0)
    ensures var v := Visit(Unlucky);
            var t := Run(s, [v, v, v]);
            t == s.(pc := Scan(Connector, 0), log := t.log) && AllInVain(t.log, n)
  {
    hide Step, AllInVain, Run;
    var v := Visit(Unlucky);
    assert Run(s, []) == s by { NoCalls(s); }
    RunSnoc(s, [], v);
    RunSnoc(s, [v], v);
    RunSnoc(s, [v, v], v);
    assert [] + [v] == [v] && [v] + [v] == [v, v] && [v, v] + [v] == [v, v, v];
    RoundPassesBy(s, n, 0);
    RoundPassesBy(Run(s, [v]), n, 1);
    RoundPassesBy(Run(s, [v, v]), n, 2);
  }

  lemma FirstRequest(cap: nat, spk: Terminal, times: int)
    requires cap > 0
    ensures StillTrying(Step(Init(cap), Request(Connector, 0, Some(spk), times, 1, true)), spk, Clip(times), 0)
  {
    var r := Req(0, spk, 1, Clip(times));
    assert PushBack([], cap, r) == [r];
    assert NewManager.qs[0 := [r]] == [[r], [], []];
    assert (Clip(times) - 0) % 256 == Clip(times);
  }

  lemma FirstRun(cap: nat, spk: Terminal, times: int)
    requires cap > 0
    ensures StillTrying(Run(Init(cap), [Request(Connector, 0, Some(spk), times, 1, true)]), spk, Clip(times), 0)
  {
    var l := Request(Connector, 0, Some(spk), times, 1, true);
    FirstRequest(cap, spk, times);
    NoCalls(Init(cap));
    hide Step, Run, StillTrying, Clip;
    RunSnoc(Init(cap), [], l);
    assert [] + [l] == [l];
  }

  /**
   Contrary to what a retry budget suggests, it does not bound commands that are accepted and then
   fail: for every n there is a run in which a request, whatever its budget, is commanded n times
   without success and is still not answered.
   */
  lemma RetriesNeedNotEnd(cap: nat, spk: Terminal, times: int, n: nat) returns (ls: seq<Label>)
    requires cap > 0
    ensures StillTrying(Run(Init(cap), ls), spk, Clip(times), n)
  {
    if n == 0 {
      ls := [Request(Connector, 0, Some(spk), times, 1, true)];
      FirstRun(cap, spk, times);
    } else {
      hide Step, Round, StillTrying, Clip;
      var before := RetriesNeedNotEnd(cap, spk, times, n - 1);
      ls := before + Round();
      RunAppend(Init(cap), before, Round());
      RoundKeepsTrying(Run(Init(cap), before), spk, Clip(times), n - 1);
    }
  }
}
