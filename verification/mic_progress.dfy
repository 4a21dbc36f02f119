/**
 How undisturbed passes of the microphone manager move each manager on: every pass acts on the two
 managers one by one, refused requests leave after as many passes as their budget allows, and a
 machine that waits for a result nobody sends waits for ever.
 */
module MicProgress {
  import opened Words
  import opened MicHistory
  import opened MicModel
  import opened MicSafety
  import opened MicTheorems

  /** What an undisturbed scan leaves of a manager: it deals with its first request, if it has one. */
  function AfterScan(m: Manager, k: Kind, cap: nat, e: Reading): Manager
    requires |m.qs| == PRIORITIES && m.cur < PRIORITIES
  {
    var j := FirstBusy(m, m.cur);
    if j == PRIORITIES then m else AfterVisit(m, k, j, cap, e)
  }

  function AfterVisit(m: Manager, k: Kind, j: nat, cap: nat, e: Reading): Manager
    requires |m.qs| == PRIORITIES && j < PRIORITIES && m.qs[j] != []
  {
    var o := Dispatch(k, m.st, m.qs[j][0], e);
    if o.handled then Manager(o.st, 0, m.qs[j := m.qs[j][1..]])
    else Manager(if o.st.Wait? then Wait else Finish, if o.st.Wait? then j else 0,
                 m.qs[j := PushFront(m.qs[j][1..], cap, m.qs[j][0].(budget := o.budget))])
  }

  lemma VisitMoves(s: State, k: Kind, j: nat, e: Reading)
    requires Shaped(s) && j < PRIORITIES && Of(s, k).qs[j] != []
    ensures var s' := DoVisit(s, k, j, e);
            s' == With(s, k, AfterVisit(Of(s, k), k, j, s.cap, e)).(pc := s'.pc, log := s'.log)
            && (s'.pc == Calling(k) || s'.pc == After(s', k))
  {
    hide Dispatch;
  }

  /** Scan and callback of one manager, when the callback makes no calls. */
  lemma HalfMoves(s: State, k: Kind, e: Reading)
    requires Shaped(s) && Of(s, k).cur < PRIORITIES && s.pc == Scan(k, Of(s, k).cur)
    ensures var s' := HalfPass(s, k, e, []);
            s' == With(s, k, AfterScan(Of(s, k), k, s.cap, e)).(pc := After(s, k), log := s'.log)
  {
    var i := Of(s, k).cur;
    var j := FirstBusy(Of(s, k), i);
    ScanVisitsFirstBusy(s, k, i, e);
    var t := ScanRun(s, k, e);
    hide ScanRun, DoVisit;
    if j < PRIORITIES {
      VisitMoves(s.(pc := Scan(k, j), log := LogEmpty(s.log, k, i, j)), k, j, e);
    }
    NoCalls(t);
    hide Run;
    if t.pc.Calling? {
      assert CallbackRun(t, []) == t.(pc := After(t, k));
    } else {
      assert CallbackRun(t, []) == t;
    }
  }

  /** A pass whose callbacks make no calls acts on each manager by itself, after the ACMP event if
      there is one. */
  lemma PassMoves(s: State, tick: nat, ed: Reading, ec: Reading)
    requires Shaped(s) && s.pc.Idle? && s.conn.cur < PRIORITIES && s.disc.cur < PRIORITIES
    requires DoBegin(s, tick).pc.Scan?
    ensures var s1, s' := DoBegin(s, tick), Pass(s, tick, ed, [], ec, []);
            s' == s1.(conn := AfterScan(s1.conn, Connector, s.cap, ec),
                      disc := AfterScan(s1.disc, Disconnector, s.cap, ed), pc := Idle, log := s'.log)
  {
    var s1 := DoBegin(s, tick);
    BeginShaped(s, tick);
    PassHalves(s, tick, ed, [], ec, []);
    BeginKeepsPlaces(s, tick);
    hide DoBegin, Pass, HalfPass, AfterScan;
    HalfMoves(s1, Disconnector, ed);
    HalfMoves(HalfPass(s1, Disconnector, ed, []), Connector, ec);
  }

  lemma BeginKeepsPlaces(s: State, tick: nat)
    requires DoBegin(s, tick).pc.Scan? && s.pc.Idle?
    ensures var s1 := DoBegin(s, tick);
            s1.pc == Scan(Disconnector, s1.disc.cur) && s1.conn.cur == s.conn.cur && s1.disc.cur == s.disc.cur
              && s1.cap == s.cap
  {}

  // ----- Refused requests -----

  /** The environment lets a command for the request be issued, and refuses it. */
  predicate Refuses(k: Kind, r: Req, e: Reading) {
    Permitted(e.sys, r.permissions) && !AtGoal(k, e.linked) && !e.taken
  }

  /** The machine waits for nothing, r is its first request, in queue j, and a scan under way has not
      gone past it. */
  ghost predicate Front(s: State, k: Kind, j: nat, r: Req) {
    var m := Of(s, k);
    && Shaped(s) && j < PRIORITIES && (m.st.Finish? || m.st.Failed?) && m.cur == 0
    && (forall p :: 0 <= p < j ==> m.qs[p] == [])
    && 0 < |m.qs[j]| <= s.cap && m.qs[j][0] == r
    && (s.pc.Scan? && s.pc.kind == k ==> s.pc.at <= j)
  }

  /** A step that puts nothing in front of the request and does not cancel it. Any other call may be
      made: requests behind it or for the other manager, other cancellations, ACMP events. */
  predicate Leaves(l: Label, k: Kind, j: nat, r: Req) {
    match l
    case Request(k', p, _, _, _, _) => !(k' == k && p < j)
    case Cancel(k', p, user) => !(k' == k && p == j && user == r.spk.address)
    case CancelQueue(k', p) => !(k' == k && p == j)
    case _ => true
  }

  /** As long as the request is not answered, every step leaves it in front, and every dispatch of it
      finds its command refused. */
  predicate Undisturbed(s: State, ls: seq<Label>, k: Kind, j: nat, r: Req)
    requires Shaped(s)
    decreases |ls|
  {
    ls != [] ==>
      && (r.id !in Done(s.log, k, j) ==>
            Leaves(ls[0], k, j, r) && (ls[0].Visit? && s.pc == Scan(k, j) ==> Refuses(k, r, ls[0].reading)))
      && (StepShaped(s, ls[0]); Undisturbed(Step(s, ls[0]), ls[1..], k, j, r))
  }

  lemma {:induction false} UndisturbedStill(s: State, ls: seq<Label>, k: Kind, j: nat, r: Req, budget: Octet)
    requires Shaped(s) && Undisturbed(s, ls, k, j, r)
    ensures Undisturbed(s, ls, k, j, r.(budget := budget))
    decreases |ls|
  {
    if ls != [] {
      StepShaped(s, ls[0]);
      hide Step;
      UndisturbedStill(Step(s, ls[0]), ls[1..], k, j, r, budget);
    }
  }

  /** The scan of machine k is still to come, or to end, in this pass. */
  predicate Due(pc: Pc, k: Kind) {
    match pc
    case Idle => false
    case Scan(k', _) => k' == k || k'.Disconnector?
    case Calling(k') => k'.Disconnector? && k.Connector?
  }

  /** The only dispatch of the request ends the scan of its machine; nothing else does. */
  lemma FrontStep(s: State, l: Label, k: Kind, j: nat, r: Req)
    requires Front(s, k, j, r) && Leaves(l, k, j, r)
    requires l.Visit? && s.pc == Scan(k, j) ==> Refuses(k, r, l.reading)
    ensures var s' := Step(s, l);
            && (l.Visit? && s.pc == Scan(k, j) <==> Due(s.pc, k) && !Due(s'.pc, k))
            && (!(l.Visit? && s.pc == Scan(k, j)) ==> Front(s', k, j, r))
            && (l.Visit? && s.pc == Scan(k, j) ==>
                  if r.budget > 0 then Front(s', k, j, r.(budget := r.budget - 1)) else r.id in Done(s'.log, k, j))
  {
    match l {
      case Request(_, _, _, _, _, _) =>
        hide Refuses;
      case Cancel(k', p, user) =>
        FrontCancel(s, k', p, user, k, j, r);
        hide DoCancel, Refuses;
      case CancelQueue(k', p) =>
        FrontCancelQueue(s, k', p, k, j, r);
        hide DoCancelQueue, Refuses;
      case Visit(e) =>
        if s.pc.Scan? {
          FrontVisit(s, s.pc.kind, s.pc.at, e, k, j, r);
          hide DoVisit;
        }
      case _ =>
        hide Refuses;
    }
  }

  lemma FrontCancel(s: State, k': Kind, p: nat, user: nat, k: Kind, j: nat, r: Req)
    requires Front(s, k, j, r) && Leaves(Cancel(k', p, user), k, j, r)
    ensures Front(DoCancel(s, k', p, user), k, j, r) && DoCancel(s, k', p, user).pc == s.pc
  {}

  lemma FrontCancelQueue(s: State, k': Kind, p: nat, k: Kind, j: nat, r: Req)
    requires Front(s, k, j, r) && Leaves(CancelQueue(k', p), k, j, r)
    ensures Front(DoCancelQueue(s, k', p), k, j, r) && DoCancelQueue(s, k', p).pc == s.pc
  {}

  lemma FrontVisit(s: State, k': Kind, i: nat, e: Reading, k: Kind, j: nat, r: Req)
    requires Front(s, k, j, r) && s.pc == Scan(k', i)
    requires k' == k && i == j ==> Refuses(k, r, e)
    ensures var s' := DoVisit(s, k', i, e);
            && (k' == k && i == j <==> Due(s.pc, k) && !Due(s'.pc, k))
            && (!(k' == k && i == j) ==> Front(s', k, j, r))
            && (k' == k && i == j ==>
                  if r.budget > 0 then Front(s', k, j, r.(budget := r.budget - 1)) else r.id in Done(s'.log, k, j))
  {
    if k' != k { hide Dispatch; }
  }

  /** How many passes began, and how many scans of machine k came to their end. */
  function Begun(s: State, ls: seq<Label>): nat
    requires Shaped(s)
    decreases |ls|
  {
    if ls == [] then 0
    else
      StepShaped(s, ls[0]);
      var s' := Step(s, ls[0]);
      (if s.pc.Idle? && !s'.pc.Idle? then 1 else 0) + Begun(s', ls[1..])
  }

  function Ended(s: State, ls: seq<Label>, k: Kind): nat
    requires Shaped(s)
    decreases |ls|
  {
    if ls == [] then 0
    else
      StepShaped(s, ls[0]);
      var s' := Step(s, ls[0]);
      (if Due(s.pc, k) && !Due(s'.pc, k) then 1 else 0) + Ended(s', ls[1..], k)
  }

  lemma DueStep(s: State, l: Label, k: Kind)
    requires Shaped(s)
    ensures var s' := Step(s, l); !Due(s.pc, k) && Due(s'.pc, k) <==> s.pc.Idle? && !s'.pc.Idle?
  {
    hide DoRequest, DoCancel, DoCancelQueue, Dispatch;
    if IsCall(l) { CallKeepsPc(s, l); }
  }

  /** Every pass begun has the scan of every machine ended, or still to come. */
  lemma {:induction false} ScansOfPasses(s: State, ls: seq<Label>, k: Kind)
    requires Shaped(s)
    ensures Begun(s, ls) + (if Due(s.pc, k) then 1 else 0)
            == Ended(s, ls, k) + (if Due(Run(s, ls).pc, k) then 1 else 0)
    decreases |ls|
  {
    if ls != [] {
      StepShaped(s, ls[0]);
      DueStep(s, ls[0], k);
      hide Step, Due;
      ScansOfPasses(Step(s, ls[0]), ls[1..], k);
    }
  }

  lemma {:induction false} DoneGrows(h: History, h0: History, k: Kind, p: nat, id: nat)
    requires Extends(h, h0) && id in Done(h0, k, p)
    ensures id in Done(h, k, p)
  {
    if h != h0 { DoneGrows(h.init, h0, k, p, id); }
  }

  lemma FrontIsNotDone(s: State, k: Kind, j: nat, r: Req)
    requires Inv(s) && Front(s, k, j, r)
    ensures r.id !in Done(s.log, k, j)
  {
    InvParts(s, k);
    assert QueueInv(s.log, k, j, Of(s, k).qs[j], s.nextId);
    OldestIsNotDone(s.log, k, j, r.id);
  }

  /** After n ended scans the request is in front with its counter n lower, or it has been answered. */
  ghost predicate StandsAt(s: State, k: Kind, j: nat, r: Req, n: nat) {
    && (n <= r.budget ==> Front(s, k, j, r.(budget := r.budget - n)))
    && (n > r.budget <==> r.id in Done(s.log, k, j))
  }

  lemma StandsAtStart(s: State, k: Kind, j: nat, r: Req)
    requires Inv(s) && Front(s, k, j, r)
    ensures StandsAt(s, k, j, r, 0)
  {
    FrontIsNotDone(s, k, j, r);
    assert r.(budget := r.budget - 0) == r;
    hide Inv, Front;
  }

  lemma StandsOn(s: State, k: Kind, j: nat, r: Req, n: nat)
    requires r.budget > 0 && StandsAt(s, k, j, r.(budget := r.budget - 1), n)
    ensures StandsAt(s, k, j, r, n + 1)
  {
    hide Front;
    var r1 := r.(budget := r.budget - 1);
    assert n <= r1.budget ==> r1.(budget := r1.budget - n) == r.(budget := r.budget - (n + 1));
  }

  /** The first step of an undisturbed run. */
  lemma FirstStep(s: State, ls: seq<Label>, k: Kind, j: nat, r: Req)
    requires Inv(s) && Front(s, k, j, r) && ls != [] && Shaped(s) && Undisturbed(s, ls, k, j, r)
    ensures var l, s1 := ls[0], Step(s, ls[0]);
            && Shaped(s1) && Inv(s1) && Undisturbed(s1, ls[1..], k, j, r)
            && Run(s, ls) == Run(s1, ls[1..])
            && (if Due(s.pc, k) && !Due(s1.pc, k) then
                  (if r.budget > 0 then Front(s1, k, j, r.(budget := r.budget - 1)) else r.id in Done(s1.log, k, j))
                  && Ended(s, ls, k) == Ended(s1, ls[1..], k) + 1
                else Front(s1, k, j, r) && Ended(s, ls, k) == Ended(s1, ls[1..], k))
  {
    FrontIsNotDone(s, k, j, r);
    StepShaped(s, ls[0]);
    StepKeepsInv(s, ls[0]);
    FrontStep(s, ls[0], k, j, r);
    hide Inv, Front, Step, Leaves, Refuses, Due;
  }

  lemma {:induction false} ScansSettle(s: State, ls: seq<Label>, k: Kind, j: nat, r: Req)
    requires Inv(s) && Front(s, k, j, r) && Shaped(s) && Undisturbed(s, ls, k, j, r)
    ensures StandsAt(Run(s, ls), k, j, r, Ended(s, ls, k))
    decreases |ls|
  {
    hide *;
    if ls == [] {
      StandsAtStart(s, k, j, r);
      NoSteps(s, k);
    } else {
      FirstStep(s, ls, k, j, r);
      var s1 := Step(s, ls[0]);
      if !(Due(s.pc, k) && !Due(s1.pc, k)) {
        ScansSettle(s1, ls[1..], k, j, r);
      } else if r.budget > 0 {
        UndisturbedStill(s1, ls[1..], k, j, r, r.budget - 1);
        ScansSettle(s1, ls[1..], k, j, r.(budget := r.budget - 1));
        StandsOn(Run(s, ls), k, j, r, Ended(s1, ls[1..], k));
      } else {
        RunExtends(s1, ls[1..]);
        DoneGrows(Run(s, ls).log, s1.log, k, j, r.id);
        StandsNoMore(Run(s, ls), k, j, r, Ended(s, ls, k));
      }
    }
  }

  lemma NoSteps(s: State, k: Kind)
    requires Shaped(s)
    ensures Run(s, []) == s && Ended(s, [], k) == 0
  {}

  lemma StandsNoMore(s: State, k: Kind, j: nat, r: Req, n: nat)
    requires n > r.budget && r.id in Done(s.log, k, j)
    ensures StandsAt(s, k, j, r, n)
  {
    hide Front;
  }

  /**
   Progress: take any run between two moments outside a pass, from a reachable state in which a machine
   waits for nothing and r, of budget b, is its first request. Client calls, calls of callbacks and ACMP
   events may fall anywhere, and the other manager may do what it likes, as long as nothing is put
   in front of r and r is not cancelled while it is queued. If its commands are refused, then after n
   passes it is still in front, with its counter at b - n, when n is at most b, and it has been answered
   if and only if n is greater.
   */
  lemma RefusalsSettle(s: State, ls: seq<Label>, k: Kind, j: nat, r: Req)
    requires Inv(s) && Front(s, k, j, r) && Shaped(s) && Undisturbed(s, ls, k, j, r)
    requires s.pc.Idle? && Run(s, ls).pc.Idle?
    ensures var s', n := Run(s, ls), Begun(s, ls);
            && (n <= r.budget ==> Front(s', k, j, r.(budget := r.budget - n)))
            && (r.id in Done(s'.log, k, j) <==> n > r.budget)
  {
    hide Inv, Front, Undisturbed, Run, Begun, Ended;
    ScansSettle(s, ls, k, j, r);
    ScansOfPasses(s, ls, k);
  }

  // ----- A result that never comes -----

  /** No ACMP event for machine k is waiting or arrives. */
  ghost predicate Deaf(s: State, ls: seq<Label>, k: Kind) {
    && (forall evt :: evt in s.acmp ==> !Addressed(k, evt))
    && (forall l :: l in ls && l.PostAcmp? ==> !Addressed(k, l.evt))
  }

  /** What a machine has done: its commands and its answers. */
  function Deeds(h: History, k: Kind): nat {
    match h
    case Nil => 0
    case Snoc(h', e) =>
      Deeds(h', k) + if (e.Tried? && e.kind == k && !e.reply.NotSent?) || (e.Answered? && e.kind == k) then 1 else 0
  }

  lemma {:induction false} LogCancelsDeeds(h: History, k': Kind, p: nat, q: seq<Req>, k: Kind)
    ensures Deeds(LogCancels(h, k', p, q), k) == Deeds(h, k)
    decreases |q|
  {
    if q != [] { LogCancelsDeeds(Snoc(h, Cancelled(k', p, q[0].id)), k', p, q[1..], k); }
  }

  lemma DeafStep(s: State, l: Label, k: Kind)
    requires Shaped(s) && Of(s, k).st.Wait? && Deaf(s, [l], k)
    ensures var s' := Step(s, l);
            Of(s', k).st.Wait? && Deeds(s'.log, k) == Deeds(s.log, k) && Deaf(s', [], k)
  {
    assert l in [l];
    if l.Begin? {
      if s.pc.Idle? { DeafBegin(s, l.tick, k); }
      hide DoBegin, Deaf;
    } else if l.Visit? {
      if s.pc.Scan? { DeafVisit(s, s.pc.kind, s.pc.at, l.reading, k); }
      hide DoVisit, Deaf;
    } else {
      DeafCall(s, l, k);
    }
  }

  lemma DeafCall(s: State, l: Label, k: Kind)
    requires Shaped(s) && Of(s, k).st.Wait? && Deaf(s, [l], k) && !l.Begin? && !l.Visit?
    ensures var s' := Step(s, l);
            Of(s', k).st.Wait? && Deeds(s'.log, k) == Deeds(s.log, k) && Deaf(s', [], k)
  {
    assert l in [l];
    if l.CancelQueue? && l.prior < PRIORITIES {
      LogCancelsDeeds(s.log, l.kind, l.prior, Of(s, l.kind).qs[l.prior][0..], k);
    }
    hide LogCancels;
  }

  lemma DeafBegin(s: State, tick: nat, k: Kind)
    requires Of(s, k).st.Wait? && Deaf(s, [], k)
    ensures var s' := DoBegin(s, tick);
            Of(s', k).st.Wait? && Deeds(s'.log, k) == Deeds(s.log, k) && Deaf(s', [], k)
  {
    assert Deeds(Snoc(s.log, PassStart), k) == Deeds(s.log, k);
    if s.acmp != [] {
      var h1 := LogAcmp(Snoc(s.log, PassStart), Connector, s.conn.st, s.acmp[0]);
      assert Deeds(h1, k) == Deeds(s.log, k);
    }
  }

  lemma DeafVisit(s: State, k': Kind, i: nat, e: Reading, k: Kind)
    requires Shaped(s) && Of(s, k).st.Wait? && Deaf(s, [], k)
    ensures var s' := DoVisit(s, k', i, e);
            Of(s', k).st.Wait? && Deeds(s'.log, k) == Deeds(s.log, k) && Deaf(s', [], k)
  {
    if i < PRIORITIES && Of(s, k').qs[i] != [] {
      var o := Dispatch(k', Of(s, k').st, Of(s, k').qs[i][0], e);
      var t := Snoc(s.log, TriedEntry(k', i, Of(s, k').qs[i][0], e, o));
      assert k' == k ==> !o.handled && o.st.Wait? && o.reply.NotSent?;
      assert Deeds(t, k) == Deeds(s.log, k);
      hide Dispatch;
    }
  }

  /** A machine that waits while no event for it is queued or arrives commands nothing more and
      answers nothing more, however the run goes on. */
  lemma {:induction false} WaitsForEver(s: State, ls: seq<Label>, k: Kind)
    requires Inv(s) && Of(s, k).st.Wait? && Deaf(s, ls, k)
    ensures Of(Run(s, ls), k).st.Wait? && Deeds(Run(s, ls).log, k) == Deeds(s.log, k)
    decreases |ls|
  {
    if ls != [] {
      assert forall l :: l in [ls[0]] ==> l in ls;
      DeafStep(s, ls[0], k);
      StepKeepsInv(s, ls[0]);
      WaitsForEver(Step(s, ls[0]), ls[1..], k);
    }
  }
}
