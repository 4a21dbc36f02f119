/**
 Whose result is it? The dispatchers credit an ACMP result to the request whose command is in
 flight, without looking at the terminal the event names. Over every run a result is the request's
 own exactly when the events that arrive while a machine waits name the terminal it waits for.
 */
module MicResults {
  import opened Words
  import opened MicHistory
  import opened MicModel
  import opened MicSafety
  import opened MicTheorems

  /** Every result credited to a request of this manager names the terminal of that request. */
  predicate OwnResults(h: History, k: Kind) {
    h.Nil? ||
    (OwnResults(h.init, k) &&
     (h.last.Heard? && h.last.kind == k ==>
        var f := InFlight(h.init, k);
        f.Waiting? && h.last.talker == Target(h.init, k, f.prior, f.id).entityId))
  }

  /** If the step gives machine k a result, the event names the terminal of the request at the head
      of its current queue. */
  predicate Named(s: State, l: Label, k: Kind)
    requires Shaped(s)
  {
    var m := Of(s, k);
    l.Begin? && s.pc.Idle? && s.acmp != [] && m.st.Wait? && Addressed(k, s.acmp[0])
    ==> m.cur < PRIORITIES && m.qs[m.cur] != [] && s.acmp[0].talkerId == m.qs[m.cur][0].spk.entityId
  }

  /** So does every step of a run. */
  predicate EventsNamed(s: State, ls: seq<Label>, k: Kind)
    requires Shaped(s)
    decreases |ls|
  {
    ls == [] || (Named(s, ls[0], k) && (StepShaped(s, ls[0]); EventsNamed(Step(s, ls[0]), ls[1..], k)))
  }

  // ----- The exact condition -----

  lemma {:induction false} LogCancelsOwn(h: History, k': Kind, p: nat, q: seq<Req>, k: Kind)
    ensures OwnResults(LogCancels(h, k', p, q), k) <==> OwnResults(h, k)
    decreases |q|
  {
    if q != [] { LogCancelsOwn(Snoc(h, Cancelled(k', p, q[0].id)), k', p, q[1..], k); }
  }

  /** A waiting machine waits for the head of its current queue, whose terminal the history knows. */
  lemma WaitingFor(s: State, k: Kind)
    requires Inv(s) && Of(s, k).st.Wait?
    ensures var m := Of(s, k);
            && Shaped(s) && m.cur < PRIORITIES && m.qs[m.cur] != []
            && InFlight(s.log, k) == Waiting(m.cur, m.qs[m.cur][0].id)
            && Target(s.log, k, m.cur, m.qs[m.cur][0].id) == m.qs[m.cur][0].spk
  {
    InvParts(s, k);
    var m := Of(s, k);
    assert QueueInv(s.log, k, m.cur, m.qs[m.cur], s.nextId);
    assert FieldsAgree(s.log, k, m.cur, m.qs[m.cur][0]);
  }

  /** The head of a pass credits the event to the command in flight, and to nothing else. */
  lemma BeginHears(s: State, tick: nat, k: Kind)
    requires Inv(s) && s.pc.Idle? && s.acmp != []
    ensures var h, evt := DoBegin(s, tick).log, s.acmp[0];
            && (OwnResults(h, k) <==> OwnResults(s.log, k) && Named(s, Begin(tick), k))
            && (Of(s, k).st.Wait? && Addressed(k, evt) ==>
                  InFlight(h, k) == Resolved(Of(s, k).cur, Of(s, k).qs[Of(s, k).cur][0].id,
                                             Succeeds(k, evt.sig, evt.status), evt.talkerId))
  {
    var evt, h0 := s.acmp[0], Snoc(s.log, PassStart);
    var h1 := LogAcmp(h0, Connector, s.conn.st, evt);
    if Of(s, k).st.Wait? {
      WaitingFor(s, k);
      var f := InFlight(s.log, k);
      assert InFlight(h0, k) == f && Target(h0, k, f.prior, f.id) == Target(s.log, k, f.prior, f.id);
      hide Inv;
      assert k.Disconnector?
        ==> InFlight(h1, k) == f && Target(h1, k, f.prior, f.id) == Target(s.log, k, f.prior, f.id);
    }
    assert OwnResults(h0, k) <==> OwnResults(s.log, k);
    assert k.Disconnector? ==> (OwnResults(h1, k) <==> OwnResults(s.log, k));
  }

  lemma OwnStep(s: State, l: Label, k: Kind)
    requires Inv(s) && Shaped(s)
    ensures OwnResults(Step(s, l).log, k) <==> OwnResults(s.log, k) && Named(s, l, k)
  {
    if l.Begin? {
      if s.pc.Idle? {
        assert OwnResults(Snoc(s.log, PassStart), k) <==> OwnResults(s.log, k);
        if s.acmp != [] { BeginHears(s, l.tick, k); }
      }
      hide LogAcmp, Inv, InFlight, Target;
    } else {
      hide Inv;
      OwnElsewhere(s, l, k);
    }
  }

  /** Only the head of a pass hears anything. */
  lemma OwnElsewhere(s: State, l: Label, k: Kind)
    requires Shaped(s) && !l.Begin?
    ensures OwnResults(Step(s, l).log, k) <==> OwnResults(s.log, k)
  {
    hide Dispatch, InFlight, Target, LogCancels;
    if l.CancelQueue? && l.prior < PRIORITIES {
      LogCancelsOwn(s.log, l.kind, l.prior, Of(s, l.kind).qs[l.prior][0..], k);
    } else if l.Visit? && s.pc.Scan? && s.pc.at < PRIORITIES && Of(s, s.pc.kind).qs[s.pc.at] != [] {
      var r := Of(s, s.pc.kind).qs[s.pc.at][0];
      var t := Snoc(s.log, TriedEntry(s.pc.kind, s.pc.at, r, l.reading,
        Dispatch(s.pc.kind, Of(s, s.pc.kind).st, r, l.reading)));
      assert OwnResults(t, k) <==> OwnResults(s.log, k);
    }
  }

  lemma {:induction false} RunOwn(s: State, ls: seq<Label>, k: Kind)
    requires Inv(s) && Shaped(s)
    ensures OwnResults(Run(s, ls).log, k) <==> OwnResults(s.log, k) && EventsNamed(s, ls, k)
    decreases |ls|
  {
    hide Inv, Named, OwnResults;
    if ls != [] {
      OwnStep(s, ls[0], k);
      StepKeepsInv(s, ls[0]);
      StepShaped(s, ls[0]);
      RunOwn(Step(s, ls[0]), ls[1..], k);
    }
  }

  /** In every run every result is the request's own if and only if every event a machine consumes
      while it waits names the terminal of the request it waits for. */
  lemma ResultsAreOwn(cap: nat, ls: seq<Label>, k: Kind)
    ensures OwnResults(Run(Init(cap), ls).log, k) <==> EventsNamed(Init(cap), ls, k)
  {
    InitInv(cap);
    RunOwn(Init(cap), ls, k);
  }

  // ----- What a callback says -----

  lemma {:induction false} FlightIsAccepted(h: History, k: Kind)
    requires SafeHistory(h) && !InFlight(h, k).Free?
    ensures InFlight(h, k).id in Accepted(h, k, InFlight(h, k).prior)
  {
    if h.Snoc? && !InFlight(h.init, k).Free? { FlightIsAccepted(h.init, k); }
  }

  /** A command in flight keeps its terminal: no later request bears its number. */
  lemma {:induction false} ResolvedIsOwn(h: History, k: Kind)
    requires SafeHistory(h) && OwnResults(h, k) && InFlight(h, k).Resolved?
    ensures var f := InFlight(h, k);
            f.talker == Target(h, k, f.prior, f.id).entityId
  {
    if !(h.last.Heard? && h.last.kind == k && InFlight(h.init, k).Waiting?) {
      ResolvedIsOwn(h.init, k);
      FlightIsAccepted(h.init, k);
    }
  }

  lemma {:induction false} OwnBefore(h0: History, e: Entry, h: History, k: Kind)
    requires Precedes(h0, e, h) && OwnResults(h, k)
    ensures OwnResults(h0, k)
  {
    if h != Snoc(h0, e) { OwnBefore(h0, e, h.init, k); }
  }

  /** A result with status 0 was credited to the request that is being answered. */
  predicate Succeeded(h0: History, e: Entry)
    requires e.Answered?
  {
    var f := InFlight(h0, e.kind);
    f.Resolved? && f.ok && f.prior == e.prior && f.id == e.id
  }

  /**
   In every run: after a credited success a callback says true exactly when the budget counter is
   not 0 or the terminal is in the wanted state at that moment; in every other case it says what the
   state is. It never says false of a terminal in the wanted state. And when the events are named,
   the success it may rest on was reported for the request's own terminal. The callback gets what is said,
   the terminal the request was accepted for, and its permissions.
   */
  lemma CallbacksTellTheTruth(cap: nat, ls: seq<Label>, h0: History, e: Entry)
    requires Precedes(h0, e, Run(Init(cap), ls).log) && e.Answered?
    ensures Succeeded(h0, e) ==> (e.told <==> Remaining(h0, e.kind, e.prior, e.id) != 0 || AtGoal(e.kind, e.linked))
    ensures !Succeeded(h0, e) ==> (e.told <==> AtGoal(e.kind, e.linked))
    ensures AtGoal(e.kind, e.linked) ==> e.told
    ensures Succeeded(h0, e) && EventsNamed(Init(cap), ls, e.kind) ==>
              InFlight(h0, e.kind).talker == Target(h0, e.kind, e.prior, e.id).entityId
    ensures e.delivered.Some? ==>
              e.delivered.value == Delivery(e.delivered.value.callback, e.told, Target(h0, e.kind, e.prior, e.id),
                                            Entitled(h0, e.kind, e.prior, e.id))
  {
    EveryRunIsSafe(cap, ls);
    EntriesAreSafe(h0, e, Run(Init(cap), ls).log);
    if Succeeded(h0, e) && EventsNamed(Init(cap), ls, e.kind) {
      ResultsAreOwn(cap, ls, e.kind);
      OwnBefore(h0, e, Run(Init(cap), ls).log, e.kind);
      ResolvedIsOwn(h0, e.kind);
    }
  }

  // ----- Where it goes wrong -----

  /** Connected, connected still after the answer, and every command accepted. */
  const Stuck := Reading(1, true, true, true)

  /** A disconnector that was given the only request, had its command accepted, and is idle till the
      next pass. */
  ghost predicate Sent(s: State, t: Terminal, b: Octet) {
    && Inv(s) && s.cap > 0 && s.pc.Idle? && s.acmp == [] && s.conn == NewManager
    && s.disc == Manager(Wait, 0, [[Req(0, t, 1, b)], [], []])
  }

  lemma RunShaped(cap: nat, ls: seq<Label>)
    ensures Inv(Run(Init(cap), ls))
  {
    InitInv(cap);
    RunKeepsInv(Init(cap), ls);
  }

  lemma SendFirst(cap: nat, t: Terminal, times: int)
    requires cap > 0
    ensures var s := Step(Step(Step(Init(cap), Request(Disconnector, 0, Some(t), times, 1, true)), Begin(PERIOD_MS)),
            Visit(Stuck));
            && s.cap == cap && s.acmp == [] && s.conn == NewManager && s.pc == Scan(Connector, 0)
            && s.disc == Manager(Wait, 0, [[Req(0, t, 1, Decrement(Clip(times)))], [], []])
  {
    var r := Req(0, t, 1, Clip(times));
    assert PushBack([], cap, r) == [r];
    assert NewManager.qs[0 := [r]] == [[r], [], []];
    var s1 := Step(Init(cap), Request(Disconnector, 0, Some(t), times, 1, true));
    assert s1.disc == Manager(Finish, 0, [[r], [], []]) && s1.acmp == [] && s1.conn == NewManager && s1.cap == cap;
    var s2 := Step(s1, Begin(PERIOD_MS));
    assert s2.disc == s1.disc && s2.pc == Scan(Disconnector, 0) && s2.conn == NewManager && s2.cap == cap;
    var r' := Req(0, t, 1, Decrement(Clip(times)));
    assert 1 & 1 != 0 as bv32;
    assert PushFront([r][1..], cap, r') == [r'];
    assert [[r], [], []][0 := [r']] == [[r'], [], []];
    hide Clip;
  }

  /** The connector's three empty queues. */
  lemma PassOver(s: State, i: nat)
    requires Shaped(s) && s.conn == NewManager && s.pc == Scan(Connector, i) && i < PRIORITIES
    ensures var s' := Step(s, Visit(Stuck));
            s' == s.(pc := if i + 1 < PRIORITIES then Scan(Connector, i + 1) else Idle, log := s'.log)
  {}

  lemma SendRun(cap: nat, t: Terminal, times: int) returns (ls: seq<Label>)
    requires cap > 0
    ensures Sent(Run(Init(cap), ls), t, Decrement(Clip(times)))
  {
    var v := Visit(Stuck);
    ls := [Request(Disconnector, 0, Some(t), times, 1, true), Begin(PERIOD_MS), v];
    SendFirst(cap, t, times);
    hide Step, Run, Clip;
    var s0 := Init(cap);
    NoCalls(s0);
    RunSnoc(s0, [], ls[0]);
    RunSnoc(s0, [ls[0]], ls[1]);
    RunSnoc(s0, [ls[0], ls[1]], v);
    assert [] + [ls[0]] == [ls[0]] && [ls[0]] + [ls[1]] == [ls[0], ls[1]] && [ls[0], ls[1]] + [v] == ls;
    PassOver(Run(s0, ls), 0);
    RunSnoc(s0, ls, v);
    PassOver(Run(s0, ls + [v]), 1);
    RunSnoc(s0, ls + [v], v);
    PassOver(Run(s0, ls + [v] + [v]), 2);
    RunSnoc(s0, ls + [v] + [v], v);
    ls := ls + [v] + [v] + [v];
    RunShaped(cap, ls);
  }

  /** The response arrives, and the next pass begins. */
  lemma ResponseRun(cap: nat, t: Terminal, times: int, evt: AcmpEvt) returns (ls: seq<Label>)
    requires cap > 0 && evt.sig.DisconnectRxResponse? && evt.status == 0
    ensures var s := Run(Init(cap), ls);
            && Inv(s) && s.pc == Scan(Disconnector, 0)
            && s.disc == Manager(Success, 0, [[Req(0, t, 1, Decrement(Clip(times)))], [], []])
            && InFlight(s.log, Disconnector) == Resolved(0, 0, true, evt.talkerId)
            && (EventsNamed(Init(cap), ls, Disconnector) ==> evt.talkerId == t.entityId)
  {
    var before := SendRun(cap, t, times);
    var s := Run(Init(cap), before);
    ls := before + [PostAcmp(evt)] + [Begin(0)];
    RunSnoc(Init(cap), before, PostAcmp(evt));
    RunSnoc(Init(cap), before + [PostAcmp(evt)], Begin(0));
    var s1 := Step(s, PostAcmp(evt));
    assert s1 == s.(acmp := [evt]);
    RunShaped(cap, before + [PostAcmp(evt)]);
    RunShaped(cap, ls);
    BeginHears(s1, 0, Disconnector);
    ResultsAreOwn(cap, ls, Disconnector);
    hide Inv, Clip, OwnResults, InFlight, EventsNamed;
  }

  /** The answer that follows. */
  lemma AnswerAfterSuccess(cap: nat, s: State, ls: seq<Label>, t: Terminal, b: Octet) returns (h0: History, e: Entry)
    requires s == Run(Init(cap), ls) && Inv(s) && s.pc == Scan(Disconnector, 0)
    requires s.disc == Manager(Success, 0, [[Req(0, t, 1, b)], [], []])
    ensures Precedes(h0, e, Run(Init(cap), ls + [Visit(Stuck)]).log)
    ensures e.Answered? && e.kind == Disconnector && e.prior == 0 && e.id == 0 && e.linked && (e.told <==> b > 0)
    ensures InFlight(h0, Disconnector) == InFlight(s.log, Disconnector)
    ensures Target(h0, Disconnector, 0, 0) == Target(s.log, Disconnector, 0, 0)
  {
    RunSnoc(Init(cap), ls, Visit(Stuck));
    var s' := Step(s, Visit(Stuck));
    h0, e := s'.log.init, s'.log.last;
  }

  /** A result that was never the request's: for any two terminals there is a run in which one is
      reported disconnected because a response for the other arrived, while it is connected. */
  lemma AnothersResultIsBelieved(cap: nat, a: Terminal, b: Terminal) returns (ls: seq<Label>, h0: History, e: Entry)
    requires cap > 0 && a.entityId != b.entityId
    ensures Precedes(h0, e, Run(Init(cap), ls).log) && e.Answered?
    ensures e.told && e.kind == Disconnector && e.linked && Target(h0, e.kind, e.prior, e.id) == a
    ensures Succeeded(h0, e) && InFlight(h0, e.kind).talker == b.entityId
    ensures !EventsNamed(Init(cap), ls, e.kind)
  {
    var evt := AcmpEvt(DisconnectRxResponse, 0, b.entityId, 0, 0, 0, 0);
    ls := ResponseRun(cap, a, 2, evt);
    var s := Run(Init(cap), ls);
    TargetOfHead(s, a, 1);
    h0, e := AnswerAfterSuccess(cap, s, ls, a, 1);
    ls := ls + [Visit(Stuck)];
    if EventsNamed(Init(cap), ls, Disconnector) {
      CallbacksTellTheTruth(cap, ls, h0, e);
    }
    hide Inv, EventsNamed;
  }

  lemma TargetOfHead(s: State, t: Terminal, b: Octet)
    requires Inv(s) && s.disc.qs == [[Req(0, t, 1, b)], [], []]
    ensures Target(s.log, Disconnector, 0, 0) == t
  {
    assert QueueInv(s.log, Disconnector, 0, s.disc.qs[0], s.nextId);
    assert FieldsAgree(s.log, Disconnector, 0, s.disc.qs[0][0]);
  }

  /** A success that is not believed: a request of budget 1 whose only command was accepted and
      answered with status 0 shows a counter of 0, and is reported as failed when the terminal is not
      in the wanted state at that moment. */
  lemma SuccessIsNotBelieved(cap: nat, a: Terminal) returns (ls: seq<Label>, h0: History, e: Entry)
    requires cap > 0
    ensures Precedes(h0, e, Run(Init(cap), ls).log) && e.Answered? && Succeeded(h0, e) && !e.told
    ensures Target(h0, e.kind, e.prior, e.id) == a && InFlight(h0, e.kind).talker == a.entityId
    ensures Remaining(h0, e.kind, e.prior, e.id) == 0
  {
    var evt := AcmpEvt(DisconnectRxResponse, 0, a.entityId, 0, 0, 0, 0);
    ls := ResponseRun(cap, a, 1, evt);
    var s := Run(Init(cap), ls);
    TargetOfHead(s, a, 0);
    h0, e := AnswerAfterSuccess(cap, s, ls, a, 0);
    ls := ls + [Visit(Stuck)];
    CallbacksTellTheTruth(cap, ls, h0, e);
    hide Inv;
  }

  // ----- Whom an answer reaches -----

  /** The function registered for a queue by the latest call that says anything of it. */
  function LastRegistered(ls: seq<Label>, k: Kind, p: nat): Option<nat> {
    if ls == [] then None
    else
      var l, before := ls[|ls| - 1], ls[..|ls| - 1];
      if l.Register? && l.kind == k && l.prior == p then (if l.callback == 0 then None else Some(l.callback))
      else if l.Deregister? && l.kind == k && l.prior == p then None
      else LastRegistered(before, k, p)
  }

  lemma OthersRegisterNothing(s: State, l: Label)
    requires Shaped(s) && !l.Register? && !l.Deregister?
    ensures Step(s, l).callbacks == s.callbacks
  {
    hide Dispatch;
  }

  lemma {:induction false} RegisteredIsLast(cap: nat, ls: seq<Label>, k: Kind, p: nat)
    requires p < PRIORITIES
    ensures Registered(Run(Init(cap), ls), k, p) == LastRegistered(ls, k, p)
    decreases |ls|
  {
    if ls != [] {
      var before, l := ls[..|ls| - 1], ls[|ls| - 1];
      RegisteredIsLast(cap, before, k, p);
      RunSnoc(Init(cap), before, l);
      assert before + [l] == ls;
      hide Run;
      if !l.Register? && !l.Deregister? {
        OthersRegisterNothing(Run(Init(cap), before), l);
        hide Step;
      }
    }
  }

  /** In every run an answer goes to the function registered last for its queue, or to none if that
      was the null function or has been removed. */
  lemma AnswersReachTheLast(cap: nat, ls: seq<Label>, k: Kind, i: nat, e: Reading)
    requires var s := Run(Init(cap), ls); s.pc == Scan(k, i) && i < PRIORITIES && VisitResult(s, k, i, e).Settled?
    ensures var h := Run(Init(cap), ls + [Visit(e)]).log;
            && h.Snoc? && h.last.Answered? && h.last.kind == k && h.last.prior == i
            && (match LastRegistered(ls, k, i)
                case None => h.last.delivered == None
                case Some(f) => h.last.delivered.Some? && h.last.delivered.value.callback == f)
  {
    RunSnoc(Init(cap), ls, Visit(e));
    RegisteredIsLast(cap, ls, k, i);
    hide Run, Dispatch;
  }
}
