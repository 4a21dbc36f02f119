/**
 What each step does to the manager, in every state a run can reach, said of the fields themselves:
 which command a dispatch issues and what it answers, what a response or a timeout makes of a waiting
 machine, what a request adds, what a cancellation takes away.
 */
module MicEffects {
  import opened Words
  import opened MicHistory
  import opened MicModel
  import opened MicSafety
  import opened MicTheorems
  import opened MicResults

  lemma Reachable(cap: nat, ls: seq<Label>)
    ensures Inv(Run(Init(cap), ls)) && Run(Init(cap), ls).cap == cap
  {
    InitInv(cap);
    RunKeepsInv(Init(cap), ls);
    CapStays(Init(cap), ls);
  }

  lemma StepKeepsCap(s: State, l: Label)
    requires Shaped(s)
    ensures Step(s, l).cap == s.cap
  {
    hide Dispatch;
  }

  lemma {:induction false} CapStays(s: State, ls: seq<Label>)
    requires Shaped(s)
    ensures Run(s, ls).cap == s.cap
    decreases |ls|
  {
    if ls != [] {
      StepShaped(s, ls[0]);
      StepKeepsCap(s, ls[0]);
      hide Step;
      CapStays(Step(s, ls[0]), ls[1..]);
    }
  }

  // ----- ACMP events -----

  /** What an event makes of a machine that waits for a connect, or for a disconnect. */
  function AfterConnectEvent(evt: AcmpEvt): Machine {
    match evt.sig
    case ConnectRxResponse => if evt.status == 0 then Success else Failed
    case ConnectTimeout => Failed
    case DisconnectRxResponse => Wait
    case DisconnectTimeout => Wait
  }

  function AfterDisconnectEvent(evt: AcmpEvt): Machine {
    match evt.sig
    case DisconnectRxResponse => if evt.status == 0 then Success else Failed
    case DisconnectTimeout => Failed
    case ConnectRxResponse => Wait
    case ConnectTimeout => Wait
  }

  /** A pass that finds an event takes the oldest. A waiting machine ends in success exactly on the
      response of its own kind with status 0, in failure on any other status and on its own timeout, and
      is unmoved by the other kind; a machine that does not wait is unmoved by every event. */
  lemma AcmpEffect(cap: nat, ls: seq<Label>, tick: nat)
    requires Run(Init(cap), ls).pc.Idle? && Run(Init(cap), ls).acmp != []
    ensures var s, s' := Run(Init(cap), ls), Run(Init(cap), ls + [Begin(tick)]);
            var evt := s.acmp[0];
            && s'.acmp == s.acmp[1..] && s'.pc == Scan(Disconnector, s.disc.cur)
            && s'.conn == s.conn.(st := if s.conn.st.Wait? then AfterConnectEvent(evt) else s.conn.st)
            && s'.disc == s.disc.(st := if s.disc.st.Wait? then AfterDisconnectEvent(evt) else s.disc.st)
            && s'.lastTick == s.lastTick && s'.callbacks == s.callbacks && s'.nextId == s.nextId
  {
    RunSnoc(Init(cap), ls, Begin(tick));
    hide Run;
  }

  /** A pass that finds no event begins exactly when 100 ms have gone by on the wrapping tick since the tick of
      the last such pass, and then remembers its own tick; nothing else changes. */
  lemma TickEffect(cap: nat, ls: seq<Label>, tick: nat)
    requires Run(Init(cap), ls).pc.Idle? && Run(Init(cap), ls).acmp == []
    ensures var s, s' := Run(Init(cap), ls), Run(Init(cap), ls + [Begin(tick)]);
            if (tick - s.lastTick) % 0x1_0000_0000 >= 100 then
              s' == s.(lastTick := tick, pc := Scan(Disconnector, s.disc.cur), log := s'.log)
            else s' == s
  {
    RunSnoc(Init(cap), ls, Begin(tick));
    hide Run;
  }

  /** What the history then knows of the command of a waiting machine. */
  lemma AcmpResult(cap: nat, ls: seq<Label>, tick: nat, k: Kind)
    requires Run(Init(cap), ls).pc.Idle? && Run(Init(cap), ls).acmp != [] && Of(Run(Init(cap), ls), k).st.Wait?
    ensures var s, s' := Run(Init(cap), ls), Run(Init(cap), ls + [Begin(tick)]);
            var evt, f := s.acmp[0], InFlight(s.log, k);
            && f.Waiting?
            && InFlight(s'.log, k) == (if Of(s', k).st.Wait? then f
                                       else Resolved(f.prior, f.id, Of(s', k).st.Success?, evt.talkerId))
  {
    var s := Run(Init(cap), ls);
    Reachable(cap, ls);
    InvParts(s, k);
    RunSnoc(Init(cap), ls, Begin(tick));
    ResultLogged(s, tick, k);
    hide Run, DoBegin, Inv;
  }

  lemma ResultLogged(s: State, tick: nat, k: Kind)
    requires s.acmp != [] && Of(s, k).st.Wait? && InFlight(s.log, k).Waiting?
    ensures var s', f := DoBegin(s, tick), InFlight(s.log, k);
            InFlight(s'.log, k) == (if Of(s', k).st.Wait? then f
                                    else Resolved(f.prior, f.id, Of(s', k).st.Success?, s.acmp[0].talkerId))
  {
    var evt, f := s.acmp[0], InFlight(s.log, k);
    var h0 := Snoc(s.log, PassStart);
    assert InFlight(h0, k) == f;
    var h1 := LogAcmp(h0, Connector, s.conn.st, evt);
    assert k.Disconnector? ==> InFlight(h1, k) == f;
  }

  /** The events of a run that were taken by passes, and those that found room when they were posted. */
  function EventsTaken(s: State, ls: seq<Label>): seq<AcmpEvt>
    requires Shaped(s)
    decreases |ls|
  {
    if ls == [] then []
    else
      StepShaped(s, ls[0]);
      (if ls[0].Begin? && s.pc.Idle? && s.acmp != [] then [s.acmp[0]] else []) + EventsTaken(Step(s, ls[0]), ls[1..])
  }

  function EventsAccepted(s: State, ls: seq<Label>): seq<AcmpEvt>
    requires Shaped(s)
    decreases |ls|
  {
    if ls == [] then []
    else
      StepShaped(s, ls[0]);
      (if ls[0].PostAcmp? && |s.acmp| < s.cap then [ls[0].evt] else []) + EventsAccepted(Step(s, ls[0]), ls[1..])
  }

  lemma EventStep(s: State, l: Label)
    requires Shaped(s)
    ensures s.acmp + (if l.PostAcmp? && |s.acmp| < s.cap then [l.evt] else [])
            == (if l.Begin? && s.pc.Idle? && s.acmp != [] then [s.acmp[0]] else []) + Step(s, l).acmp
  {
    hide Dispatch;
  }

  /** In every run the events taken, then those still queued, are the events accepted, in order. */
  lemma {:induction false} EventsInOrder(s: State, ls: seq<Label>)
    requires Shaped(s)
    ensures s.acmp + EventsAccepted(s, ls) == EventsTaken(s, ls) + Run(s, ls).acmp
    decreases |ls|
  {
    if ls == [] {
      assert s.acmp + [] == [] + s.acmp;
    } else {
      StepShaped(s, ls[0]);
      EventStep(s, ls[0]);
      hide Step;
      var s1 := Step(s, ls[0]);
      EventsInOrder(s1, ls[1..]);
      var a := if ls[0].PostAcmp? && |s.acmp| < s.cap then [ls[0].evt] else [];
      var t := if ls[0].Begin? && s.pc.Idle? && s.acmp != [] then [s.acmp[0]] else [];
      Regroup(s.acmp, a, EventsAccepted(s1, ls[1..]), t, s1.acmp, EventsTaken(s1, ls[1..]), Run(s1, ls[1..]).acmp);
    }
  }

  lemma Regroup<T>(q: seq<T>, a: seq<T>, accepted: seq<T>, t: seq<T>, q1: seq<T>, taken: seq<T>, q': seq<T>)
    requires q + a == t + q1 && q1 + accepted == taken + q'
    ensures q + (a + accepted) == (t + taken) + q'
  {
    assert q + (a + accepted) == t + q1 + accepted;
    assert t + q1 + accepted == t + (taken + q');
  }

  // ----- Successes are earned -----

  predicate WasPosted(ls: seq<Label>, sig: Signal, status: int, talker: nat) {
    exists l :: l in ls && l.PostAcmp? && l.evt.sig == sig && l.evt.status == status && l.evt.talkerId == talker
  }

  /** Everything a machine has heard is an event that was posted. */
  predicate HeardPosted(h: History, ls: seq<Label>) {
    h.Nil? || (HeardPosted(h.init, ls) && (h.last.Heard? ==> WasPosted(ls, h.last.sig, h.last.status, h.last.talker)))
  }

  predicate QueuedPosted(q: seq<AcmpEvt>, ls: seq<Label>) {
    forall evt :: evt in q ==> WasPosted(ls, evt.sig, evt.status, evt.talkerId)
  }

  lemma {:induction false} HeardPostedMore(h: History, ls: seq<Label>, l: Label)
    requires HeardPosted(h, ls)
    ensures HeardPosted(h, ls + [l])
  {
    if h.Snoc? {
      HeardPostedMore(h.init, ls, l);
      if h.last.Heard? {
        var l' :| l' in ls && l'.PostAcmp? && l'.evt.sig == h.last.sig && l'.evt.status == h.last.status
                  && l'.evt.talkerId == h.last.talker;
        assert l' in ls + [l];
      }
    }
  }

  lemma QueuedPostedMore(q: seq<AcmpEvt>, ls: seq<Label>, l: Label)
    requires QueuedPosted(q, ls)
    ensures QueuedPosted(q, ls + [l])
  {
    forall evt | evt in q ensures WasPosted(ls + [l], evt.sig, evt.status, evt.talkerId) {
      var l' :| l' in ls && l'.PostAcmp? && l'.evt.sig == evt.sig && l'.evt.status == evt.status
                && l'.evt.talkerId == evt.talkerId;
      assert l' in ls + [l];
    }
  }

  lemma {:induction false} LogCancelsPosted(h: History, k: Kind, p: nat, q: seq<Req>, ls: seq<Label>)
    requires HeardPosted(h, ls)
    ensures HeardPosted(LogCancels(h, k, p, q), ls)
    decreases |q|
  {
    if q != [] { LogCancelsPosted(Snoc(h, Cancelled(k, p, q[0].id)), k, p, q[1..], ls); }
  }

  lemma PostedStep(s: State, ls: seq<Label>, l: Label)
    requires Shaped(s) && HeardPosted(s.log, ls) && QueuedPosted(s.acmp, ls) && (l.PostAcmp? ==> l in ls)
    ensures HeardPosted(Step(s, l).log, ls) && QueuedPosted(Step(s, l).acmp, ls)
  {
    hide Dispatch, WasPosted;
    match l
    case CancelQueue(k, p) =>
      if p < PRIORITIES { LogCancelsPosted(s.log, k, p, Of(s, k).qs[p][0..], ls); }
      hide LogCancels;
    case Begin(tick) =>
      if s.pc.Idle? && s.acmp != [] {
        var evt, h0 := s.acmp[0], Snoc(s.log, PassStart);
        assert WasPosted(ls, evt.sig, evt.status, evt.talkerId);
        assert HeardPosted(LogAcmp(h0, Connector, s.conn.st, evt), ls);
      }
    case PostAcmp(evt) => PostedIs(ls, l);
    case _ =>
  }

  lemma PostedIs(ls: seq<Label>, l: Label)
    requires l in ls && l.PostAcmp?
    ensures WasPosted(ls, l.evt.sig, l.evt.status, l.evt.talkerId)
  {}

  lemma {:induction false} RunPosted(cap: nat, ls: seq<Label>)
    ensures HeardPosted(Run(Init(cap), ls).log, ls) && QueuedPosted(Run(Init(cap), ls).acmp, ls)
    decreases |ls|
  {
    if ls != [] {
      var before, l := ls[..|ls| - 1], ls[|ls| - 1];
      RunPosted(cap, before);
      RunSnoc(Init(cap), before, l);
      assert before + [l] == ls;
      var s := Run(Init(cap), before);
      HeardPostedMore(s.log, before, l);
      QueuedPostedMore(s.acmp, before, l);
      hide Run, Step, HeardPosted, QueuedPosted;
      PostedStep(s, ls, l);
    }
  }

  lemma {:induction false} ResolvedWasPosted(h: History, k: Kind, ls: seq<Label>)
    requires HeardPosted(h, ls) && InFlight(h, k).Resolved? && InFlight(h, k).ok
    ensures WasPosted(ls, if k.Connector? then ConnectRxResponse else DisconnectRxResponse, 0, InFlight(h, k).talker)
  {
    hide WasPosted;
    if !(h.last.Heard? && h.last.kind == k && InFlight(h.init, k).Waiting?) { ResolvedWasPosted(h.init, k, ls); }
  }

  lemma {:induction false} PostedBefore(h0: History, e: Entry, h: History, ls: seq<Label>)
    requires HeardPosted(h, ls) && Precedes(h0, e, h)
    ensures HeardPosted(h0, ls)
  {
    if h != Snoc(h0, e) { PostedBefore(h0, e, h.init, ls); }
  }

  /** In every run the success an answer rests on was a response of the machine's own kind, with status
      0, that was posted to the manager and named the terminal credited. */
  lemma SuccessesAreEarned(cap: nat, ls: seq<Label>, h0: History, e: Entry)
    requires Precedes(h0, e, Run(Init(cap), ls).log) && e.Answered? && Succeeded(h0, e)
    ensures WasPosted(ls, if e.kind.Connector? then ConnectRxResponse else DisconnectRxResponse, 0,
                      InFlight(h0, e.kind).talker)
  {
    RunPosted(cap, ls);
    PostedBefore(h0, e, Run(Init(cap), ls).log, ls);
    ResolvedWasPosted(h0, e.kind, ls);
  }

  // ----- Requests and cancellations -----

  /** The request r joined the end of one queue, and nothing else changed; the history knows its terminal
      and its permissions. */
  predicate Joined(s: State, s': State, k: Kind, p: nat, r: Req)
    requires Shaped(s) && p < PRIORITIES
  {
    && s' == With(s, k, Of(s, k).(qs := Of(s, k).qs[p := Of(s, k).qs[p] + [r]])).(nextId := s.nextId + 1, log := s'.log)
    && r.id == s.nextId && Target(s'.log, k, p, r.id) == r.spk && Entitled(s'.log, k, p, r.id) == r.permissions
  }

  /** The budget of a request: its own count up to 5; a negative count is what eight bits make of it. */
  function BudgetFor(times: int): Octet {
    if times > 5 then 5 else if times >= 0 then times else times % 256
  }

  lemma RequestStep(s: State, k: Kind, p: nat, spk: Option<Terminal>, times: int, permissions: bv32, memory: bool)
    requires Shaped(s)
    ensures var s' := DoRequest(s, k, p, spk, times, permissions, memory);
            if spk.Some? && p < PRIORITIES && memory && |Of(s, k).qs[p]| < s.cap then
              Joined(s, s', k, p, Req(s.nextId, spk.value, permissions, BudgetFor(times)))
            else s' == s
  {}

  /** A request is accepted exactly when terminal, priority, memory and room allow it, and is then the
      last of its queue, with its terminal, its permissions and its budget. Otherwise nothing changes. */
  lemma RequestEffect(cap: nat, ls: seq<Label>, k: Kind, p: nat, spk: Option<Terminal>, times: int, permissions: bv32,
                      memory: bool)
    ensures var s, s' := Run(Init(cap), ls), Run(Init(cap), ls + [Request(k, p, spk, times, permissions, memory)]);
            if spk.Some? && p < PRIORITIES && memory && |Of(s, k).qs[p]| < cap then
              Joined(s, s', k, p, Req(s.nextId, spk.value, permissions, BudgetFor(times)))
            else s' == s
  {
    Reachable(cap, ls);
    RunSnoc(Init(cap), ls, Request(k, p, spk, times, permissions, memory));
    RequestStep(Run(Init(cap), ls), k, p, spk, times, permissions, memory);
    hide Run, Inv, Joined, DoRequest, BudgetFor;
  }

  /** Exactly the i-th request of one queue lost its permissions; the history says so, and nothing else
      changed. */
  predicate OnlyRevoked(s: State, s': State, k: Kind, p: nat, i: nat)
    requires Shaped(s) && p < PRIORITIES && i < |Of(s, k).qs[p]|
  {
    var m, q := Of(s, k), Of(s, k).qs[p];
    && s' == With(s, k, m.(qs := m.qs[p := q[i := Req(q[i].id, q[i].spk, 0, q[i].budget)]])).(log := s'.log)
    && s'.log == Snoc(s.log, Cancelled(k, p, q[i].id))
  }

  /** A cancellation takes the permissions of the first queued request of the user, and from then on no
      step of any run commands that request. */
  lemma CancelEffect(cap: nat, ls: seq<Label>, k: Kind, p: nat, user: nat, i: nat, ls': seq<Label>)
    requires var s := Run(Init(cap), ls);
             && p < PRIORITIES && i < |Of(s, k).qs[p]| && Of(s, k).qs[p][i].spk.address == user
             && forall j :: 0 <= j < i ==> Of(s, k).qs[p][j].spk.address != user
    ensures var s, s' := Run(Init(cap), ls), Run(Init(cap), ls + [Cancel(k, p, user)]);
            var id := Of(s, k).qs[p][i].id;
            && OnlyRevoked(s, s', k, p, i)
            && Entitled(s'.log, k, p, id) == 0
            && Commands(Run(s', ls').log, k, p, id) == Commands(s.log, k, p, id)
  {
    var s, l := Run(Init(cap), ls), Cancel(k, p, user);
    var id := Of(s, k).qs[p][i].id;
    RunSnoc(Init(cap), ls, l);
    FirstOfIs(Of(s, k).qs[p], user, i);
    var s' := Step(s, l);
    assert OnlyRevoked(s, s', k, p, i);
    assert Commands(s'.log, k, p, id) == Commands(s.log, k, p, id);
    hide Step, Run;
    CancelledForEver(cap, ls + [l], ls', k, p, id);
  }

  /** With no queued request of the user, or no such queue, a cancellation changes nothing. */
  lemma CancelNothing(cap: nat, ls: seq<Label>, k: Kind, p: nat, user: nat)
    requires var s := Run(Init(cap), ls);
             p >= PRIORITIES || forall r :: r in Of(s, k).qs[p] ==> r.spk.address != user
    ensures Run(Init(cap), ls + [Cancel(k, p, user)]) == Run(Init(cap), ls)
  {
    RunSnoc(Init(cap), ls, Cancel(k, p, user));
    hide Run;
  }

  /** Every request of a queue lost its permissions, and nothing else. */
  predicate AllRevoked(q: seq<Req>, q': seq<Req>) {
    |q'| == |q| && forall i :: 0 <= i < |q| ==> q'[i] == Req(q[i].id, q[i].spk, 0, q[i].budget)
  }

  predicate AllCancelled(h: History, k: Kind, p: nat, q: seq<Req>) {
    forall r :: r in q ==> IsCancelled(h, k, p, r.id)
  }

  lemma {:induction false} LogCancelsAll(h: History, k: Kind, p: nat, q: seq<Req>)
    ensures AllCancelled(LogCancels(h, k, p, q), k, p, q)
    ensures forall k', p', id :: IsCancelled(h, k', p', id) ==> IsCancelled(LogCancels(h, k, p, q), k', p', id)
    decreases |q|
  {
    if q != [] {
      LogCancelsAll(Snoc(h, Cancelled(k, p, q[0].id)), k, p, q[1..]);
    }
  }

  /** Only the queues and the history changed, and what was cancelled still is. */
  ghost predicate OnlyCancels(s: State, s': State) {
    && s' == s.(conn := s.conn.(qs := s'.conn.qs), disc := s.disc.(qs := s'.disc.qs), log := s'.log)
    && forall k, p, id :: IsCancelled(s.log, k, p, id) ==> IsCancelled(s'.log, k, p, id)
  }

  /** One queue is cancelled, and the others are left alone. */
  lemma CancelQueueEffect(s: State, n: nat)
    requires Shaped(s) && n < 2 * PRIORITIES
    ensures var s' := DoCancelQueue(s, RowKind(n), n % PRIORITIES);
            && Shaped(s') && RowCancelled(s, s', n) && OnlyCancels(s, s')
            && forall i :: 0 <= i < 2 * PRIORITIES && i != n ==> RowLeft(s, s', i)
  {
    var k, p := RowKind(n), n % PRIORITIES;
    var q := Of(s, k).qs[p];
    assert q[0..] == q;
    LogCancelsAll(s.log, k, p, q);
    hide LogCancels, AllCancelled;
    forall i | 0 <= i < 2 * PRIORITIES && i != n ensures RowLeft(s, DoCancelQueue(s, k, p), i) {
      assert !(RowKind(i) == k && i % PRIORITIES == p);
    }
  }

  /** Row n of the table of queues. */
  function RowKind(n: nat): Kind {
    if n < PRIORITIES then Connector else Disconnector
  }

  ghost predicate RowsFrom(s: State, s': State, n: nat)
    requires Shaped(s) && Shaped(s')
  {
    && (forall i :: n <= i < 2 * PRIORITIES ==> RowCancelled(s, s', i))
    && (forall i :: 0 <= i < n && i < 2 * PRIORITIES ==> RowLeft(s, s', i))
    && OnlyCancels(s, s')
  }

  lemma {:induction false} CancelRowsEffect(s: State, n: nat)
    requires Shaped(s)
    ensures RowsFrom(s, CancelRows(s, n), n)
    decreases 2 * PRIORITIES - n
  {
    if n < 2 * PRIORITIES {
      var s1 := DoCancelQueue(s, RowKind(n), n % PRIORITIES);
      CancelQueueEffect(s, n);
      hide DoCancelQueue, RowsFrom;
      CancelRowsEffect(s1, n + 1);
      assert CancelRows(s, n) == CancelRows(s1, n + 1);
      RowsJoin(s, s1, CancelRows(s1, n + 1), n);
    }
  }

  lemma RowsJoin(s: State, s1: State, s': State, n: nat)
    requires Shaped(s) && Shaped(s1) && Shaped(s') && n < 2 * PRIORITIES
    requires RowCancelled(s, s1, n) && OnlyCancels(s, s1)
    requires forall i :: 0 <= i < 2 * PRIORITIES && i != n ==> RowLeft(s, s1, i)
    requires RowsFrom(s1, s', n + 1)
    ensures RowsFrom(s, s', n)
  {
    assert RowLeft(s1, s', n);
    forall i | n <= i < 2 * PRIORITIES ensures RowCancelled(s, s', i) {
      if i > n { assert RowCancelled(s1, s', i) && RowLeft(s, s1, i); }
    }
    forall i | 0 <= i < n ensures RowLeft(s, s', i) {
      assert RowLeft(s1, s', i) && RowLeft(s, s1, i);
    }
    hide AllRevoked;
  }

  predicate RowCancelled(s: State, s': State, n: nat)
    requires Shaped(s) && Shaped(s') && n < 2 * PRIORITIES
  {
    var k, p := RowKind(n), n % PRIORITIES;
    AllRevoked(Of(s, k).qs[p], Of(s', k).qs[p]) && AllCancelled(s'.log, k, p, Of(s, k).qs[p])
  }

  predicate RowLeft(s: State, s': State, n: nat)
    requires Shaped(s) && Shaped(s') && n < 2 * PRIORITIES
  {
    var k, p := RowKind(n), n % PRIORITIES;
    Of(s', k).qs[p] == Of(s, k).qs[p]
  }

  lemma RowOf(s: State, s': State, k: Kind, p: nat)
    requires Shaped(s) && Shaped(s') && p < PRIORITIES && RowsFrom(s, s', 0)
    ensures AllRevoked(Of(s, k).qs[p], Of(s', k).qs[p]) && AllCancelled(s'.log, k, p, Of(s, k).qs[p])
  {
    assert RowCancelled(s, s', if k.Connector? then p else PRIORITIES + p);
    hide AllRevoked, AllCancelled;
  }

  /** After all tasks are cancelled no request of any of the six queues has permissions left; all of them
      are still queued, and the machines are as they were. */
  lemma CancelAllEffect(s: State)
    requires Shaped(s)
    ensures var s' := DoCancelAll(s);
            && (forall k, p :: 0 <= p < PRIORITIES ==>
                  AllRevoked(Of(s, k).qs[p], Of(s', k).qs[p]) && AllCancelled(s'.log, k, p, Of(s, k).qs[p]))
            && OnlyCancels(s, s')
  {
    CancelRowsEffect(s, 0);
    var s' := DoCancelAll(s);
    hide DoCancelAll, OnlyCancels, AllRevoked, AllCancelled;
    forall k: Kind, p | 0 <= p < PRIORITIES
      ensures AllRevoked(Of(s, k).qs[p], Of(s', k).qs[p]) && AllCancelled(s'.log, k, p, Of(s, k).qs[p])
    {
      RowOf(s, s', k, p);
    }
  }

  // ----- Dispatches -----

  /** A machine that waits for nothing issues a command exactly when the system state and the request share
      a permission bit and the terminal is not connected, for a connect, or connected, for a disconnect. */
  predicate Issues(m: Manager, k: Kind, r: Req, e: Reading) {
    (m.st.Finish? || m.st.Failed?) && ShareABit(e.sys, r.permissions) && (e.linked <==> k.Disconnector?)
  }

  predicate ShareABit(a: bv32, b: bv32) {
    a & b != 0
  }

  lemma PermittedIs(sys: bv32, permissions: bv32)
    ensures Permitted(sys, permissions) <==> ShareABit(sys, permissions)
  {}

  /** What the callback is told: the success of a command whose counter is not 0, or the state the terminal
      is in by then. */
  predicate Tells(m: Manager, k: Kind, r: Req, e: Reading) {
    (m.st.Success? && r.budget > 0) || (e.linkedLater <==> k.Connector?)
  }

  /** The manager after the head of queue i was dealt with. */
  function Dealt(m: Manager, k: Kind, i: nat, e: Reading): Manager
    requires |m.qs| == PRIORITIES && i < PRIORITIES && m.qs[i] != []
  {
    var r, rest := m.qs[i][0], m.qs[i][1..];
    if m.st.Wait? then Manager(Wait, i, m.qs)
    else if Issues(m, k, r, e) && e.taken then
      Manager(Wait, i, m.qs[i := [r.(budget := if r.budget == 0 then 255 else r.budget - 1)] + rest])
    else if Issues(m, k, r, e) && r.budget > 0 then Manager(Finish, 0, m.qs[i := [r.(budget := r.budget - 1)] + rest])
    else Manager(if m.st.Success? || Issues(m, k, r, e) then Finish else m.st, 0, m.qs[i := rest])
  }

  /** Whether the head of a queue is answered. */
  predicate IsAnswered(m: Manager, k: Kind, r: Req, e: Reading) {
    !m.st.Wait? && (Issues(m, k, r, e) ==> !e.taken && r.budget == 0)
  }

  /** The machine, the queue and the history after a visit: a waiting machine stays as it is; a command is
      issued exactly when it may be; a request is answered by its success, when no command may be issued,
      or when one is refused with its counter at 0, and the callback registered is given what it should. */
  ghost predicate VisitDoes(s: State, s': State, k: Kind, i: nat, e: Reading)
    requires Shaped(s) && i < PRIORITIES && Of(s, k).qs[i] != []
  {
    var m, r := Of(s, k), Of(s, k).qs[i][0];
    && s' == With(s, k, Dealt(m, k, i, e)).(pc := s'.pc, log := s'.log)
    && Commands(s'.log, k, i, r.id) == Commands(s.log, k, i, r.id) + (if Issues(m, k, r, e) then 1 else 0)
    && (if IsAnswered(m, k, r, e) then
          && s'.pc == Calling(k) && s'.log.Snoc?
          && s'.log.last == Answered(k, i, r.id, Tells(m, k, r, e), e.linkedLater,
                                     if (k, i) in s.callbacks
                                     then Some(Delivery(s.callbacks[(k, i)], Tells(m, k, r, e), r.spk, r.permissions))
                                     else None)
        else s'.pc == (if k.Disconnector? then Scan(Connector, s'.conn.cur) else Idle))
  }

  lemma DispatchDoes(m: Manager, k: Kind, i: nat, r: Req, e: Reading)
    requires |m.qs| == PRIORITIES && i < PRIORITIES && m.qs[i] != [] && m.qs[i][0] == r
    ensures var o := Dispatch(k, m.st, r, e);
            && (o.handled <==> IsAnswered(m, k, r, e))
            && (!o.reply.NotSent? <==> Issues(m, k, r, e))
            && (o.handled ==> (o.budget > 0 || AtGoal(k, e.linkedLater) <==> Tells(m, k, r, e)))
            && (o.handled ==> Dealt(m, k, i, e) == Manager(o.st, 0, m.qs[i := m.qs[i][1..]]))
            && (!o.handled ==>
                  Dealt(m, k, i, e) == Manager(if o.st.Wait? then Wait else Finish, if o.st.Wait? then i else 0,
                                               m.qs[i := [r.(budget := o.budget)] + m.qs[i][1..]]))
  {
    var o := Dispatch(k, m.st, r, e);
    PermittedIs(e.sys, r.permissions);
    hide Permitted, ShareABit;
    if m.st.Wait? {
      assert r.(budget := o.budget) == r && [r] + m.qs[i][1..] == m.qs[i] && m.qs[i := m.qs[i]] == m.qs;
    }
  }

  lemma VisitStep(s: State, k: Kind, i: nat, e: Reading)
    requires Shaped(s) && i < PRIORITIES && 0 < |Of(s, k).qs[i]| <= s.cap
    ensures VisitDoes(s, DoVisit(s, k, i, e), k, i, e)
  {
    var m, r := Of(s, k), Of(s, k).qs[i][0];
    var o, told := Dispatch(k, m.st, r, e), Tells(m, k, r, e);
    var t := Snoc(s.log, TriedEntry(k, i, r, e, o));
    DispatchDoes(m, k, i, r, e);
    assert Commands(t, k, i, r.id) == Commands(s.log, k, i, r.id) + if o.reply.NotSent? then 0 else 1;
    hide Dispatch, Dealt, Issues, IsAnswered, Tells, AtGoal;
    var s' := DoVisit(s, k, i, e);
    if o.handled {
      assert s'.log == Snoc(t, Answered(k, i, r.id, told, e.linkedLater, Handed(s, k, i, told, r.spk, r.permissions)));
    } else {
      assert s'.log == t;
    }
  }

  /** So it is in every run. */
  lemma VisitEffect(cap: nat, ls: seq<Label>, k: Kind, i: nat, e: Reading)
    requires Run(Init(cap), ls).pc == Scan(k, i) && i < PRIORITIES && Of(Run(Init(cap), ls), k).qs[i] != []
    ensures VisitDoes(Run(Init(cap), ls), Run(Init(cap), ls + [Visit(e)]), k, i, e)
  {
    var s := Run(Init(cap), ls);
    Reachable(cap, ls);
    RoomFor(s, k, i);
    RunSnoc(Init(cap), ls, Visit(e));
    VisitStep(s, k, i, e);
    hide Run, Inv, DoVisit, VisitDoes;
  }

  lemma RoomFor(s: State, k: Kind, i: nat)
    requires Inv(s) && i < PRIORITIES
    ensures Shaped(s) && |Of(s, k).qs[i]| <= s.cap
  {
    InvParts(s, k);
    hide QueueInv, FlightInv;
  }

  /** An empty queue sends the scan on to the next; behind the last queue of the disconnector the connector's
      scan begins, and behind that of the connector the pass is over. Nothing else changes. */
  lemma EmptyVisitEffect(cap: nat, ls: seq<Label>, k: Kind, i: nat, e: Reading)
    requires Run(Init(cap), ls).pc == Scan(k, i) && i < PRIORITIES && Of(Run(Init(cap), ls), k).qs[i] == []
    ensures var s, s' := Run(Init(cap), ls), Run(Init(cap), ls + [Visit(e)]);
            && s' == s.(pc := s'.pc, log := Snoc(s.log, Empty(k, i)))
            && s'.pc == (if i < 2 then Scan(k, i + 1)
                         else if k.Disconnector? then Scan(Connector, s.conn.cur) else Idle)
  {
    RunSnoc(Init(cap), ls, Visit(e));
    hide Run;
  }

  /** So it is when a callback returns. */
  lemma ReturnEffect(cap: nat, ls: seq<Label>, k: Kind)
    requires Run(Init(cap), ls).pc == Calling(k)
    ensures var s, s' := Run(Init(cap), ls), Run(Init(cap), ls + [Return]);
            s' == s.(pc := if k.Disconnector? then Scan(Connector, s.conn.cur) else Idle)
  {
    RunSnoc(Init(cap), ls, Return);
    hide Run;
  }
}
