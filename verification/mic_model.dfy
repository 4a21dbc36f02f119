/**
 The microphone manager of the conference host as a transition system: two four-state
 machines (a connector and a disconnector), each fed by three priority queues, and one queue
 of ACMP events. A step is one region the code runs under one lock, so requests,
 cancellations and ACMP events of other threads, and of the callbacks, may fall between any
 two steps of a task pass.
 */
module MicModel {
  import opened Words
  import opened MicHistory

  /** The value of a queued microphone event. The number `id` counts accepted requests; it stands
      for the identity of the allocated event. */
  datatype Req = Req(id: nat, spk: Terminal, permissions: bv32, budget: Octet)

  datatype Machine = Finish | Wait | Success | Failed

  /** The dispatchers read the signal and the status, and none of the ids. */
  datatype AcmpEvt = AcmpEvt(sig: Signal, subMsg: nat, talkerId: nat, talkerIndex: nat, listenerId: nat,
                             listenerIndex: nat, status: int)

  /** What the environment answers during one dispatch: the system state word, whether the
      terminal is connected, whether the command function returned 0, and whether the terminal
      is connected when the callback is prepared. */
  datatype Reading = Reading(sys: bv32, linked: bool, taken: bool, linkedLater: bool)

  const PRIORITIES: nat := 3
  const MAX_FAILURE_TIMES: int := 5
  const PERIOD_MS: int := 100

  /** `--` on the eight-bit counter. */
  function Decrement(b: Octet): Octet {
    if b == 0 then 255 else b - 1
  }

  datatype Outcome = Outcome(st: Machine, budget: Octet, reply: Reply, handled: bool)

  /** One microphone event given to a machine. */
  function Dispatch(k: Kind, st: Machine, r: Req, e: Reading): Outcome {
    match st
    case Wait => Outcome(Wait, r.budget, NotSent, false)
    case Success => Outcome(Finish, r.budget, NotSent, true)
    case _ =>
      if !Permitted(e.sys, r.permissions) then Outcome(st, 0, NotSent, true)
      else if AtGoal(k, e.linked) then Outcome(st, 0, NotSent, true)
      else if e.taken then Outcome(Wait, Decrement(r.budget), Taken, false)
      else if r.budget == 0 then Outcome(Finish, 0, Refused, true)
      else Outcome(st, r.budget - 1, Refused, false)
  }

  /** Whether an ACMP event belongs to a machine. */
  predicate Addressed(k: Kind, evt: AcmpEvt) {
    IsSignalOf(k, evt.sig)
  }

  function OnAcmp(k: Kind, st: Machine, evt: AcmpEvt): Machine {
    if st.Wait? && Addressed(k, evt) then if Succeeds(k, evt.sig, evt.status) then Success else Failed
    else st
  }

  /** One machine: its state, the priority its next scan starts at, and its queues. */
  datatype Manager = Manager(st: Machine, cur: nat, qs: seq<seq<Req>>)

  /** Where the routine is: outside a pass, about to look at a queue, or inside a callback. */
  datatype Pc = Idle | Scan(kind: Kind, at: nat) | Calling(kind: Kind)

  datatype State = State(
    cap: nat,
    conn: Manager,
    disc: Manager,
    acmp: seq<AcmpEvt>,
    lastTick: nat,
    callbacks: map<(Kind, nat), nat>,
    nextId: nat,
    pc: Pc,
    log: History)

  datatype Label =
    | Request(kind: Kind, prior: nat, spk: Option<Terminal>, times: int, permissions: bv32, memory: bool)
    | Cancel(kind: Kind, prior: nat, user: nat)
    | CancelQueue(kind: Kind, prior: nat)
    | Register(kind: Kind, prior: nat, callback: nat)
    | Deregister(kind: Kind, prior: nat)
    | PostAcmp(evt: AcmpEvt)
    | Begin(tick: nat)
    | Visit(reading: Reading)
    | Return

  const NewManager := Manager(Finish, 0, [[], [], []])

  function Init(cap: nat): State {
    State(cap, NewManager, NewManager, [], 0, map[], 0, Idle, Nil)
  }

  function Of(s: State, k: Kind): Manager {
    if k.Connector? then s.conn else s.disc
  }

  function With(s: State, k: Kind, m: Manager): State {
    if k.Connector? then s.(conn := m) else s.(disc := m)
  }

  predicate Shaped(s: State) {
    |s.conn.qs| == PRIORITIES && |s.disc.qs| == PRIORITIES
  }

  /** A post to the tail and to the head of a bounded queue; a full queue is left alone. */
  function PushBack<T>(q: seq<T>, cap: nat, x: T): seq<T> {
    if |q| < cap then q + [x] else q
  }

  function PushFront<T>(q: seq<T>, cap: nat, x: T): seq<T> {
    if |q| < cap then [x] + q else q
  }

  /** The retry budget stored for a requested count: capped, then cut to eight bits. */
  function Clip(times: int): Octet {
    (if times > MAX_FAILURE_TIMES then MAX_FAILURE_TIMES else times) % 256
  }

  function DoRequest(s: State, k: Kind, p: nat, spk: Option<Terminal>, times: int, permissions: bv32,
                     memory: bool): State
    requires Shaped(s)
  {
    if spk.None? || p >= PRIORITIES || !memory || |Of(s, k).qs[p]| >= s.cap then s
    else
      var m := Of(s, k);
      var r := Req(s.nextId, spk.value, permissions, Clip(times));
      With(s, k, m.(qs := m.qs[p := PushBack(m.qs[p], s.cap, r)]))
        .(nextId := s.nextId + 1, log := Snoc(s.log, Granted(k, p, r.id, r.budget, r.spk, r.permissions)))
  }

  /** The index of the first queued request of a user, or the length when there is none. */
  function FirstOf(q: seq<Req>, user: nat): (i: nat)
    ensures i <= |q|
    ensures i < |q| ==> q[i].spk.address == user
    ensures forall j :: 0 <= j < i ==> q[j].spk.address != user
  {
    if q == [] then 0
    else if q[0].spk.address == user then 0
    else 1 + FirstOf(q[1..], user)
  }

  lemma FirstOfIs(q: seq<Req>, user: nat, i: nat)
    requires i <= |q|
    requires i < |q| ==> q[i].spk.address == user
    requires forall j :: 0 <= j < i ==> q[j].spk.address != user
    ensures FirstOf(q, user) == i
  {}

  /** Clears the permissions of one queued request. */
  function CancelAt(s: State, k: Kind, p: nat, i: nat): State
    requires Shaped(s) && p < PRIORITIES && i < |Of(s, k).qs[p]|
  {
    var m := Of(s, k);
    With(s, k, m.(qs := m.qs[p := m.qs[p][i := m.qs[p][i].(permissions := 0)]]))
      .(log := Snoc(s.log, Cancelled(k, p, m.qs[p][i].id)))
  }

  function DoCancel(s: State, k: Kind, p: nat, user: nat): State
    requires Shaped(s)
  {
    if p >= PRIORITIES then s
    else
      var i := FirstOf(Of(s, k).qs[p], user);
      if i == |Of(s, k).qs[p]| then s else CancelAt(s, k, p, i)
  }

  function Revoked(q: seq<Req>): (r: seq<Req>)
    ensures |r| == |q|
    ensures forall i :: 0 <= i < |q| ==> r[i] == q[i].(permissions := 0)
  {
    seq(|q|, i requires 0 <= i < |q| => q[i].(permissions := 0))
  }

  function LogCancels(h: History, k: Kind, p: nat, q: seq<Req>): History
    decreases |q|
  {
    if q == [] then h
    else LogCancels(Snoc(h, Cancelled(k, p, q[0].id)), k, p, q[1..])
  }

  /** Cancels what is left of a queue from its i-th request on. */
  function CancelRest(s: State, k: Kind, p: nat, i: nat): State
    requires Shaped(s) && p < PRIORITIES && i <= |Of(s, k).qs[p]|
  {
    var m := Of(s, k);
    With(s, k, m.(qs := m.qs[p := m.qs[p][..i] + Revoked(m.qs[p][i..])])).(log := LogCancels(s.log, k, p, m.qs[p][i..]))
  }

  lemma RevokedStep(q: seq<Req>, i: nat)
    requires i < |q|
    ensures var q1 := q[i := q[i].(permissions := 0)];
            && q1[i + 1..] == q[i..][1..]
            && q[..i] + Revoked(q[i..]) == q1[..i + 1] + Revoked(q1[i + 1..])
  {}

  /** Cancelling the rest of a queue is cancelling its next request, and then the rest. */
  lemma CancelRestStep(s: State, k: Kind, p: nat, i: nat)
    requires Shaped(s) && p < PRIORITIES && i < |Of(s, k).qs[p]|
    ensures Shaped(CancelAt(s, k, p, i)) && |Of(CancelAt(s, k, p, i), k).qs[p]| == |Of(s, k).qs[p]|
    ensures CancelRest(s, k, p, i) == CancelRest(CancelAt(s, k, p, i), k, p, i + 1)
  {
    var m, q, s1 := Of(s, k), Of(s, k).qs[p], CancelAt(s, k, p, i);
    RevokedStep(q, i);
    hide Revoked;
    assert q[i..][0] == q[i];
    assert Of(s1, k).qs[p := q[..i] + Revoked(q[i..])] == m.qs[p := q[..i] + Revoked(q[i..])];
  }

  lemma CancelRestDone(s: State, k: Kind, p: nat)
    requires Shaped(s) && p < PRIORITIES
    ensures CancelRest(s, k, p, |Of(s, k).qs[p]|) == s
  {
    var m := Of(s, k);
    assert m.qs[p][..|m.qs[p]|] + Revoked(m.qs[p][|m.qs[p]|..]) == m.qs[p];
    assert m.qs[p := m.qs[p]] == m.qs;
  }

  function DoCancelQueue(s: State, k: Kind, p: nat): State
    requires Shaped(s)
  {
    if p >= PRIORITIES then s else CancelRest(s, k, p, 0)
  }

  /** The queue tables in row order: the connector's row, then the disconnector's. */
  function CancelRows(s: State, n: nat): (s': State)
    requires Shaped(s)
    ensures Shaped(s')
    decreases 2 * PRIORITIES - n
  {
    if n >= 2 * PRIORITIES then s
    else CancelRows(DoCancelQueue(s, if n < PRIORITIES then Connector else Disconnector, n % PRIORITIES), n + 1)
  }

  /** `Terminal_cancelAllTask`: all six queues, one lock region each. */
  function DoCancelAll(s: State): State
    requires Shaped(s)
  {
    CancelRows(s, 0)
  }

  function DoPostAcmp(s: State, evt: AcmpEvt): State {
    s.(acmp := PushBack(s.acmp, s.cap, evt))
  }

  /** The callback functions are told apart by number; 0 is the null function. */
  function DoRegister(s: State, k: Kind, p: nat, callback: nat): State {
    if p >= PRIORITIES then s
    else if callback == 0 then DoDeregister(s, k, p)
    else s.(callbacks := s.callbacks[(k, p) := callback])
  }

  function DoDeregister(s: State, k: Kind, p: nat): State {
    if p < PRIORITIES then s.(callbacks := s.callbacks - {(k, p)}) else s
  }

  /** The function that answers of a queue go to. */
  function Registered(s: State, k: Kind, p: nat): Option<nat> {
    if (k, p) in s.callbacks then Some(s.callbacks[(k, p)]) else None
  }

  /** The call of that function, with these arguments. */
  function Handed(s: State, k: Kind, p: nat, told: bool, spk: Terminal, permissions: bv32): Option<Delivery> {
    if (k, p) in s.callbacks then Some(Delivery(s.callbacks[(k, p)], told, spk, permissions)) else None
  }

  /** The history entry an ACMP event leaves with a machine, if that machine consumes it. */
  function LogAcmp(h: History, k: Kind, st: Machine, evt: AcmpEvt): History {
    if st.Wait? && Addressed(k, evt) then Snoc(h, Heard(k, evt.sig, evt.status, evt.talkerId)) else h
  }

  /** The head of a pass: an ACMP event is taken if there is one, otherwise the tick is checked. */
  function DoBegin(s: State, tick: nat): State
  {
    if s.acmp != [] then
      var evt := s.acmp[0];
      s.(acmp := s.acmp[1..],
         conn := s.conn.(st := OnAcmp(Connector, s.conn.st, evt)),
         disc := s.disc.(st := OnAcmp(Disconnector, s.disc.st, evt)),
         pc := Scan(Disconnector, s.disc.cur),
         log := LogAcmp(LogAcmp(Snoc(s.log, PassStart), Connector, s.conn.st, evt), Disconnector, s.disc.st, evt))
    else if (tick - s.lastTick) % WORD < PERIOD_MS then s
    else s.(lastTick := tick, pc := Scan(Disconnector, s.disc.cur), log := Snoc(s.log, PassStart))
  }

  /** After the disconnector's scan comes the connector's, then the pass is over. */
  function After(s: State, k: Kind): Pc {
    if k.Disconnector? then Scan(Connector, s.conn.cur) else Idle
  }

  function NextQueue(s: State, k: Kind, i: nat): Pc {
    if i + 1 < PRIORITIES then Scan(k, i + 1) else After(s, k)
  }

  function TriedEntry(k: Kind, p: nat, r: Req, e: Reading, o: Outcome): Entry {
    Tried(k, p, r.id, e.sys, e.linked, o.reply, o.handled)
  }

  /** One queue under its lock: pop, dispatch, and answer or put back. */
  function DoVisit(s: State, k: Kind, i: nat, e: Reading): State
    requires Shaped(s)
  {
    if i >= PRIORITIES then s.(pc := After(s, k))
    else
    var m := Of(s, k);
    if m.qs[i] == [] then s.(pc := NextQueue(s, k, i), log := Snoc(s.log, Empty(k, i)))
    else
      var r := m.qs[i][0];
      var o := Dispatch(k, m.st, r, e);
      var tried := Snoc(s.log, TriedEntry(k, i, r, e, o));
      if o.handled then
        var told := o.budget > 0 || AtGoal(k, e.linkedLater);
        With(s, k, Manager(o.st, 0, m.qs[i := m.qs[i][1..]]))
          .(pc := Calling(k),
            log := Snoc(tried, Answered(k, i, r.id, told, e.linkedLater, Handed(s, k, i, told, r.spk, r.permissions))))
      else
        var back := PushFront(m.qs[i][1..], s.cap, r.(budget := o.budget));
        var s' := With(s, k, Manager(if o.st.Wait? then Wait else Finish, if o.st.Wait? then i else 0,
          m.qs[i := back]));
        s'.(pc := After(s', k), log := tried)
  }

  /** What a visit of one queue came to: nothing there, put back, or answered with these callback
      arguments. */
  datatype Visited = NothingThere | Kept | Settled(told: bool, spk: Terminal, permissions: bv32)

  /** What a dispatch with this outcome means for the caller of the visit. */
  function Verdict(o: Outcome, k: Kind, e: Reading, spk: Terminal, permissions: bv32): Visited {
    if o.handled then Settled(o.budget > 0 || AtGoal(k, e.linkedLater), spk, permissions) else Kept
  }

  function VisitResult(s: State, k: Kind, i: nat, e: Reading): Visited
    requires Shaped(s) && i < PRIORITIES
  {
    if Of(s, k).qs[i] == [] then NothingThere
    else
      var r := Of(s, k).qs[i][0];
      Verdict(Dispatch(k, Of(s, k).st, r, e), k, e, r.spk, r.permissions)
  }

  function Step(s: State, l: Label): State
    requires Shaped(s)
  {
    match l
    case Request(k, p, spk, times, permissions, memory) => DoRequest(s, k, p, spk, times, permissions, memory)
    case Cancel(k, p, user) => DoCancel(s, k, p, user)
    case CancelQueue(k, p) => DoCancelQueue(s, k, p)
    case Register(k, p, callback) => DoRegister(s, k, p, callback)
    case Deregister(k, p) => DoDeregister(s, k, p)
    case PostAcmp(evt) => DoPostAcmp(s, evt)
    case Begin(tick) => if s.pc.Idle? then DoBegin(s, tick) else s
    case Visit(e) => if s.pc.Scan? then DoVisit(s, s.pc.kind, s.pc.at, e) else s
    case Return => if s.pc.Calling? then s.(pc := After(s, s.pc.kind)) else s
  }

  lemma StepShaped(s: State, l: Label)
    requires Shaped(s)
    ensures Shaped(Step(s, l))
  {}

  function Run(s: State, ls: seq<Label>): (s': State)
    requires Shaped(s)
    ensures Shaped(s')
    decreases |ls|
  {
    if ls == [] then s
    else
      StepShaped(s, ls[0]);
      Run(Step(s, ls[0]), ls[1..])
  }

  // ----- One pass of the routine -----

  /** The scan of one machine, without client calls in between. */
  function ScanRun(s: State, k: Kind, e: Reading): (s': State)
    requires Shaped(s)
    ensures Shaped(s')
    decreases if s.pc.Scan? && s.pc.kind == k && s.pc.at < PRIORITIES then PRIORITIES - s.pc.at else 0
  {
    if s.pc.Scan? && s.pc.kind == k && s.pc.at < PRIORITIES then ScanRun(DoVisit(s, k, s.pc.at, e), k, e) else s
  }

  /** The callback, if one is registered, makes its calls and returns. */
  function CallbackRun(s: State, calls: seq<Label>): (s': State)
    requires Shaped(s)
    ensures Shaped(s')
  {
    if s.pc.Calling? then Step(Run(s, if Delivered(s.log) then calls else []), Return) else s
  }

  predicate Delivered(h: History) {
    h.Snoc? && h.last.Answered? && h.last.delivered.Some?
  }

  /** The call of a callback that a scan has just come to, if any. */
  function Reported(s: State): Option<Delivery> {
    if s.pc.Calling? && s.log.Snoc? && s.log.last.Answered? then s.log.last.delivered else None
  }

  /** The calls of the two callbacks in one pass. */
  function CalledInPass(s: State, tick: nat, ed: Reading, callsD: seq<Label>, ec: Reading)
    : (Option<Delivery>, Option<Delivery>)
    requires Shaped(s)
  {
    BeginShaped(s, tick);
    var s1 := DoBegin(s, tick);
    if s1 == s then (None, None)
    else
      var s2 := HalfPass(s1, Disconnector, ed, callsD);
      (Reported(ScanRun(s1, Disconnector, ed)), Reported(ScanRun(s2, Connector, ec)))
  }

  /** A whole pass: the disconnector is scanned before the connector. */
  function Pass(s: State, tick: nat, ed: Reading, callsD: seq<Label>, ec: Reading, callsC: seq<Label>): (s': State)
    requires Shaped(s)
    ensures Shaped(s')
  {
    var s1 := Step(s, Begin(tick));
    CallbackRun(ScanRun(CallbackRun(ScanRun(s1, Disconnector, ed), callsD), Connector, ec), callsC)
  }

  /** The last thing that happened is that the callback of a queue, if any, was called with what a visit
      came to. */
  predicate AnsweredWith(s: State, k: Kind, p: nat, v: Visited)
    requires v.Settled?
  {
    && s.log.Snoc? && s.log.last.Answered? && s.log.last.kind == k && s.log.last.prior == p
    && s.log.last.told == v.told
    && s.log.last.delivered == Handed(s, k, p, v.told, v.spk, v.permissions)
  }

  /** One turn of a scan, and what ends it. */
  lemma ScanTurn(s: State, k: Kind, e: Reading)
    requires Shaped(s) && s.pc.Scan? && s.pc.kind == k && s.pc.at < PRIORITIES
    ensures var s', v := DoVisit(s, k, s.pc.at, e), VisitResult(s, k, s.pc.at, e);
            && Shaped(s')
            && ScanRun(s, k, e) == ScanRun(s', k, e)
            && (v.NothingThere? ==>
                  && s'.pc == (if s.pc.at + 1 < PRIORITIES then Scan(k, s.pc.at + 1) else After(s', k))
                  && s' == s.(pc := s'.pc, log := s'.log))
            && (v.Settled? ==>
                  && s'.pc == Calling(k) && s'.callbacks == s.callbacks
                  && AnsweredWith(s', k, s.pc.at, v))
            && (v.Kept? ==> s'.pc == After(s', k))
  {
    hide Dispatch;
  }

  lemma ScanOver(s: State, k: Kind, e: Reading)
    requires Shaped(s) && !(s.pc.Scan? && s.pc.kind == k)
    ensures ScanRun(s, k, e) == s
  {}

  /** The calls other threads and callbacks may make. */
  predicate IsCall(l: Label) {
    !l.Begin? && !l.Visit? && !l.Return?
  }

  /** Two calls differ at most in whether an allocation succeeded. */
  predicate SameCall(l: Label, l': Label) {
    if l.Request? then l'.Request? && l' == l.(memory := l'.memory) else l' == l
  }

  lemma {:induction false} RunSnoc(s: State, ls: seq<Label>, l: Label)
    requires Shaped(s)
    ensures Run(s, ls + [l]) == Step(Run(s, ls), l)
    decreases |ls|
  {
    if ls == [] {
      assert Run(Step(s, l), []) == Step(s, l);
      assert [l][1..] == [];
    } else {
      StepShaped(s, ls[0]);
      RunSnoc(Step(s, ls[0]), ls[1..], l);
      assert (ls + [l])[1..] == ls[1..] + [l];
    }
  }

  lemma CallKeepsPc(s: State, l: Label)
    requires Shaped(s) && IsCall(l)
    ensures Step(s, l).pc == s.pc
  {}

  /** Calls do not move the routine. */
  lemma {:induction false} CallsKeepPc(s: State, ls: seq<Label>)
    requires Shaped(s) && forall l :: l in ls ==> IsCall(l)
    ensures Run(s, ls).pc == s.pc
    decreases |ls|
  {
    if ls != [] {
      StepShaped(s, ls[0]);
      CallKeepsPc(s, ls[0]);
      CallsKeepPc(Step(s, ls[0]), ls[1..]);
    }
  }

  /** The way back from a callback. */
  lemma CallbackEnds(s: State, made: seq<Label>)
    requires Shaped(s) && s.pc.Calling? && forall l :: l in made ==> IsCall(l)
    ensures var s2 := Run(s, if Delivered(s.log) then made else []);
            && s2.pc == s.pc
            && CallbackRun(s, made) == s2.(pc := After(s2, s.pc.kind))
  {
    CallsKeepPc(s, if Delivered(s.log) then made else []);
  }

  lemma AskedAreCalls(calls: seq<Label>, made: seq<Label>)
    requires |made| == |calls| && forall i :: 0 <= i < |calls| ==> SameCall(calls[i], made[i])
    requires forall l :: l in calls ==> IsCall(l)
    ensures forall l :: l in made ==> IsCall(l)
  {
    forall l | l in made ensures IsCall(l) {
      var i :| 0 <= i < |made| && made[i] == l;
      assert SameCall(calls[i], made[i]) && calls[i] in calls;
    }
  }

  /** A pass whose head finds nothing to do. */
  lemma PassSkipped(s: State, tick: nat, ed: Reading, callsD: seq<Label>, ec: Reading, callsC: seq<Label>)
    requires Shaped(s) && s.pc.Idle? && DoBegin(s, tick) == s
    ensures Pass(s, tick, ed, callsD, ec, callsC) == s
  {}

  /** The half of a pass that belongs to one machine. */
  function HalfPass(s: State, k: Kind, e: Reading, calls: seq<Label>): (s': State)
    requires Shaped(s)
    ensures Shaped(s')
  {
    CallbackRun(ScanRun(s, k, e), calls)
  }

  lemma PassHalves(s: State, tick: nat, ed: Reading, callsD: seq<Label>, ec: Reading, callsC: seq<Label>)
    requires Shaped(s) && s.pc.Idle? && Shaped(DoBegin(s, tick))
    ensures Pass(s, tick, ed, callsD, ec, callsC)
            == HalfPass(HalfPass(DoBegin(s, tick), Disconnector, ed, callsD), Connector, ec, callsC)
  {}

  lemma BeginShaped(s: State, tick: nat)
    requires Shaped(s)
    ensures Shaped(DoBegin(s, tick))
  {}

  lemma NoCalls(s: State)
    requires Shaped(s)
    ensures Run(s, []) == s
  {}

  lemma SameCalls(calls: seq<Label>)
    ensures forall i :: 0 <= i < |calls| ==> SameCall(calls[i], calls[i])
  {}
}
