/**
 The microphone manager as the program keeps it: two machine states, six deques of event
 addresses, the allocated events behind those addresses, whose counters and permissions are
 changed in place, and one deque of ACMP events. Every method is tied to the transition system
 of MicModel.
 */
module MicManager {
  import opened Words
  import opened MicHistory
  import opened MicModel
  import opened MicStore
  import opened ComQueue

  /** What a dispatch returns; the fourth code of the program, to ignore an event, is never used. */
  datatype Status = EvtHandled | EvtUnhandled | EvtSupper

  /** The managers by number. */
  const CONNECTOR: nat := 0
  const DISCONNECTOR: nat := 1
  const MANAGER_NUM: nat := 2

  function KindOf(manager: nat): (k: Kind)
    requires manager < MANAGER_NUM
    ensures k == Connector <==> manager == 0
  {
    if manager == CONNECTOR then Connector else Disconnector
  }

  function Index(k: Kind): (manager: nat)
    ensures manager < MANAGER_NUM && KindOf(manager) == k
  {
    if k.Connector? then CONNECTOR else DISCONNECTOR
  }

  /** The table of request queues: one row per manager, one column per priority. */
  class ReqQueues {
    const queues: seq<TComQueue<Address>>
    const size: nat
    ghost const Parts: set<object>
    /** The addresses in each queue. */
    ghost var lines: seq<seq<Address>>

    ghost predicate Valid()
      reads this, Parts
    {
      && |queues| == QUEUES && |lines| == QUEUES
      && this !in Parts
      && (forall a :: 0 <= a < QUEUES ==> queues[a] in Parts && queues[a].buf in Parts)
      && (forall a, b :: 0 <= a < b < QUEUES ==> queues[a] != queues[b] && queues[a].buf != queues[b].buf)
      && (forall a :: 0 <= a < QUEUES ==> queues[a].Valid() && queues[a].size == size && queues[a].items == lines[a])
    }

    constructor (n: nat)
      requires n >= 1
      ensures Valid() && fresh(Parts) && this !in Parts && size == n && lines == [[], [], [], [], [], []]
    {
      hide TComQueue<Address>.Valid;
      var qs: seq<TComQueue<Address>> := [];
      ghost var parts := {};
      while |qs| < QUEUES
        invariant |qs| <= QUEUES && fresh(parts)
        invariant forall a :: 0 <= a < |qs| ==>
                    && qs[a] in parts && qs[a].buf in parts
                    && qs[a].Valid() && qs[a].size == n && qs[a].items == []
        invariant forall a, b :: 0 <= a < b < |qs| ==> qs[a] != qs[b] && qs[a].buf != qs[b].buf
        invariant forall o :: o in parts ==> o is TComQueue<Address> || o is array<Address>
      {
        var q := new TComQueue<Address>(n);
        qs, parts := qs + [q], parts + {q, q.buf};
      }
      queues, size, Parts := qs, n, parts;
      lines := [[], [], [], [], [], []];
    }

    /** Valid, but for what the n-th line says of its queue. */
    ghost predicate ValidBut(n: nat)
      reads this, Parts
    {
      && |queues| == QUEUES && |lines| == QUEUES
      && this !in Parts
      && (forall a :: 0 <= a < QUEUES ==> queues[a] in Parts && queues[a].buf in Parts)
      && (forall a, b :: 0 <= a < b < QUEUES ==> queues[a] != queues[b] && queues[a].buf != queues[b].buf)
      && (forall a :: 0 <= a < QUEUES ==> queues[a].Valid() && queues[a].size == size)
      && (forall a :: 0 <= a < QUEUES && a != n ==> queues[a].items == lines[a])
    }

    ghost method SetLine(n: nat)
      requires n < QUEUES && ValidBut(n)
      modifies this`lines
      ensures Valid() && lines == old(lines)[n := queues[n].items]
    {
      hide TComQueue<Address>.Valid;
      lines := lines[n := queues[n].items];
    }

    lemma SameLine(n: nat)
      requires n < QUEUES && ValidBut(n) && queues[n].items == lines[n]
      ensures Valid()
    {
      hide TComQueue<Address>.Valid;
    }

    method Post(k: Kind, p: nat, a: Address) returns (ok: bool)
      requires Valid() && p < PRIORITIES
      modifies this, Parts
      ensures Valid()
      ensures ok <==> |old(lines)[Place(k, p)]| < size - 1
      ensures lines == if ok then old(lines)[Place(k, p) := old(lines)[Place(k, p)] + [a]] else old(lines)
    {
      var n := Place(k, p);
      ghost var line := lines[n];
      assert queues[n].items == line;
      hide Place, TComQueue<Address>.Valid;
      ok := queues[n].PostFifo(a);
      assert (ok <==> |line| < size - 1) && queues[n].items == (if ok then line + [a] else line) && lines[n] == line;
      assert ValidBut(n);
      hide Valid, ValidBut;
      if ok { SetLine(n); } else { SameLine(n); }
    }

    method Pop(k: Kind, p: nat) returns (ok: bool, a: Address)
      requires Valid() && p < PRIORITIES
      modifies this, Parts
      ensures Valid()
      ensures ok <==> old(lines)[Place(k, p)] != []
      ensures ok ==> PoppedFrom(lines, old(lines), k, p, a)
      ensures !ok ==> lines == old(lines)
    {
      var n := Place(k, p);
      ghost var line := lines[n];
      assert queues[n].items == line;
      hide Place, TComQueue<Address>.Valid;
      ok, a := queues[n].PopFifo(0);
      assert (ok <==> line != []) && lines[n] == line;
      assert if ok then a == line[0] && queues[n].items == line[1..] else queues[n].items == line;
      assert ValidBut(n);
      hide Valid, ValidBut;
      if ok {
        SetLine(n);
      } else {
        SameLine(n);
      }
    }

    method PutBack(k: Kind, p: nat, a: Address) returns (ok: bool)
      requires Valid() && p < PRIORITIES
      modifies this, Parts
      ensures Valid()
      ensures ok <==> |old(lines)[Place(k, p)]| < size - 1
      ensures lines == if ok then old(lines)[Place(k, p) := [a] + old(lines)[Place(k, p)]] else old(lines)
    {
      var n := Place(k, p);
      ghost var line := lines[n];
      assert queues[n].items == line;
      hide Place, TComQueue<Address>.Valid;
      ok := queues[n].PostLifo(a);
      assert (ok <==> |line| < size - 1) && queues[n].items == (if ok then [a] + line else line) && lines[n] == line;
      assert ValidBut(n);
      hide Valid, ValidBut;
      if ok { SetLine(n); } else { SameLine(n); }
    }

    /** Putting back what was just popped never fails, and undoes the pop. */
    method Restore(k: Kind, p: nat, a: Address, ghost before: seq<seq<Address>>) returns (ok: bool)
      requires Valid() && p < PRIORITIES
      requires PoppedFrom(lines, before, k, p, a) && |before[Place(k, p)]| < size
      modifies this, Parts
      ensures Valid() && ok && lines == before
    {
      PutBackRestores(before, Place(k, p));
      ok := PutBack(k, p, a);
    }
  }

  class MicTask {
    const reqQueues: ReqQueues
    const acmpQueue: TComQueue<AcmpEvt>
    var memory: map<Address, MicEvent>
    var connectorState: Machine
    var disconnectorState: Machine
    var curConnectorQe: nat
    var curDisconnectorQe: nat
    var lastTick: nat
    var callbacks: map<(Kind, nat), nat>
    ghost var tags: map<Address, Tag>
    /** The abstract state. */
    ghost var view: State

    ghost predicate QueuesValid()
      reads reqQueues, reqQueues.Parts, acmpQueue, acmpQueue.buf
    {
      && this !in reqQueues.Parts && reqQueues !in reqQueues.Parts
      && acmpQueue !in reqQueues.Parts && acmpQueue.buf !in reqQueues.Parts
      && reqQueues.Valid() && acmpQueue.Valid()
      && reqQueues.size == acmpQueue.size
    }

    ghost function Events(): Store
      reads this, reqQueues
    {
      Store(memory, tags, reqQueues.lines)
    }

    ghost predicate Valid()
      reads this, reqQueues, reqQueues.Parts, acmpQueue, acmpQueue.buf
    {
      && QueuesValid()
      && curConnectorQe < PRIORITIES && curDisconnectorQe < PRIORITIES
      && Sound(Events())
      && view.cap == acmpQueue.size - 1
      && Agrees()
    }

    function StateOf(k: Kind): Machine
      reads this`connectorState, this`disconnectorState
    {
      if k.Connector? then connectorState else disconnectorState
    }

    function CurOf(k: Kind): nat
      reads this`curConnectorQe, this`curDisconnectorQe
    {
      if k.Connector? then curConnectorQe else curDisconnectorQe
    }

    /** The abstract state shows what the fields hold. */
    ghost predicate Agrees()
      reads this, reqQueues, acmpQueue
    {
      && view.conn == Manager(connectorState, curConnectorQe, Side(Events(), Connector))
      && view.disc == Manager(disconnectorState, curDisconnectorQe, Side(Events(), Disconnector))
      && view.acmp == acmpQueue.items
      && view.lastTick == lastTick
      && view.callbacks == callbacks
    }

    constructor (n: nat)
      requires n >= 1
      ensures Valid() && fresh(reqQueues) && fresh(reqQueues.Parts) && fresh(acmpQueue) && fresh(acmpQueue.buf)
              && view == Init(n - 1)
    {
      hide Sound, Side, ReqQueues.Valid;
      var qs := new ReqQueues(n);
      var acmp := new TComQueue<AcmpEvt>(n);
      reqQueues, acmpQueue := qs, acmp;
      memory := map[];
      connectorState, disconnectorState := Finish, Finish;
      curConnectorQe, curDisconnectorQe := 0, 0;
      lastTick := 0;
      callbacks := map[];
      tags := map[];
      view := Init(n - 1);
      new;
      EmptySound(Events());
    }

    // ----- Client calls -----

    /** The abstract state shows what the fields will hold once the queues are these. */
    ghost predicate ShowsStore(v: State, e: Store)
      reads this, acmpQueue
    {
      && Sound(e)
      && v.cap == acmpQueue.size - 1
      && v.conn == Manager(connectorState, curConnectorQe, Side(e, Connector))
      && v.disc == Manager(disconnectorState, curDisconnectorQe, Side(e, Disconnector))
      && v.acmp == acmpQueue.items && v.lastTick == lastTick && v.callbacks == callbacks
    }

    lemma PlanRequest(k: Kind, spk: Terminal, p: nat, times: int, permissions: bv32, at: Address)
        returns (v: State, e1: Store)
      requires Valid() && p < PRIORITIES && at != 0 && at !in memory
      ensures Shaped(view) && v == DoRequest(view, k, p, Some(spk), times, permissions, true)
      ensures |reqQueues.lines| == QUEUES && |Of(view, k).qs[p]| == |reqQueues.lines[Place(k, p)]|
      ensures |reqQueues.lines[Place(k, p)]| < reqQueues.size - 1 ==>
                && e1 == Posted(Events(), k, p, at, MicEvent(k, spk, permissions, Clip(times)), view.nextId)
                && ShowsStore(v, e1)
      ensures |reqQueues.lines[Place(k, p)]| >= reqQueues.size - 1 ==> v == view
    {
      v, e1 := DoRequest(view, k, p, Some(spk), times, permissions, true), Events();
      LineLength(k, p);
      if |reqQueues.lines[Place(k, p)]| < reqQueues.size - 1 {
        e1 := Posted(Events(), k, p, at, MicEvent(k, spk, permissions, Clip(times)), view.nextId);
        PostedIsRequest(view, Events(), k, p, spk, times, permissions, at);
      }
    }

    /** Allocated event and all, a request enters its queue. */
    method FileEvent(k: Kind, p: nat, at: Address, ev: MicEvent, ghost tag: Tag, ghost v: State) returns (ok: bool)
      requires Valid() && p < PRIORITIES
      requires |reqQueues.lines[Place(k, p)]| < reqQueues.size - 1 ==>
                 tag.kind == k && tag.prior == p && ShowsStore(v, Posted(Events(), k, p, at, ev, tag.id))
      requires |reqQueues.lines[Place(k, p)]| >= reqQueues.size - 1 ==> v == view
      modifies this, reqQueues, reqQueues.Parts
      ensures Valid() && view == v
      ensures ok <==> |old(reqQueues.lines)[Place(k, p)]| < reqQueues.size - 1
    {
      hide Side, Sound, ReqQueues.Valid;
      ok := reqQueues.Post(k, p, at);
      if ok {
        memory := memory[at := ev];
        tags := tags[at := tag];
      }
      view := v;
    }

    /** `Terminal_requestConnect` and `Terminal_requestDisConnect`: `at` is the address the
        allocation yields, 0 when it fails. */
    method RequestEvent(k: Kind, spk: Option<Terminal>, prior: nat, times: int, permissions: bv32, at: Address)
      returns (ok: bool)
      requires Valid() && at !in memory
      modifies this, reqQueues, reqQueues.Parts
      ensures Valid()
      ensures view == DoRequest(old(view), k, prior, spk, times, permissions, at != 0)
      ensures ok <==> spk.Some? && prior < PRIORITIES && at != 0 && |Of(old(view), k).qs[prior]| < reqQueues.size - 1
    {
      hide Valid, QueuesValid, Agrees, Of, With, Shaped, Clip;
      if spk.None? || prior >= PRIORITIES {
        return false;
      }
      if at == 0 {
        return false;
      }
      ghost var v, e1 := PlanRequest(k, spk.value, prior, times, permissions, at);
      ok := FileEvent(k, prior, at, MicEvent(k, spk.value, permissions, Clip(times)), Tag(k, prior, view.nextId), v);
    }

    /** `Terminal_postAcmpEvent`. */
    method PostAcmpEvent(evt: Option<AcmpEvt>) returns (ok: bool)
      requires Valid()
      modifies this`view, acmpQueue, acmpQueue.buf
      ensures Valid()
      ensures view == if evt.Some? then DoPostAcmp(old(view), evt.value) else old(view)
      ensures ok <==> evt.Some? && |old(view).acmp| < acmpQueue.size - 1
    {
      hide Side, Sound, ReqQueues.Valid, TComQueue<AcmpEvt>.Valid, TComQueue<Address>.Valid;
      if evt.None? {
        return false;
      }
      ok := acmpQueue.PostFifo(evt.value);
      view := DoPostAcmp(view, evt.value);
    }

    /** `Terminal_registerCallBack`: a null function is no callback. */
    method RegisterCallBack(prior: nat, owner: nat, callback: nat) returns (ok: bool)
      requires Valid()
      modifies this
      ensures Valid()
      ensures ok <==> prior < PRIORITIES && owner < MANAGER_NUM
      ensures view == if owner < MANAGER_NUM then DoRegister(old(view), KindOf(owner), prior, callback) else old(view)
    {
      hide Side, Sound;
      if prior >= PRIORITIES || owner >= MANAGER_NUM {
        return false;
      }
      if callback == 0 {
        callbacks := callbacks - {(KindOf(owner), prior)};
      } else {
        callbacks := callbacks[(KindOf(owner), prior) := callback];
      }
      view := DoRegister(view, KindOf(owner), prior, callback);
      ok := true;
    }

    /** `Terminal_delRegisterCallback`. */
    method DelRegisterCallback(prior: nat, owner: nat) returns (ok: bool)
      requires Valid()
      modifies this
      ensures Valid()
      ensures ok <==> prior < PRIORITIES && owner < MANAGER_NUM
      ensures view == if owner < MANAGER_NUM then DoDeregister(old(view), KindOf(owner), prior) else old(view)
    {
      hide Side, Sound;
      if prior >= PRIORITIES || owner >= MANAGER_NUM {
        return false;
      }
      callbacks := callbacks - {(KindOf(owner), prior)};
      view := DoDeregister(view, KindOf(owner), prior);
      ok := true;
    }

    method FindUser(k: Kind, p: nat, user: nat) returns (found: bool, a: Address, ghost i: nat)
      requires Valid() && p < PRIORITIES
      ensures i == FirstOf(Of(view, k).qs[p], user)
      ensures found <==> i < |Of(view, k).qs[p]|
      ensures found ==> i < |Events().qs[Place(k, p)]| && a == Events().qs[Place(k, p)][i] && a in memory
    {
      hide Side, Sound, FirstOf;
      LineHolds(k, p);
      found, a, i := FirstEvent(reqQueues.queues[Place(k, p)], memory, user);
      FirstOfIs(Of(view, k).qs[p], user, i);
    }

    /** What a walk along one queue relies on. */
    lemma LineHolds(k: Kind, p: nat)
      requires Valid() && p < PRIORITIES
      ensures var c, q := reqQueues.queues[Place(k, p)].items, Of(view, k).qs[p];
              && Events().qs[Place(k, p)] == c
              && |q| == |c| < reqQueues.size
              && forall i :: 0 <= i < |c| ==> c[i] != 0 && c[i] in memory && q[i].spk == memory[c[i]].spkNode
    {
      hide Sound, Side;
      LineSeen(Events(), k, p);
      assert Of(view, k).qs == Side(Events(), k);
    }

    /** `Terminal_hasEventTask`. */
    method HasEventTask(manager: nat, prior: nat, user: nat) returns (has: bool)
      requires Valid()
      ensures has <==> prior < PRIORITIES && manager < MANAGER_NUM
                       && exists r :: r in Of(view, KindOf(manager)).qs[prior] && r.spk.address == user
    {
      if prior >= PRIORITIES || manager >= MANAGER_NUM {
        return false;
      }
      var k := KindOf(manager);
      ghost var i;
      var a;
      has, a, i := FindUser(k, prior, user);
      if has {
        assert Of(view, k).qs[prior][i] in Of(view, k).qs[prior];
      }
    }

    /** `Terminal_hasTask`: either manager. */
    method HasTask(prior: nat, user: nat) returns (has: bool)
      requires Valid()
      ensures has <==> prior < PRIORITIES && exists k, r :: r in Of(view, k).qs[prior] && r.spk.address == user
    {
      has := HasEventTask(CONNECTOR, prior, user);
      if !has {
        has := HasEventTask(DISCONNECTOR, prior, user);
      }
    }

    /** `Terminal_hasTaskInQueue`: a manager out of range counts as busy. */
    method HasTaskInQueue(manager: nat) returns (noEmpty: bool)
      requires Valid()
      ensures noEmpty <==>
                manager >= MANAGER_NUM || exists p :: 0 <= p < PRIORITIES && Of(view, KindOf(manager)).qs[p] != []
    {
      hide Side, Sound;
      if manager >= MANAGER_NUM {
        return true;
      }
      var k := KindOf(manager);
      noEmpty := false;
      for p := 0 to PRIORITIES
        invariant forall p' :: 0 <= p' < p ==> Of(view, k).qs[p'] == []
      {
        var empty := reqQueues.queues[Place(k, p)].IsEmpty();
        LineHolds(k, p);
        if !empty {
          return true;
        }
      }
    }

    /** Clears the permissions of one queued event in place. */
    method RevokeAt(k: Kind, p: nat, a: Address, ghost i: nat)
      requires Valid() && p < PRIORITIES
      requires i < |Of(view, k).qs[p]| && i < |Events().qs[Place(k, p)]| && a == Events().qs[Place(k, p)][i]
      requires a in memory
      modifies this
      ensures Valid()
      ensures view == CancelAt(old(view), k, p, i)
      ensures memory.Keys == old(memory.Keys)
    {
      hide Side, Sound;
      ChangedIsCancel(view, Events(), k, p, i);
      memory := memory[a := memory[a].(permissions := 0)];
      view := CancelAt(view, k, p, i);
    }

    /** `Terminal_cancelTask`: the first queued event of the user, if any. */
    method CancelTask(manager: nat, prior: nat, user: nat) returns (found: bool)
      requires Valid()
      modifies this
      ensures Valid()
      ensures view == if manager < MANAGER_NUM then DoCancel(old(view), KindOf(manager), prior, user) else old(view)
      ensures found <==> prior < PRIORITIES && manager < MANAGER_NUM
                         && exists r :: r in Of(old(view), KindOf(manager)).qs[prior] && r.spk.address == user
    {
      hide Side, Sound;
      if prior >= PRIORITIES || manager >= MANAGER_NUM {
        return false;
      }
      var k := KindOf(manager);
      ghost var i;
      var a;
      found, a, i := FindUser(k, prior, user);
      if found {
        assert Of(view, k).qs[prior][i] in Of(view, k).qs[prior];
        RevokeAt(k, prior, a, i);
      }
    }

    /** A walk along one queue, at its i-th event, on the way to a state. */
    ghost predicate Cancelling(k: Kind, p: nat, pos: nat, i: nat, goal: State)
      requires p < PRIORITIES
      reads this, reqQueues, reqQueues.Parts, acmpQueue, acmpQueue.buf
    {
      && Valid() && Shaped(view)
      && var q := reqQueues.queues[Place(k, p)];
         && pos < q.size && i <= |q.items| == |Of(view, k).qs[p]|
         && q.items[i..] == Window(q.buf[..], pos, q.trail)
         && CancelRest(view, k, p, i) == goal
    }

    /** One turn of the walk. */
    method CancelTurn(k: Kind, p: nat, pos: nat, ghost i: nat, ghost goal: State) returns (next: nat)
      requires p < PRIORITIES && Cancelling(k, p, pos, i, goal) && pos != reqQueues.queues[Place(k, p)].trail
      modifies this
      ensures Cancelling(k, p, next, i + 1, goal) && i < |reqQueues.queues[Place(k, p)].items|
    {
      hide Side, Sound, CancelRest, CancelAt;
      var q := reqQueues.queues[Place(k, p)];
      WindowStep(q.buf[..], pos, q.trail);
      assert q.buf[pos] == q.items[i..][0];
      QueueLength(k, p);
      CancelRestStep(view, k, p, i);
      RevokeAt(k, p, q.buf[pos], i);
      assert q.items[i..][1..] == q.items[i + 1..];
      next := (pos + 1) % q.size;
    }

    lemma CancelBegins(k: Kind, p: nat)
      requires Valid() && p < PRIORITIES
      ensures Shaped(view)
      ensures Cancelling(k, p, reqQueues.queues[Place(k, p)].head, 0, DoCancelQueue(view, k, p))
    {
      QueueLength(k, p);
      hide Side, Sound, CancelRest;
    }

    lemma CancelEnds(k: Kind, p: nat, pos: nat, i: nat, goal: State)
      requires p < PRIORITIES && Cancelling(k, p, pos, i, goal) && pos == reqQueues.queues[Place(k, p)].trail
      ensures Valid() && view == goal
    {
      hide Side, Sound, CancelRest;
      CancelRestDone(view, k, p);
    }

    /** The part of `Terminal_cancelAllTask` under one lock. */
    method CancelQueue(k: Kind, p: nat)
      requires Valid() && p < PRIORITIES
      modifies this
      ensures Valid()
      ensures view == DoCancelQueue(old(view), k, p)
    {
      ghost var goal := DoCancelQueue(view, k, p);
      CancelBegins(k, p);
      var q := reqQueues.queues[Place(k, p)];
      hide *;
      CancelWalk(k, p, q, goal);
    }

    /** The walk from head to trail. */
    method CancelWalk(k: Kind, p: nat, q: TComQueue<Address>, ghost goal: State)
      requires Valid() && p < PRIORITIES && q == reqQueues.queues[Place(k, p)] && Cancelling(k, p, q.head, 0, goal)
      modifies this
      ensures Valid() && view == goal
    {
      var pos := q.head;
      ghost var i := 0;
      hide *;
      while pos != q.trail
        invariant Cancelling(k, p, pos, i, goal) && i <= |q.items|
        decreases |q.items| - i
      {
        pos := CancelTurn(k, p, pos, i, goal);
        i := i + 1;
      }
      CancelEnds(k, p, pos, i, goal);
    }

    lemma LineLength(k: Kind, p: nat)
      requires Valid() && p < PRIORITIES
      ensures |Of(view, k).qs[p]| == |Events().qs[Place(k, p)]| < reqQueues.size
      ensures |view.conn.qs| == PRIORITIES && |view.disc.qs| == PRIORITIES
    {
      LineHolds(k, p);
    }

    lemma QueueLength(k: Kind, p: nat)
      requires Valid() && p < PRIORITIES
      ensures var c := reqQueues.queues[Place(k, p)].items;
              && Events().qs[Place(k, p)] == c
              && |Of(view, k).qs[p]| == |c|
              && forall i :: 0 <= i < |c| ==> c[i] in memory
    {
      hide Sound, Side;
      LineSeen(Events(), k, p);
    }

    method CancelAllTask()
      requires Valid()
      modifies this
      ensures Valid()
      ensures view == DoCancelAll(old(view))
    {
      hide Side, Sound, DoCancelQueue;
      var manager := 0;
      while manager < 2
        invariant manager <= 2 && Valid()
        invariant CancelRows(view, manager * PRIORITIES) == DoCancelAll(old(view))
      {
        var prior := 0;
        while prior < PRIORITIES
          invariant prior <= PRIORITIES && Valid()
          invariant CancelRows(view, manager * PRIORITIES + prior) == DoCancelAll(old(view))
        {
          CancelQueue(if manager == 0 then Connector else Disconnector, prior);
          prior := prior + 1;
        }
        manager := manager + 1;
      }
    }

    // ----- The periodic routine -----

    method SetState(k: Kind, st: Machine)
      modifies this`connectorState, this`disconnectorState
      ensures StateOf(k) == st
      ensures k.Connector? ==> disconnectorState == old(disconnectorState)
      ensures k.Disconnector? ==> connectorState == old(connectorState)
    {
      if k.Connector? { connectorState := st; } else { disconnectorState := st; }
    }

    /** The event's counter, changed in place. */
    method SetBudget(a: Address, budget: Octet)
      requires a in memory
      modifies this`memory
      ensures memory == old(memory)[a := old(memory)[a].(failureTimes := budget)]
    {
      memory := memory[a := memory[a].(failureTimes := budget)];
    }

    lemma SameBudget(a: Address)
      requires a in memory
      ensures memory[a := memory[a].(failureTimes := memory[a].failureTimes)] == memory
    {}

    /** A microphone event given to a machine that has finished or failed. */
    method DispatchFresh(k: Kind, a: Address, e: Reading) returns (s: Status)
      requires a in memory && (StateOf(k).Finish? || StateOf(k).Failed?)
      modifies this`connectorState, this`disconnectorState, this`memory
      ensures var o := Dispatch(k, old(StateOf(k)), EventReq(old(memory)[a]), e);
              && StateOf(k) == o.st
              && memory == old(memory)[a := old(memory)[a].(failureTimes := o.budget)]
              && s == if o.handled then EvtHandled else EvtUnhandled
      ensures k.Connector? ==> disconnectorState == old(disconnectorState)
      ensures k.Disconnector? ==> connectorState == old(connectorState)
    {
      hide Permitted;
      var ev := memory[a];
      if !Permitted(e.sys, ev.permissions) {
        SetBudget(a, 0);
        s := EvtHandled;
      } else if AtGoal(k, e.linked) {
        SetBudget(a, 0);
        s := EvtHandled;
      } else if e.taken {
        SetBudget(a, Decrement(ev.failureTimes));
        SetState(k, Wait);
        s := EvtUnhandled;
      } else {
        s := DispatchRefused(k, a);
      }
    }

    /** A refused command: the request is finished with, or its counter steps down. */
    method DispatchRefused(k: Kind, a: Address) returns (s: Status)
      requires a in memory
      modifies this`connectorState, this`disconnectorState, this`memory
      ensures var b := old(memory)[a].failureTimes;
              && StateOf(k) == (if b == 0 then Finish else old(StateOf(k)))
              && memory == old(memory)[a := old(memory)[a].(failureTimes := if b == 0 then 0 else b - 1)]
              && s == if b == 0 then EvtHandled else EvtUnhandled
      ensures k.Connector? ==> disconnectorState == old(disconnectorState)
      ensures k.Disconnector? ==> connectorState == old(connectorState)
    {
      var failerTimes := memory[a].failureTimes;
      if failerTimes == 0 {
        SameBudget(a);
        SetState(k, Finish);
        s := EvtHandled;
      } else {
        SetBudget(a, failerTimes - 1);
        s := EvtUnhandled;
      }
    }

    /** A microphone event given to `Terminal_connectorDispatch` or `Terminal_disconnectorDispatch`.
        The event's counter is changed in place. */
    method DispatchMic(k: Kind, a: Address, e: Reading) returns (s: Status)
      requires a in memory
      modifies this`connectorState, this`disconnectorState, this`memory
      ensures old(memory)[a].sig != k ==> s == EvtSupper && memory == old(memory) && StateOf(k) == old(StateOf(k))
      ensures old(memory)[a].sig == k ==>
                var o := Dispatch(k, old(StateOf(k)), EventReq(old(memory)[a]), e);
                && StateOf(k) == o.st
                && memory == old(memory)[a := old(memory)[a].(failureTimes := o.budget)]
                && s == if o.handled then EvtHandled else EvtUnhandled
      ensures k.Connector? ==> disconnectorState == old(disconnectorState)
      ensures k.Disconnector? ==> connectorState == old(connectorState)
    {
      hide Permitted, AtGoal;
      if memory[a].sig != k {
        return EvtSupper;
      }
      match StateOf(k) {
        case Wait =>
          SameBudget(a);
          s := EvtUnhandled;
        case Success =>
          SameBudget(a);
          SetState(k, Finish);
          s := EvtHandled;
        case _ =>
          s := DispatchFresh(k, a, e);
      }
    }

    /** An ACMP event given to one of the two dispatchers. */
    method DispatchAcmp(k: Kind, evt: AcmpEvt) returns (s: Status)
      modifies this`connectorState, this`disconnectorState
      ensures StateOf(k) == OnAcmp(k, old(StateOf(k)), evt)
      ensures k.Connector? ==> disconnectorState == old(disconnectorState)
      ensures k.Disconnector? ==> connectorState == old(connectorState)
      ensures s == if old(StateOf(k)).Wait? && Addressed(k, evt) then EvtHandled else EvtSupper
    {
      s := EvtSupper;
      if StateOf(k).Wait? {
        match evt.sig {
          case ConnectRxResponse =>
            if k.Connector? {
              SetState(k, if evt.status == 0 then Success else Failed);
              s := EvtHandled;
            }
          case ConnectTimeout =>
            if k.Connector? {
              SetState(k, Failed);
              s := EvtHandled;
            }
          case DisconnectRxResponse =>
            if k.Disconnector? {
              SetState(k, if evt.status == 0 then Success else Failed);
              s := EvtHandled;
            }
          case DisconnectTimeout =>
            if k.Disconnector? {
              SetState(k, Failed);
              s := EvtHandled;
            }
        }
      }
    }

    method SetCur(k: Kind, i: nat)
      modifies this`curConnectorQe, this`curDisconnectorQe
      ensures CurOf(k) == i
      ensures k.Connector? ==> curDisconnectorQe == old(curDisconnectorQe)
      ensures k.Disconnector? ==> curConnectorQe == old(curConnectorQe)
    {
      if k.Connector? { curConnectorQe := i; } else { curDisconnectorQe := i; }
    }

    /** The fields after one machine was left in a state, to start at a queue, with these events. */
    ghost predicate Shows(v: State, k: Kind, st: Machine, cur: nat, e: Store)
      reads this, acmpQueue
    {
      && cur < PRIORITIES && curConnectorQe < PRIORITIES && curDisconnectorQe < PRIORITIES
      && v.cap == acmpQueue.size - 1
      && v.conn == Manager(if k.Connector? then st else connectorState, if k.Connector? then cur else curConnectorQe,
         Side(e, Connector))
      && v.disc == Manager(if k.Disconnector? then st else disconnectorState,
         if k.Disconnector? then cur else curDisconnectorQe, Side(e, Disconnector))
      && v.acmp == acmpQueue.items && v.lastTick == lastTick && v.callbacks == callbacks
    }

    /** The end of a settled event: it is freed, and the next scan starts at the chairman's queue. */
    method Release(k: Kind, a: Address, ghost e: Store, ghost v: State)
      requires QueuesValid()
      requires Sound(e) && e == Store(memory - {a}, tags - {a}, reqQueues.lines)
      requires Shows(v, k, StateOf(k), 0, e)
      modifies this
      ensures Valid() && view == v
    {
      hide Side, Sound, ReqQueues.Valid;
      memory := memory - {a};
      tags := tags - {a};
      SetCur(k, 0);
      view := v;
    }

    /** Where a machine goes on after a pending event: waiting at its queue, or afresh from the top. */
    method Leave(k: Kind, i: nat)
      modifies this`curConnectorQe, this`curDisconnectorQe, this`connectorState, this`disconnectorState
      ensures StateOf(k) == if old(StateOf(k)).Wait? then Wait else Finish
      ensures CurOf(k) == if old(StateOf(k)).Wait? then i else 0
      ensures k.Connector? ==>
                disconnectorState == old(disconnectorState) && curDisconnectorQe == old(curDisconnectorQe)
      ensures k.Disconnector? ==> connectorState == old(connectorState) && curConnectorQe == old(curConnectorQe)
    {
      if !StateOf(k).Wait? {
        SetCur(k, 0);
        SetState(k, Finish);
      } else {
        SetCur(k, i);
      }
    }

    /** The end of a pending event: it goes back to the head of its queue. The post cannot fail. */
    method Keep(k: Kind, i: nat, a: Address, ghost e: Store, ghost v: State)
      requires QueuesValid() && i < PRIORITIES
      requires Sound(e) && e.mem == memory && e.tags == tags
      requires PoppedFrom(reqQueues.lines, e.qs, k, i, a) && |e.qs[Place(k, i)]| < reqQueues.size
      requires Shows(v, k, if StateOf(k).Wait? then Wait else Finish, if StateOf(k).Wait? then i else 0, e)
      modifies this, reqQueues, reqQueues.Parts
      ensures Valid() && view == v
    {
      hide Side, Sound, ReqQueues.Valid;
      var back := reqQueues.Restore(k, i, a, e.qs);
      Leave(k, i);
      view := v;
    }

    /** A popped event in hand: what its dispatch will come to, what the store will then be, and
        the abstract state that store belongs to. */
    ghost predicate InHand(k: Kind, i: nat, a: Address, o: Outcome, e: Store, v: State, before: seq<seq<Address>>)
      reads this, reqQueues, acmpQueue
    {
      && i < PRIORITIES
      && a in memory && memory[a].sig == k
      && PoppedFrom(reqQueues.lines, before, k, i, a) && |before[Place(k, i)]| < reqQueues.size
      && Sound(e)
      && (o.handled ==> e == Store(memory - {a}, tags - {a}, reqQueues.lines))
      && (!o.handled ==> e == Store(memory[a := memory[a].(failureTimes := o.budget)], tags, before))
      && Shows(v, k, if o.handled || o.st.Wait? then o.st else Finish, if o.st.Wait? && !o.handled then i else 0, e)
    }

    /** Dispatches a popped event, then answers it or puts it back. */
    method Handle(k: Kind, i: nat, a: Address, e: Reading, ghost o: Outcome, ghost e1: Store, ghost v1: State,
                  ghost before: seq<seq<Address>>)
      returns (v: Visited)
      requires QueuesValid() && InHand(k, i, a, o, e1, v1, before)
      requires o == Dispatch(k, StateOf(k), EventReq(memory[a]), e)
      modifies this, reqQueues, reqQueues.Parts
      ensures Valid() && view == v1
      ensures v == Verdict(o, k, e, old(memory)[a].spkNode, old(memory)[a].permissions)
    {
      hide Side, Sound, Dispatch, PoppedFrom, ReqQueues.Valid, TComQueue<Address>.Valid, TComQueue<AcmpEvt>.Valid;
      var s := DispatchMic(k, a, e);
      if s == EvtHandled {
        v := Settled(memory[a].failureTimes > 0 || AtGoal(k, e.linkedLater), memory[a].spkNode, memory[a].permissions);
        assert memory - {a} == old(memory) - {a};
        Release(k, a, e1, v1);
      } else {
        v := Kept;
        Keep(k, i, a, e1, v1);
      }
    }

    /** Pops the head of a queue, if there is one, ready to be handled. */
    method PopHead(k: Kind, i: nat, ghost head: Address, ghost o: Outcome, ghost e1: Store, ghost v1: State)
      returns (ok: bool, a: Address)
      requires Valid() && i < PRIORITIES
      requires reqQueues.lines[Place(k, i)] != [] ==> WillBeInHand(k, i, head, o, e1, v1)
      modifies reqQueues, reqQueues.Parts
      ensures QueuesValid() && unchanged(this)
      ensures ok <==> old(reqQueues.lines)[Place(k, i)] != []
      ensures !ok ==> Valid()
      ensures ok ==> a == head && InHand(k, i, a, o, e1, v1, old(reqQueues.lines))
    {
      hide Side, Sound, Dispatch, Shows, ReqQueues.Valid, TComQueue<Address>.Valid, TComQueue<AcmpEvt>.Valid;
      ok, a := reqQueues.Pop(k, i);
    }

    /** The same promise before the pop. */
    ghost predicate WillBeInHand(k: Kind, i: nat, a: Address, o: Outcome, e: Store, v: State)
      reads this, reqQueues, acmpQueue
    {
      && i < PRIORITIES
      && |reqQueues.lines| == QUEUES
      && 0 < |reqQueues.lines[Place(k, i)]| < reqQueues.size
      && a == reqQueues.lines[Place(k, i)][0] && a in memory && memory[a].sig == k
      && Sound(e)
      && (o.handled ==> e == Store(memory - {a}, tags - {a},
         reqQueues.lines[Place(k, i) := reqQueues.lines[Place(k, i)][1..]]))
      && (!o.handled ==> e == Store(memory[a := memory[a].(failureTimes := o.budget)], tags, reqQueues.lines))
      && Shows(v, k, if o.handled || o.st.Wait? then o.st else Finish, if o.st.Wait? && !o.handled then i else 0, e)
    }

    /** What a visit will come to, whether or not there is an event to pop. */
    lemma PlanVisit(k: Kind, i: nat, e: Reading) returns (v: State, head: Address, o: Outcome, e1: Store)
      requires Valid() && i < PRIORITIES
      ensures |reqQueues.lines| == QUEUES && Shaped(view) && v == DoVisit(view, k, i, e)
      ensures reqQueues.lines[Place(k, i)] != [] ==>
                && WillBeInHand(k, i, head, o, e1, v)
                && head in memory
                && o == Dispatch(k, StateOf(k), EventReq(memory[head]), e)
                && VisitResult(view, k, i, e) == Verdict(o, k, e, memory[head].spkNode, memory[head].permissions)
      ensures reqQueues.lines[Place(k, i)] == [] ==>
                VisitResult(view, k, i, e) == NothingThere && v == view.(pc := v.pc, log := v.log)
    {
      v := DoVisit(view, k, i, e);
      LineLength(k, i);
      if Of(view, k).qs[i] == [] {
        VisitFindsNothing(view, k, i, e);
        head, o, e1 := 0, Outcome(Finish, 0, NotSent, false), Events();
      } else {
        head, o, e1 := VisitMeans(k, i, e);
      }
    }

    method SetView(ghost v: State)
      requires Valid() && v == view.(pc := v.pc, log := v.log)
      modifies this`view
      ensures Valid() && view == v
    {
      hide Side, Sound;
      view := v;
    }

    /** One turn of a scan: pop, dispatch, and answer, put back, or go on to the next queue. */
    method VisitQueue(k: Kind, i: nat, e: Reading) returns (v: Visited)
      requires Valid() && i < PRIORITIES
      modifies this, reqQueues, reqQueues.Parts
      ensures Valid()
      ensures view == DoVisit(old(view), k, i, e)
      ensures v == VisitResult(old(view), k, i, e)
      ensures v.Settled? ==>
                && AnsweredWith(view, k, i, v)
                && v.spk == Of(old(view), k).qs[i][0].spk && v.permissions == Of(old(view), k).qs[i][0].permissions
    {
      VisitSays(k, i, e);
      hide *;
      ghost var v1, head, o, e1 := PlanVisit(k, i, e);
      var ok, a := PopHead(k, i, head, o, e1, v1);
      if !ok {
        SetView(v1);
        return NothingThere;
      }
      v := Handle(k, i, a, e, o, e1, v1, old(reqQueues.lines));
    }

    /** What a visit answers, and with which arguments. */
    lemma VisitSays(k: Kind, i: nat, e: Reading)
      requires Valid() && i < PRIORITIES
      ensures |view.conn.qs| == PRIORITIES && |view.disc.qs| == PRIORITIES
      ensures var v := VisitResult(view, k, i, e);
              v.Settled? ==>
                && Of(view, k).qs[i] != []
                && AnsweredWith(DoVisit(view, k, i, e), k, i, v)
                && v.spk == Of(view, k).qs[i][0].spk && v.permissions == Of(view, k).qs[i][0].permissions
    {
      hide Sound, QueuesValid, Dispatch;
    }

    /** What the abstract visit of a non-empty queue comes to, in terms of the events. */
    lemma VisitMeans(k: Kind, i: nat, e: Reading) returns (a: Address, o: Outcome, e1: Store)
      requires Valid() && i < PRIORITIES && Of(view, k).qs[i] != []
      ensures WillBeInHand(k, i, a, o, e1, DoVisit(view, k, i, e))
      ensures o == Dispatch(k, StateOf(k), EventReq(memory[a]), e)
      ensures VisitResult(view, k, i, e) == Verdict(o, k, e, memory[a].spkNode, memory[a].permissions)
    {
      var e0 := Events();
      LineHolds(k, i);
      a := e0.qs[Place(k, i)][0];
      HeadEvent(view, e0, k, i, e);
      o := Dispatch(k, StateOf(k), EventReq(memory[a]), e);
      if o.handled {
        VisitAnswers(view, k, i, e, o);
        AnswerSeen(view, e0, k, i);
        e1 := Released(e0, k, i);
      } else {
        VisitPutsBack(view, k, i, e, o);
        PutBackSeen(view, e0, k, i, o.budget);
        e1 := Changed(e0, a, memory[a].(failureTimes := o.budget));
      }
    }

    /** The head of a pass: the ACMP event, or the tick. */
    method BeginPass(sysTick: nat) returns (go: bool)
      requires Valid()
      modifies this, acmpQueue
      ensures Valid()
      ensures view == DoBegin(old(view), sysTick)
      ensures go <==> view != old(view)
      ensures go ==> view.pc == Scan(Disconnector, view.disc.cur)
    {
      hide Side, Sound, ReqQueues.Valid;
      var got, evt := acmpQueue.PopFifo(AcmpEvt(ConnectTimeout, 0, 0, 0, 0, 0, 0));
      if got {
        var sc := DispatchAcmp(Connector, evt);
        var sd := DispatchAcmp(Disconnector, evt);
      } else if (sysTick - lastTick) % WORD < PERIOD_MS {
        return false;
      } else {
        lastTick := sysTick;
      }
      view := DoBegin(view, sysTick);
      go := true;
    }

    /** A scan on its way to a state, about to look at queue i, or past the last queue. */
    ghost predicate Scanning(k: Kind, i: nat, e: Reading, goal: State)
      reads this, reqQueues, reqQueues.Parts, acmpQueue, acmpQueue.buf
    {
      Valid() && Shaped(view) && view.pc == (if i < PRIORITIES then Scan(k, i) else After(view, k))
        && ScanRun(view, k, e) == goal
    }

    /** A scan that has arrived. */
    ghost predicate ScanStopped(k: Kind, i: nat, v: Visited, goal: State)
      reads this, reqQueues, reqQueues.Parts, acmpQueue, acmpQueue.buf
    {
      && Valid() && Shaped(view) && view == goal
      && (v.Settled? <==> view.pc == Calling(k))
      && (!v.Settled? ==> view.pc == After(view, k))
      && (v.Settled? ==> i < PRIORITIES && AnsweredWith(view, k, i, v))
    }

    /** One turn, as part of the whole scan. */
    method ScanAt(k: Kind, i: nat, e: Reading, ghost goal: State) returns (v: Visited)
      requires i < PRIORITIES && Scanning(k, i, e, goal)
      modifies this, reqQueues, reqQueues.Parts
      ensures v.NothingThere? ==> Scanning(k, i + 1, e, goal)
      ensures !v.NothingThere? ==> ScanStopped(k, i, v, goal)
    {
      hide Valid, DoVisit, ScanRun, VisitResult, Dispatch, Shaped, After, AnsweredWith;
      ScanTurn(view, k, e);
      v := VisitQueue(k, i, e);
      ScanEnds(view, k);
      if !v.NothingThere? {
        ScanOver(view, k, e);
      }
    }

    lemma ScanBegins(k: Kind, e: Reading)
      requires Valid() && Shaped(view) && view.pc == Scan(k, Of(view, k).cur)
      ensures Scanning(k, CurOf(k), e, ScanRun(view, k, e))
    {
      CurShown(k);
      hide Valid, ScanRun;
    }

    lemma ScanExhausted(k: Kind, i: nat, e: Reading, goal: State)
      requires i >= PRIORITIES && Scanning(k, i, e, goal)
      ensures ScanStopped(k, i, NothingThere, goal)
    {
      hide Valid, ScanRun, Shaped, After, AnsweredWith;
      ScanEnds(view, k);
      ScanOver(view, k, e);
    }

    /** The loop over one manager's queues. */
    method ScanQueues(k: Kind, e: Reading) returns (v: Visited, i: nat)
      requires Valid() && Shaped(view) && view.pc == Scan(k, Of(view, k).cur)
      modifies this, reqQueues, reqQueues.Parts
      ensures ScanStopped(k, i, v, ScanRun(old(view), k, e))
    {
      hide *;
      ghost var goal := ScanRun(view, k, e);
      v, i := NothingThere, CurOf(k);
      ScanBegins(k, e);
      while i < PRIORITIES
        invariant v.NothingThere? && Scanning(k, i, e, goal)
        decreases PRIORITIES - i
      {
        v := ScanAt(k, i, e, goal);
        if !v.NothingThere? {
          return;
        }
        i := i + 1;
      }
      ScanExhausted(k, i, e, goal);
    }

    /** What follows a machine's scan is neither a scan of the same machine nor its callback. */
    lemma ScanEnds(s: State, k: Kind)
      ensures !(After(s, k).Scan? && After(s, k).kind == k) && !After(s, k).Calling?
    {}

    lemma CurShown(k: Kind)
      requires Valid()
      ensures CurOf(k) == Of(view, k).cur < PRIORITIES
    {}

    /** The allocator: null, or an address not in use. */
    method Malloc() returns (a: Address)
      ensures a == 0 || a !in memory
    {
      a := *;
      if a in memory {
        a := 0;
      }
    }

    /** A request with whatever the allocator gives. */
    method CallRequest(k: Kind, p: nat, spk: Option<Terminal>, times: int, permissions: bv32)
        returns (ghost memory': bool)
      requires Valid() && Shaped(view)
      modifies this, reqQueues, reqQueues.Parts
      ensures Valid() && Shaped(view)
      ensures view == DoRequest(old(view), k, p, spk, times, permissions, memory')
    {
      var at := Malloc();
      if at == 0 { NullFree(); }
      memory' := at != 0;
      StepShaped(view, Request(k, p, spk, times, permissions, memory'));
      hide Valid, DoRequest;
      var ok := RequestEvent(k, spk, p, times, permissions, at);
    }

    /** A call whose outcome the program's own state decides. */
    method CallOther(l: Label)
      requires Valid() && Shaped(view) && IsCall(l) && !l.Request?
      modifies this, reqQueues, reqQueues.Parts, acmpQueue, acmpQueue.buf
      ensures Valid() && view == Step(old(view), l)
    {
      hide Valid, DoCancel, DoCancelQueue;
      match l {
        case Cancel(k, p, user) =>
          var ok := CancelTask(Index(k), p, user);
        case CancelQueue(k, p) =>
          CancelIfInRange(k, p);
        case Register(k, p, callback) =>
          var ok := RegisterCallBack(p, Index(k), callback);
        case Deregister(k, p) =>
          var ok := DelRegisterCallback(p, Index(k));
        case PostAcmp(evt) =>
          var ok := PostAcmpEvent(Some(evt));
        case _ =>
      }
    }

    method Call(l: Label) returns (ghost l': Label)
      requires Valid() && Shaped(view) && IsCall(l)
      modifies this, reqQueues, reqQueues.Parts, acmpQueue, acmpQueue.buf
      ensures Valid() && Shaped(view)
      ensures SameCall(l, l') && view == Step(old(view), l')
    {
      l' := l;
      StepShaped(view, l);
      hide Valid, DoRequest;
      if l.Request? {
        ghost var memory' := CallRequest(l.kind, l.prior, l.spk, l.times, l.permissions);
        l' := l.(memory := memory');
      } else {
        hide Step;
        CallOther(l);
      }
    }

    method CancelIfInRange(k: Kind, p: nat)
      requires Valid() && Shaped(view)
      modifies this
      ensures Valid() && view == DoCancelQueue(old(view), k, p)
    {
      if p < PRIORITIES {
        CancelQueue(k, p);
      }
    }

    lemma NullFree()
      requires Valid()
      ensures 0 !in memory
    {
      if 0 in memory {
        var e := Events();
        assert 0 in e.tags;
        var t := e.tags[0];
        Disjoint(e, t.kind, t.prior, 0);
      }
    }

    /** The calls a callback makes, one after another. */
    method MakeCalls(calls: seq<Label>) returns (ghost made: seq<Label>)
      requires Valid() && Shaped(view)
      requires forall l :: l in calls ==> IsCall(l)
      modifies this, reqQueues, reqQueues.Parts, acmpQueue, acmpQueue.buf
      ensures Valid() && Shaped(view)
      ensures |made| == |calls| && forall i :: 0 <= i < |calls| ==> SameCall(calls[i], made[i])
      ensures view == Run(old(view), made)
    {
      hide Valid, Shaped, Step, IsCall, SameCall;
      made := [];
      for n := 0 to |calls|
        invariant Valid() && Shaped(view)
        invariant |made| == n && forall i :: 0 <= i < n ==> SameCall(calls[i], made[i])
        invariant view == Run(old(view), made)
      {
        var l := Call(calls[n]);
        RunSnoc(old(view), made, l);
        made := made + [l];
      }
    }

    /** The callback of an answered request, when one is registered: which function is called, and what
        it is given. */
    method Answer(k: Kind, i: nat, v: Visited, calls: seq<Label>)
      returns (called: Option<Delivery>, ghost made: seq<Label>)
      requires Valid() && Shaped(view) && view.pc == Calling(k)
      requires v.Settled? && AnsweredWith(view, k, i, v)
      requires forall l :: l in calls ==> IsCall(l)
      modifies this, reqQueues, reqQueues.Parts, acmpQueue, acmpQueue.buf
      ensures Valid() && Shaped(view)
      ensures |made| == |calls| && forall j :: 0 <= j < |calls| ==> SameCall(calls[j], made[j])
      ensures view == CallbackRun(old(view), made)
      ensures view.pc == After(view, k)
      ensures called == Reported(old(view))
      ensures called.Some? ==> called.value == Delivery(called.value.callback, v.told, v.spk, v.permissions)
    {
      hide Side, Sound, ReqQueues.Valid, Run, CallbackRun, Shaped, IsCall, SameCall;
      made, called := calls, None;
      CallbackEnds(view, made);
      if (k, i) in callbacks {
        called := Some(Delivery(callbacks[(k, i)], v.told, v.spk, v.permissions));
        made := MakeCalls(calls);
        AskedAreCalls(calls, made);
        CallbackEnds(old(view), made);
      } else {
        assert Run(view, []) == view by { NoCalls(view); }
        SameCalls(calls);
      }
      SetView(view.(pc := After(view, k)));
    }

    /** Scan and callback of one manager. */
    method HalfTask(k: Kind, e: Reading, calls: seq<Label>) returns (called: Option<Delivery>, ghost made: seq<Label>)
      requires Valid() && Shaped(view) && view.pc == Scan(k, Of(view, k).cur)
      requires forall l :: l in calls ==> IsCall(l)
      modifies this, reqQueues, reqQueues.Parts, acmpQueue, acmpQueue.buf
      ensures Valid() && Shaped(view)
      ensures |made| == |calls| && forall j :: 0 <= j < |calls| ==> SameCall(calls[j], made[j])
      ensures view == HalfPass(old(view), k, e, made)
      ensures view.pc == After(view, k)
      ensures called == Reported(ScanRun(old(view), k, e))
    {
      hide Valid, ScanRun, Shaped, IsCall, SameCall, AnsweredWith;
      made, called := calls, None;
      var v, i := ScanQueues(k, e);
      ScanEnds(view, k);
      if v.Settled? {
        hide CallbackRun, Reported;
        called, made := Answer(k, i, v, calls);
      } else {
        SameCalls(calls);
      }
    }

    /** The periodic task. The readings and the calls its two callbacks make come from outside; out go
        the calls of the two callbacks, with their arguments. */
    method MicManagerTask(sysTick: nat, ed: Reading, callsD: seq<Label>, ec: Reading, callsC: seq<Label>)
      returns (r: int, calledD: Option<Delivery>, calledC: Option<Delivery>,
               ghost madeD: seq<Label>, ghost madeC: seq<Label>)
      requires Valid() && Shaped(view) && view.pc.Idle?
      requires forall l :: l in callsD ==> IsCall(l)
      requires forall l :: l in callsC ==> IsCall(l)
      modifies this, reqQueues, reqQueues.Parts, acmpQueue, acmpQueue.buf
      ensures Valid() && Shaped(view) && view.pc.Idle?
      ensures |madeD| == |callsD| && forall j :: 0 <= j < |callsD| ==> SameCall(callsD[j], madeD[j])
      ensures |madeC| == |callsC| && forall j :: 0 <= j < |callsC| ==> SameCall(callsC[j], madeC[j])
      ensures view == Pass(old(view), sysTick, ed, madeD, ec, madeC)
      ensures (calledD, calledC) == CalledInPass(old(view), sysTick, ed, madeD, ec)
    {
      hide Valid, HalfPass, Pass, DoBegin, IsCall, SameCall, ScanRun, Reported;
      BeginShaped(view, sysTick);
      r, calledD, calledC, madeD, madeC := 0, None, None, callsD, callsC;
      var go := BeginPass(sysTick);
      if !go {
        SameCalls(callsD);
        SameCalls(callsC);
        PassSkipped(old(view), sysTick, ed, madeD, ec, madeC);
        return;
      }
      calledD, madeD := HalfTask(Disconnector, ed, callsD);
      calledC, madeC := HalfTask(Connector, ec, callsC);
      PassHalves(old(view), sysTick, ed, madeD, ec, madeC);
    }
  }

  /** The walk shared by `Terminal_hasTask`, `Terminal_hasEventTask` and `Terminal_cancelTask`:
      the first queued event of a user, from the head of the deque to its trail. */
  method FirstEvent(q: TComQueue<Address>, memory: map<Address, MicEvent>, user: nat)
    returns (found: bool, a: Address, ghost i: nat)
    requires q.Valid()
    requires forall j :: 0 <= j < |q.items| ==> q.items[j] != 0 && q.items[j] in memory
    ensures i <= |q.items|
    ensures found <==> i < |q.items|
    ensures found <==> exists j :: 0 <= j < |q.items| && memory[q.items[j]].spkNode.address == user
    ensures found ==> a == q.items[i] && memory[a].spkNode.address == user
    ensures forall j :: 0 <= j < i ==> memory[q.items[j]].spkNode.address != user
  {
    var pos := q.head;
    i, found, a := 0, false, 0;
    while pos != q.trail
      invariant 0 <= pos < q.size && i <= |q.items| && !found
      invariant q.items[i..] == Window(q.buf[..], pos, q.trail)
      invariant forall j :: 0 <= j < i ==> memory[q.items[j]].spkNode.address != user
      decreases |q.items| - i
    {
      WindowStep(q.buf[..], pos, q.trail);
      assert q.buf[pos] == q.items[i..][0];
      a := q.buf[pos];
      if a != 0 && memory[a].spkNode.address == user {
        found := true;
        return;
      }
      assert q.items[i..][1..] == q.items[i + 1..];
      pos, i := (pos + 1) % q.size, i + 1;
    }
  }
}
