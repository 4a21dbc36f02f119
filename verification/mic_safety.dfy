/**
 Every run of the microphone manager has a safe history, whatever the environment answers and
 however client calls fall between the steps of a pass.
 */
module MicSafety {
  import opened Words
  import opened MicHistory
  import opened MicModel

  function Ids(q: seq<Req>): (ids: seq<nat>)
    ensures |ids| == |q|
    ensures forall i :: 0 <= i < |q| ==> ids[i] == q[i].id
  {
    seq(|q|, i requires 0 <= i < |q| => q[i].id)
  }

  ghost predicate Increasing(ids: seq<nat>) {
    forall i, j :: 0 <= i < j < |ids| ==> ids[i] < ids[j]
  }

  /** No entry names a request number from `n` on. */
  ghost predicate Known(h: History, n: nat) {
    match h
    case Nil => true
    case Snoc(h', e) =>
      Known(h', n) && (e.Granted? || e.Cancelled? || e.Tried? || e.Answered? ==> e.id < n)
  }

  /** What a queued request's own fields owe to the history. */
  ghost predicate FieldsAgree(h: History, k: Kind, p: nat, r: Req) {
    && r.budget == Remaining(h, k, p, r.id)
    && r.spk == Target(h, k, p, r.id)
    && r.permissions == Entitled(h, k, p, r.id)
  }

  /** Conservation: answered requests, then queued ones, are the accepted ones in order. */
  ghost predicate QueueInv(h: History, k: Kind, p: nat, q: seq<Req>, n: nat) {
    && Done(h, k, p) + Ids(q) == Accepted(h, k, p)
    && Increasing(Accepted(h, k, p))
    && (forall i :: 0 <= i < |Accepted(h, k, p)| ==> Accepted(h, k, p)[i] < n)
    && (forall i :: 0 <= i < |q| ==> FieldsAgree(h, k, p, q[i]))
  }

  /** The scan of machine `k` is still to come in this pass. */
  predicate ScanAhead(pc: Pc, k: Kind, cur: nat) {
    match pc
    case Idle => false
    case Calling(k') => k'.Disconnector? && k.Connector?
    case Scan(k', i) => if k' == k then i == cur else k'.Disconnector?
  }

  /**
   The machine state is what the history says of the command in flight, and a command in flight
   belongs to the head of the queue the next scan starts at. Outside a pass only a waiting
   machine has a command in flight, and every other machine starts at the chairman's queue.
   */
  ghost predicate FlightInv(h: History, k: Kind, m: Manager, pc: Pc)
    requires |m.qs| == PRIORITIES
  {
    && m.cur < PRIORITIES
    && match InFlight(h, k) {
         case Free => (m.st.Finish? || m.st.Failed?) && m.cur == 0
         case Waiting(p, id) => m.st.Wait? && HeadIs(m, p, id)
         case Resolved(p, id, ok, _) => m.st == (if ok then Success else Failed) && HeadIs(m, p, id)
           && ScanAhead(pc, k, m.cur)
       }
  }

  ghost predicate HeadIs(m: Manager, p: nat, id: nat)
    requires |m.qs| == PRIORITIES
  {
    m.cur == p < PRIORITIES && m.qs[p] != [] && m.qs[p][0].id == id
  }

  ghost predicate PassInv(h: History, pc: Pc) {
    match pc
    case Idle => true
    case Calling(k) => k.Disconnector? ==> TriedInPass(h, Connector) == 0
    case Scan(k, i) =>
      && i < PRIORITIES
      && TriedInPass(h, k) == 0
      && (k.Disconnector? ==> TriedInPass(h, Connector) == 0)
      && (InFlight(h, k).Free? ==> forall p :: 0 <= p < i ==> SeenEmpty(h, k, p))
  }

  ghost predicate ManagerInv(h: History, k: Kind, m: Manager, pc: Pc, cap: nat, n: nat) {
    && |m.qs| == PRIORITIES
    && (forall p :: 0 <= p < PRIORITIES ==> |m.qs[p]| <= cap)
    && (forall p :: 0 <= p < PRIORITIES ==> QueueInv(h, k, p, m.qs[p], n))
    && FlightInv(h, k, m, pc)
    && (pc.Scan? && pc.kind == k && !InFlight(h, k).Free? ==> pc.at == m.cur)
  }

  ghost predicate Inv(s: State) {
    && ManagerInv(s.log, Connector, s.conn, s.pc, s.cap, s.nextId)
    && ManagerInv(s.log, Disconnector, s.disc, s.pc, s.cap, s.nextId)
    && PassInv(s.log, s.pc)
    && Known(s.log, s.nextId)
    && SafeHistory(s.log)
    && !EndsSettled(s.log)
  }

  lemma InitInv(cap: nat)
    ensures Inv(Init(cap))
  {
    NewManagerInv(Connector, cap);
    NewManagerInv(Disconnector, cap);
    hide ManagerInv;
  }

  lemma NewManagerInv(k: Kind, cap: nat)
    ensures ManagerInv(Nil, k, NewManager, Idle, cap, 0)
  {
    NewQueueInv(k, 0);
    NewQueueInv(k, 1);
    NewQueueInv(k, 2);
    hide QueueInv;
  }

  lemma NewQueueInv(k: Kind, p: nat)
    ensures QueueInv(Nil, k, p, [], 0)
  {}

  lemma InvParts(s: State, k: Kind)
    requires Inv(s)
    ensures ManagerInv(s.log, k, Of(s, k), s.pc, s.cap, s.nextId)
    ensures PassInv(s.log, s.pc) && SafeHistory(s.log) && !EndsSettled(s.log) && Known(s.log, s.nextId)
  {
    hide ManagerInv;
  }

  /** An unknown number has no past. */
  lemma {:induction false} Unknown(h: History, k: Kind, p: nat, id: nat)
    requires Known(h, id)
    ensures Spent(h, k, p, id) == 0 && !IsCancelled(h, k, p, id)
  {
    if h.Snoc? { Unknown(h.init, k, p, id); }
  }

  lemma {:induction false} KnownMore(h: History, n: nat, n': nat)
    requires Known(h, n) && n <= n'
    ensures Known(h, n')
  {
    if h.Snoc? { KnownMore(h.init, n, n'); }
  }

  lemma Distinct(h: History, k: Kind, p: nat, q: seq<Req>, n: nat, i: nat, j: nat)
    requires QueueInv(h, k, p, q, n)
    requires i < |q| && j < |q| && i != j
    ensures q[i].id != q[j].id
  {
    var d := |Done(h, k, p)|;
    assert Accepted(h, k, p)[d + i] == Ids(q)[i];
    assert Accepted(h, k, p)[d + j] == Ids(q)[j];
  }

  lemma HeadIsOldest(h: History, k: Kind, p: nat, q: seq<Req>, n: nat)
    requires QueueInv(h, k, p, q, n) && q != []
    ensures IsOldest(h, k, p, q[0].id)
  {
    assert Accepted(h, k, p)[|Done(h, k, p)|] == Ids(q)[0];
  }

  /** Entries about one queue say nothing about another. */
  predicate Concerns(e: Entry, k: Kind, p: nat) {
    (e.Granted? || e.Cancelled? || e.Tried? || e.Answered?) && e.kind == k && e.prior == p
  }

  lemma QueueFrame(h: History, e: Entry, k: Kind, p: nat, q: seq<Req>, n: nat, n': nat)
    requires QueueInv(h, k, p, q, n) && n <= n'
    requires !Concerns(e, k, p)
    ensures QueueInv(Snoc(h, e), k, p, q, n')
  {
    forall i | 0 <= i < |q| ensures FieldsAgree(Snoc(h, e), k, p, q[i]) {
      assert FieldsAgree(h, k, p, q[i]);
    }
  }

  lemma ManagerFrame(h: History, e: Entry, k: Kind, m: Manager, pc: Pc, cap: nat, n: nat, n': nat)
    requires ManagerInv(h, k, m, pc, cap, n) && n <= n'
    requires forall p :: !Concerns(e, k, p)
    requires InFlight(Snoc(h, e), k) == InFlight(h, k)
    ensures ManagerInv(Snoc(h, e), k, m, pc, cap, n')
  {
    forall p | 0 <= p < PRIORITIES ensures QueueInv(Snoc(h, e), k, p, m.qs[p], n') {
      QueueFrame(h, e, k, p, m.qs[p], n, n');
    }
  }

  lemma GrantQueue(h: History, k: Kind, p: nat, q: seq<Req>, r: Req)
    requires QueueInv(h, k, p, q, r.id) && Known(h, r.id) && !EndsSettled(h)
    ensures QueueInv(Snoc(h, Granted(k, p, r.id, r.budget, r.spk, r.permissions)), k, p, q + [r], r.id + 1)
    ensures SafeEntry(h, Granted(k, p, r.id, r.budget, r.spk, r.permissions))
  {
    GrantAccount(h, k, p, q, r);
    forall i | 0 <= i < |q + [r]|
      ensures FieldsAgree(Snoc(h, Granted(k, p, r.id, r.budget, r.spk, r.permissions)), k, p, (q + [r])[i])
    {
      if i < |q| { assert Ids(q)[i] == Accepted(h, k, p)[|Done(h, k, p)| + i]; }
      GrantFields(h, k, p, r, (q + [r])[i]);
    }
    hide FieldsAgree, Increasing, Accepted, Done, Ids;
  }

  lemma GrantAccount(h: History, k: Kind, p: nat, q: seq<Req>, r: Req)
    requires QueueInv(h, k, p, q, r.id)
    ensures var h', ids := Snoc(h, Granted(k, p, r.id, r.budget, r.spk, r.permissions)), Accepted(h, k, p) + [r.id];
            && Accepted(h', k, p) == ids && Done(h', k, p) == Done(h, k, p)
            && Done(h, k, p) + Ids(q + [r]) == ids
            && Increasing(ids) && forall i :: 0 <= i < |ids| ==> ids[i] < r.id + 1
  {
    assert Ids(q + [r]) == Ids(q) + [r.id];
  }

  lemma GrantFields(h: History, k: Kind, p: nat, r: Req, r0: Req)
    requires Known(h, r.id) && (r0 == r || (FieldsAgree(h, k, p, r0) && r0.id < r.id))
    ensures FieldsAgree(Snoc(h, Granted(k, p, r.id, r.budget, r.spk, r.permissions)), k, p, r0)
  {
    Unknown(h, k, p, r.id);
  }

  /** A client call that edits one queue, keeps its head and logs itself. */
  lemma EditKeepsManager(h: History, e: Entry, k: Kind, p: nat, m: Manager, q': seq<Req>, pc: Pc, cap: nat, n: nat,
      n': nat)
    requires ManagerInv(h, k, m, pc, cap, n) && n <= n' && p < PRIORITIES
    requires e.Granted? || e.Cancelled?
    requires e.kind == k && e.prior == p
    requires |q'| <= cap && QueueInv(Snoc(h, e), k, p, q', n')
    requires m.qs[p] != [] ==> q' != [] && q'[0].id == m.qs[p][0].id
    ensures ManagerInv(Snoc(h, e), k, m.(qs := m.qs[p := q']), pc, cap, n')
  {
    EditKeepsOthers(h, e, k, p, m, n, n');
    EditKeepsFlight(h, e, k, p, m, q', pc);
    assert InFlight(Snoc(h, e), k) == InFlight(h, k);
    hide QueueInv, FlightInv, InFlight;
  }

  lemma EditKeepsFlight(h: History, e: Entry, k: Kind, p: nat, m: Manager, q': seq<Req>, pc: Pc)
    requires |m.qs| == PRIORITIES && p < PRIORITIES && FlightInv(h, k, m, pc) && (e.Granted? || e.Cancelled?)
    requires m.qs[p] != [] ==> q' != [] && q'[0].id == m.qs[p][0].id
    ensures FlightInv(Snoc(h, e), k, m.(qs := m.qs[p := q']), pc)
  {
    assert InFlight(Snoc(h, e), k) == InFlight(h, k);
  }

  lemma EditKeepsOthers(h: History, e: Entry, k: Kind, p: nat, m: Manager, n: nat, n': nat)
    requires |m.qs| == PRIORITIES && n <= n' && (e.Granted? || e.Cancelled?) && e.kind == k && e.prior == p
    requires forall p' :: 0 <= p' < PRIORITIES ==> QueueInv(h, k, p', m.qs[p'], n)
    ensures forall p' :: 0 <= p' < PRIORITIES && p' != p ==> QueueInv(Snoc(h, e), k, p', m.qs[p'], n')
  {
    forall p' | 0 <= p' < PRIORITIES && p' != p ensures QueueInv(Snoc(h, e), k, p', m.qs[p'], n') {
      QueueFrame(h, e, k, p', m.qs[p'], n, n');
    }
  }

  lemma PassFrame(h: History, e: Entry, pc: Pc)
    requires PassInv(h, pc)
    requires e.Granted? || e.Cancelled?
    ensures PassInv(Snoc(h, e), pc)
  {
    if pc.Scan? && InFlight(h, pc.kind).Free? {
      forall p | 0 <= p < pc.at ensures SeenEmpty(Snoc(h, e), pc.kind, p) {
        assert SeenEmpty(h, pc.kind, p);
      }
    }
  }

  lemma EditKeepsInv(s: State, e: Entry, k: Kind, p: nat, q': seq<Req>, n': nat)
    requires Inv(s) && s.nextId <= n' && p < PRIORITIES
    requires e.Granted? || e.Cancelled?
    requires e.kind == k && e.prior == p && e.id < n' && SafeEntry(s.log, e)
    requires |q'| <= s.cap && QueueInv(Snoc(s.log, e), k, p, q', n')
    requires Of(s, k).qs[p] != [] ==> q' != [] && q'[0].id == Of(s, k).qs[p][0].id
    ensures var m := Of(s, k);
            Inv(With(s, k, m.(qs := m.qs[p := q'])).(nextId := n', log := Snoc(s.log, e)))
  {
    EditKeepsManager(s.log, e, k, p, Of(s, k), q', s.pc, s.cap, s.nextId, n');
    ManagerFrame(s.log, e, Other(k), Of(s, Other(k)), s.pc, s.cap, s.nextId, n');
    KnownMore(s.log, s.nextId, n');
    PassFrame(s.log, e, s.pc);
  }

  /** A request that is accepted is an edit of its queue. */
  lemma RequestIs(s: State, k: Kind, p: nat, spk: Terminal, times: int, permissions: bv32)
    requires Shaped(s) && p < PRIORITIES && |Of(s, k).qs[p]| < s.cap
    ensures var m, r := Of(s, k), Req(s.nextId, spk, permissions, Clip(times));
            DoRequest(s, k, p, Some(spk), times, permissions, true)
            == With(s, k, m.(qs := m.qs[p := m.qs[p] + [r]])).(nextId := s.nextId + 1,
              log := Snoc(s.log, Granted(k, p, r.id, r.budget, r.spk, r.permissions)))
  {}

  lemma RequestKeepsInv(s: State, k: Kind, p: nat, spk: Option<Terminal>, times: int, permissions: bv32, memory: bool)
    requires Inv(s)
    ensures Inv(DoRequest(s, k, p, spk, times, permissions, memory))
  {
    assert Shaped(s);
    if spk.Some? && p < PRIORITIES && memory && |Of(s, k).qs[p]| < s.cap {
      var q := Of(s, k).qs[p];
      var r := Req(s.nextId, spk.value, permissions, Clip(times));
      InvParts(s, k);
      assert QueueInv(s.log, k, p, q, s.nextId);
      RequestIs(s, k, p, spk.value, times, permissions);
      hide *;
      GrantQueue(s.log, k, p, q, r);
      EditKeepsInv(s, Granted(k, p, r.id, r.budget, r.spk, r.permissions), k, p, q + [r], s.nextId + 1);
    } else {
      assert DoRequest(s, k, p, spk, times, permissions, memory) == s;
      hide *;
    }
  }

  lemma CancelQueueAt(h: History, k: Kind, p: nat, q: seq<Req>, n: nat, i: nat)
    requires QueueInv(h, k, p, q, n) && i < |q|
    ensures QueueInv(Snoc(h, Cancelled(k, p, q[i].id)), k, p, q[i := q[i].(permissions := 0)], n)
    ensures q[i].id < n && q[i].id in Accepted(h, k, p)
  {
    var h' := Snoc(h, Cancelled(k, p, q[i].id));
    var q' := q[i := q[i].(permissions := 0)];
    assert Ids(q') == Ids(q);
    forall j | 0 <= j < |q'| ensures FieldsAgree(h', k, p, q'[j]) {
      assert FieldsAgree(h, k, p, q[j]);
      if j != i { Distinct(h, k, p, q, n, i, j); }
      CancelFields(h, k, p, q[i].id, q[j]);
    }
    assert Accepted(h, k, p)[|Done(h, k, p)| + i] == Ids(q)[i];
    hide FieldsAgree;
  }

  lemma CancelFields(h: History, k: Kind, p: nat, id: nat, r: Req)
    requires FieldsAgree(h, k, p, r)
    ensures var h' := Snoc(h, Cancelled(k, p, id));
            FieldsAgree(h', k, p, if r.id == id then r.(permissions := 0) else r)
  {}

  lemma CancelAtKeepsInv(s: State, k: Kind, p: nat, i: nat)
    requires Inv(s) && p < PRIORITIES && i < |Of(s, k).qs[p]|
    ensures Inv(CancelAt(s, k, p, i))
  {
    var q := Of(s, k).qs[p];
    CancelQueueAt(s.log, k, p, q, s.nextId, i);
    EditKeepsInv(s, Cancelled(k, p, q[i].id), k, p, q[i := q[i].(permissions := 0)], s.nextId);
  }

  lemma {:induction false} CancelRestKeepsInv(s: State, k: Kind, p: nat, i: nat)
    requires Inv(s) && p < PRIORITIES && i <= |Of(s, k).qs[p]|
    ensures Inv(CancelRest(s, k, p, i))
    decreases |Of(s, k).qs[p]| - i
  {
    if i == |Of(s, k).qs[p]| {
      CancelRestDone(s, k, p);
    } else {
      CancelRestStep(s, k, p, i);
      CancelAtKeepsInv(s, k, p, i);
      CancelRestKeepsInv(CancelAt(s, k, p, i), k, p, i + 1);
    }
  }

  lemma CancelQueueKeepsInv(s: State, k: Kind, p: nat)
    requires Inv(s)
    ensures Inv(DoCancelQueue(s, k, p))
  {
    if p < PRIORITIES { CancelRestKeepsInv(s, k, p, 0); }
  }

  // ----- The periodic routine -----

  /** Neither a pass mark, a result, nor an empty queue touches a queue's account. */
  lemma MarkKeepsQueues(h: History, e: Entry, k: Kind, m: Manager, n: nat)
    requires |m.qs| == PRIORITIES
    requires forall p :: 0 <= p < PRIORITIES ==> QueueInv(h, k, p, m.qs[p], n)
    requires e.PassStart? || e.Heard? || e.Empty?
    ensures forall p :: 0 <= p < PRIORITIES ==> QueueInv(Snoc(h, e), k, p, m.qs[p], n)
  {
    forall p | 0 <= p < PRIORITIES ensures QueueInv(Snoc(h, e), k, p, m.qs[p], n) {
      QueueFrame(h, e, k, p, m.qs[p], n, n);
    }
  }

  /** What an ACMP event does to the two machines between the start of a pass and its scans. */
  lemma AcmpKeepsManager(h: History, k: Kind, m: Manager, evt: AcmpEvt, pc: Pc, cap: nat, n: nat)
    requires ManagerInv(h, k, m, pc, cap, n)
    requires pc.Scan? && pc.kind.Disconnector? && (k.Disconnector? ==> pc.at == m.cur)
    ensures ManagerInv(LogAcmp(h, k, m.st, evt), k, m.(st := OnAcmp(k, m.st, evt)), pc, cap, n)
  {
    if m.st.Wait? && Addressed(k, evt) {
      MarkKeepsQueues(h, Heard(k, evt.sig, evt.status, evt.talkerId), k, m, n);
    }
  }

  lemma AcmpKeepsOther(h: History, k: Kind, st: Machine, evt: AcmpEvt, m: Manager, pc: Pc, cap: nat, n: nat)
    requires ManagerInv(h, Other(k), m, pc, cap, n)
    ensures ManagerInv(LogAcmp(h, k, st, evt), Other(k), m, pc, cap, n)
  {
    if st.Wait? && Addressed(k, evt) {
      ManagerFrame(h, Heard(k, evt.sig, evt.status, evt.talkerId), Other(k), m, pc, cap, n, n);
    }
  }

  lemma StartKeepsManager(h: History, k: Kind, m: Manager, i: nat, cap: nat, n: nat)
    requires ManagerInv(h, k, m, Idle, cap, n)
    requires k.Disconnector? ==> i == m.cur
    ensures ManagerInv(Snoc(h, PassStart), k, m, Scan(Disconnector, i), cap, n)
  {
    MarkKeepsQueues(h, PassStart, k, m, n);
  }

  lemma AcmpKeepsHistory(h: History, k: Kind, m: Manager, evt: AcmpEvt, pc: Pc, cap: nat, n: nat)
    requires ManagerInv(h, k, m, pc, cap, n)
    requires SafeHistory(h) && Known(h, n) && !EndsSettled(h)
    ensures var h' := LogAcmp(h, k, m.st, evt);
            && SafeHistory(h') && Known(h', n) && !EndsSettled(h')
            && TriedInPass(h', Connector) == TriedInPass(h, Connector)
            && TriedInPass(h', Disconnector) == TriedInPass(h, Disconnector)
  {}

  /** After the head of a pass nothing was tried, and a free disconnector starts at the top. */
  lemma StartPass(h: History, m: Manager, cap: nat, n: nat)
    requires ManagerInv(h, Disconnector, m, Scan(Disconnector, m.cur), cap, n)
    requires TriedInPass(h, Connector) == 0 && TriedInPass(h, Disconnector) == 0
    ensures PassInv(h, Scan(Disconnector, m.cur))
  {}

  lemma AcmpKeepsInv(s: State, evt: AcmpEvt)
    requires Inv(s) && s.pc == Scan(Disconnector, s.disc.cur)
    requires TriedInPass(s.log, Connector) == 0 && TriedInPass(s.log, Disconnector) == 0
    ensures Inv(s.(conn := s.conn.(st := OnAcmp(Connector, s.conn.st, evt)),
                   disc := s.disc.(st := OnAcmp(Disconnector, s.disc.st, evt)),
                   log := LogAcmp(LogAcmp(s.log, Connector, s.conn.st, evt), Disconnector, s.disc.st, evt)))
  {
    var h1 := LogAcmp(s.log, Connector, s.conn.st, evt);
    var h2 := LogAcmp(h1, Disconnector, s.disc.st, evt);
    var conn := s.conn.(st := OnAcmp(Connector, s.conn.st, evt));
    var disc := s.disc.(st := OnAcmp(Disconnector, s.disc.st, evt));
    AcmpKeepsManager(s.log, Connector, s.conn, evt, s.pc, s.cap, s.nextId);
    AcmpKeepsOther(s.log, Connector, s.conn.st, evt, s.disc, s.pc, s.cap, s.nextId);
    AcmpKeepsHistory(s.log, Connector, s.conn, evt, s.pc, s.cap, s.nextId);
    AcmpKeepsManager(h1, Disconnector, s.disc, evt, s.pc, s.cap, s.nextId);
    AcmpKeepsOther(h1, Disconnector, s.disc.st, evt, conn, s.pc, s.cap, s.nextId);
    AcmpKeepsHistory(h1, Disconnector, s.disc, evt, s.pc, s.cap, s.nextId);
    StartPass(h2, disc, s.cap, s.nextId);
  }

  lemma StartKeepsInv(s: State)
    requires Inv(s) && s.pc.Idle?
    ensures Inv(s.(pc := Scan(Disconnector, s.disc.cur), log := Snoc(s.log, PassStart)))
  {
    StartKeepsManager(s.log, Connector, s.conn, s.disc.cur, s.cap, s.nextId);
    StartKeepsManager(s.log, Disconnector, s.disc, s.disc.cur, s.cap, s.nextId);
    StartPass(Snoc(s.log, PassStart), s.disc, s.cap, s.nextId);
  }

  lemma BeginKeepsInv(s: State, tick: nat)
    requires Inv(s) && s.pc.Idle?
    ensures Inv(DoBegin(s, tick))
  {
    StartKeepsInv(s);
    if s.acmp != [] {
      var s1 := s.(acmp := s.acmp[1..], pc := Scan(Disconnector, s.disc.cur), log := Snoc(s.log, PassStart));
      AcmpKeepsInv(s1, s.acmp[0]);
    }
  }

  lemma HeadFields(s: State, k: Kind, i: nat)
    requires Inv(s) && i < PRIORITIES && Of(s, k).qs[i] != []
    ensures var r := Of(s, k).qs[i][0];
            FieldsAgree(s.log, k, i, r) && IsOldest(s.log, k, i, r.id)
  {
    InvParts(s, k);
    assert QueueInv(s.log, k, i, Of(s, k).qs[i], s.nextId);
    HeadIsOldest(s.log, k, i, Of(s, k).qs[i], s.nextId);
    hide Inv;
  }

  /** What the machine tests is what the history knows. */
  lemma MayCommandIs(h: History, k: Kind, i: nat, r: Req, e: Reading, o: Outcome)
    requires FieldsAgree(h, k, i, r)
    ensures MayCommand(h, TriedEntry(k, i, r, e, o)) <==> Permitted(e.sys, r.permissions) && !AtGoal(k, e.linked)
  {
    hide Permitted, AtGoal, Remaining, Entitled;
  }

  /** The dispatch of the head of a visited queue is safe. */
  lemma VisitIsSafe(s: State, k: Kind, i: nat, e: Reading)
    requires Inv(s) && s.pc == Scan(k, i) && Of(s, k).qs[i] != []
    ensures var r := Of(s, k).qs[i][0];
            SafeTry(s.log, TriedEntry(k, i, r, e, Dispatch(k, Of(s, k).st, r, e)))
  {
    var m := Of(s, k);
    var r := m.qs[i][0];
    var o := Dispatch(k, m.st, r, e);
    InvParts(s, k);
    HeadFields(s, k, i);
    MayCommandIs(s.log, k, i, r, e, o);
    hide Inv, MayCommand, Permitted, AtGoal, QueueInv, IsOldest, InFlight, SeenEmpty;
  }

  /** A settled request leaves its queue for the answered ones. */
  lemma AnswerQueue(h: History, t: Entry, a: Entry, k: Kind, p: nat, q: seq<Req>, n: nat)
    requires QueueInv(h, k, p, q, n) && q != []
    requires t.Tried? && t.kind == k && t.prior == p && t.handled
    requires a.Answered? && a.kind == k && a.prior == p && a.id == q[0].id
    ensures QueueInv(Snoc(Snoc(h, t), a), k, p, q[1..], n)
  {
    var h' := Snoc(Snoc(h, t), a);
    AnswerAccount(h, t, a, k, p, q);
    hide FieldsAgree, Done, Accepted, Ids;
    forall i | 0 <= i < |q[1..]| ensures FieldsAgree(h', k, p, q[1..][i]) {
      assert FieldsAgree(h, k, p, q[i + 1]);
      AnswerFields(h, t, a, k, p, q[i + 1]);
    }
  }

  lemma AnswerAccount(h: History, t: Entry, a: Entry, k: Kind, p: nat, q: seq<Req>)
    requires q != [] && t.Tried? && a.Answered? && a.kind == k && a.prior == p && a.id == q[0].id
    ensures var h' := Snoc(Snoc(h, t), a);
            && Accepted(h', k, p) == Accepted(h, k, p)
            && Done(h', k, p) + Ids(q[1..]) == Done(h, k, p) + Ids(q)
  {
    AnswerAdds(h, t, a, k, p);
    IdsHead(q);
    hide *;
    Shift(Done(h, k, p), q[0].id, Ids(q[1..]));
  }

  lemma AnswerAdds(h: History, t: Entry, a: Entry, k: Kind, p: nat)
    requires t.Tried? && a.Answered? && a.kind == k && a.prior == p
    ensures var h' := Snoc(Snoc(h, t), a);
            Accepted(h', k, p) == Accepted(h, k, p) && Done(h', k, p) == Done(h, k, p) + [a.id]
  {
    assert Done(Snoc(h, t), k, p) == Done(h, k, p) && Accepted(Snoc(h, t), k, p) == Accepted(h, k, p);
  }

  lemma Shift(d: seq<nat>, id: nat, rest: seq<nat>)
    ensures d + [id] + rest == d + ([id] + rest)
  {}

  lemma IdsHead(q: seq<Req>)
    requires q != []
    ensures Ids(q) == [q[0].id] + Ids(q[1..])
  {}

  lemma AnswerFields(h: History, t: Entry, a: Entry, k: Kind, p: nat, r: Req)
    requires FieldsAgree(h, k, p, r) && t.Tried? && t.handled && a.Answered?
    ensures FieldsAgree(Snoc(Snoc(h, t), a), k, p, r)
  {
    assert FieldsAgree(Snoc(h, t), k, p, r);
  }

  /** A request put back keeps its place, and its counter follows the history. */
  lemma PutBackQueue(h: History, t: Entry, k: Kind, p: nat, q: seq<Req>, budget: Octet, n: nat)
    requires QueueInv(h, k, p, q, n) && q != []
    requires t.Tried? && t.kind == k && t.prior == p && t.id == q[0].id && !t.handled
    requires budget == if t.reply.NotSent? then q[0].budget else Decrement(q[0].budget)
    ensures QueueInv(Snoc(h, t), k, p, [q[0].(budget := budget)] + q[1..], n)
  {
    var q' := [q[0].(budget := budget)] + q[1..];
    assert Ids(q') == Ids(q);
    forall i | 0 <= i < |q'| ensures FieldsAgree(Snoc(h, t), k, p, q'[i]) {
      assert FieldsAgree(h, k, p, q[i]);
      if i != 0 { Distinct(h, k, p, q, n, 0, i); }
    }
  }

  lemma VisitKeepsOtherQueues(h: History, e: Entry, k: Kind, p: nat, m: Manager, n: nat)
    requires |m.qs| == PRIORITIES
    requires forall p' :: 0 <= p' < PRIORITIES && p' != p ==> QueueInv(h, k, p', m.qs[p'], n)
    requires (e.Tried? || e.Answered?) && e.kind == k && e.prior == p
    ensures forall p' :: 0 <= p' < PRIORITIES && p' != p ==> QueueInv(Snoc(h, e), k, p', m.qs[p'], n)
  {
    forall p' | 0 <= p' < PRIORITIES && p' != p ensures QueueInv(Snoc(h, e), k, p', m.qs[p'], n) {
      QueueFrame(h, e, k, p', m.qs[p'], n, n);
    }
  }

  /** The scan of one machine moves the routine on; the other machine's own condition stands. */
  lemma MovePc(h: History, k: Kind, m: Manager, pc: Pc, pc': Pc, cap: nat, n: nat)
    requires ManagerInv(h, k, m, pc, cap, n)
    requires ScanAhead(pc, k, m.cur) ==> ScanAhead(pc', k, m.cur)
    requires pc'.Scan? && pc'.kind == k ==> pc'.at == m.cur
    ensures ManagerInv(h, k, m, pc', cap, n)
  {}

  lemma EmptyKeepsPass(h: History, k: Kind, i: nat, pc: Pc)
    requires PassInv(h, Scan(k, i)) && InFlight(h, k).Free?
    requires pc == Scan(k, i + 1) && i + 1 < PRIORITIES
    ensures PassInv(Snoc(h, Empty(k, i)), pc)
  {
    forall p | 0 <= p < i + 1 ensures SeenEmpty(Snoc(h, Empty(k, i)), k, p) {
      if p < i { assert SeenEmpty(h, k, p); }
    }
  }

  /** A queue can only be found empty by a machine with no command in flight. */
  lemma EmptyIsFree(s: State, k: Kind, i: nat)
    requires ManagerInv(s.log, k, Of(s, k), Scan(k, i), s.cap, s.nextId)
    requires i < PRIORITIES && Of(s, k).qs[i] == []
    ensures InFlight(s.log, k).Free?
  {
    hide QueueInv;
  }

  lemma EmptyKeepsInv(s: State, k: Kind, i: nat)
    requires Inv(s) && s.pc == Scan(k, i) && Of(s, k).qs[i] == []
    ensures Inv(s.(pc := NextQueue(s, k, i), log := Snoc(s.log, Empty(k, i))))
  {
    var e := Empty(k, i);
    var h, pc := Snoc(s.log, e), NextQueue(s, k, i);
    InvParts(s, k);
    InvParts(s, Other(k));
    EmptyIsFree(s, k, i);
    ManagerFrame(s.log, e, k, Of(s, k), s.pc, s.cap, s.nextId, s.nextId);
    ManagerFrame(s.log, e, Other(k), Of(s, Other(k)), s.pc, s.cap, s.nextId, s.nextId);
    assert PassInv(h, pc) by {
      if i + 1 < PRIORITIES { EmptyKeepsPass(s.log, k, i, pc); }
    }
    assert ManagerInv(h, k, Of(s, k), pc, s.cap, s.nextId) by {
      EmptyMoves(h, k, Of(s, k), s.pc, pc, s.cap, s.nextId);
    }
    MovePc(h, Other(k), Of(s, Other(k)), s.pc, pc, s.cap, s.nextId);
    hide ManagerInv, PassInv;
  }

  lemma EmptyMoves(h: History, k: Kind, m: Manager, pc: Pc, pc': Pc, cap: nat, n: nat)
    requires ManagerInv(h, k, m, pc, cap, n) && InFlight(h, k).Free?
    ensures ManagerInv(h, k, m, pc', cap, n)
  {
    hide QueueInv;
  }

  lemma AnswerKeepsManager(s: State, k: Kind, i: nat, e: Reading)
    requires Inv(s) && s.pc == Scan(k, i) && Of(s, k).qs[i] != []
    requires Dispatch(k, Of(s, k).st, Of(s, k).qs[i][0], e).handled
    ensures var s' := DoVisit(s, k, i, e);
            ManagerInv(s'.log, k, Of(s', k), Calling(k), s.cap, s.nextId)
  {
    var m, s' := Of(s, k), DoVisit(s, k, i, e);
    var t, a := s'.log.init.last, s'.log.last;
    VisitKeepsOtherQueues(s.log, t, k, i, m, s.nextId);
    VisitKeepsOtherQueues(Snoc(s.log, t), a, k, i, m, s.nextId);
    AnswerQueue(s.log, t, a, k, i, m.qs[i], s.nextId);
  }

  lemma AnswerIsSafe(s: State, k: Kind, i: nat, e: Reading)
    requires Inv(s) && s.pc == Scan(k, i) && Of(s, k).qs[i] != []
    requires Dispatch(k, Of(s, k).st, Of(s, k).qs[i][0], e).handled
    ensures SafeHistory(DoVisit(s, k, i, e).log)
  {
    var r, o := Of(s, k).qs[i][0], Dispatch(k, Of(s, k).st, Of(s, k).qs[i][0], e);
    var t := TriedEntry(k, i, r, e, o);
    VisitIsSafe(s, k, i, e);
    HeadFields(s, k, i);
    InvParts(s, k);
    TriedKeeps(s.log, t, k, i, r);
    var told := o.budget > 0 || AtGoal(k, e.linkedLater);
    assert DoVisit(s, k, i, e).log == Snoc(Snoc(s.log, t), Answered(k, i, r.id, told, e.linkedLater,
                                                                     Handed(s, k, i, told, r.spk, r.permissions)));
    AnswerFollows(s, s.log, t, k, i, r, e, o, Of(s, k), s.pc);
    hide Inv, SafeTry, FlightInv, QueueInv, Dispatch, FieldsAgree;
  }

  /** A dispatch that settles a request leaves its fields as the history had them. */
  lemma TriedKeeps(h: History, t: Entry, k: Kind, i: nat, r: Req)
    requires FieldsAgree(h, k, i, r) && IsOldest(h, k, i, r.id) && t.Tried? && t.handled
    ensures FieldsAgree(Snoc(h, t), k, i, r) && IsOldest(Snoc(h, t), k, i, r.id)
  {}

  /** What an answer may say after the dispatch that settled the request. */
  lemma AnswerFollows(s: State, h: History, t: Entry, k: Kind, i: nat, r: Req, e: Reading, o: Outcome, m: Manager,
                      pc: Pc)
    requires |m.qs| == PRIORITIES && i < PRIORITIES && m.qs[i] != [] && m.qs[i][0] == r && FlightInv(h, k, m, pc)
    requires o == Dispatch(k, m.st, r, e) && o.handled && t == TriedEntry(k, i, r, e, o)
    requires FieldsAgree(Snoc(h, t), k, i, r) && IsOldest(Snoc(h, t), k, i, r.id)
    requires SafeTry(h, t)
    ensures var told := o.budget > 0 || AtGoal(k, e.linkedLater);
            var called := Handed(s, k, i, told, r.spk, r.permissions);
            SafeAnswer(Snoc(h, t), Answered(k, i, r.id, told, e.linkedLater, called))
  {
    assert InFlight(Snoc(h, t), k) == if t.reply.NotSent? then InFlight(h, k) else Free;
    hide Permitted, Remaining, Entitled, Target, IsOldest;
  }

  /** A machine left waiting for the head of the visited queue, or idle. */
  lemma LeftManager(h: History, k: Kind, i: nat, m: Manager, q: seq<Req>, pc: Pc, cap: nat, n: nat)
    requires |m.qs| == PRIORITIES && i < PRIORITIES
    requires forall p :: 0 <= p < PRIORITIES ==> |m.qs[p]| <= cap
    requires forall p :: 0 <= p < PRIORITIES && p != i ==> QueueInv(h, k, p, m.qs[p], n)
    requires 0 < |q| <= cap && QueueInv(h, k, i, q, n)
    requires !(pc.Scan? && pc.kind == k)
    requires InFlight(h, k) == if m.st.Wait? then Waiting(i, q[0].id) else Free
    ensures ManagerInv(h, k, Manager(if m.st.Wait? then Wait else Finish, if m.st.Wait? then i else 0, m.qs[i := q]),
            pc, cap, n)
  {
    hide QueueInv;
  }

  lemma PutBackKeepsManager(s: State, k: Kind, i: nat, e: Reading)
    requires Inv(s) && s.pc == Scan(k, i) && Of(s, k).qs[i] != []
    requires !Dispatch(k, Of(s, k).st, Of(s, k).qs[i][0], e).handled
    ensures var s' := DoVisit(s, k, i, e);
            ManagerInv(s'.log, k, Of(s', k), s'.pc, s.cap, s.nextId)
  {
    var m, s' := Of(s, k), DoVisit(s, k, i, e);
    var r, o := m.qs[i][0], Dispatch(k, m.st, m.qs[i][0], e);
    var q := [r.(budget := o.budget)] + m.qs[i][1..];
    InvParts(s, k);
    VisitKeepsOtherQueues(s.log, s'.log.last, k, i, m, s.nextId);
    PutBackQueue(s.log, s'.log.last, k, i, m.qs[i], o.budget, s.nextId);
    assert Of(s', k) == Manager(if o.st.Wait? then Wait else Finish, if o.st.Wait? then i else 0, m.qs[i := q]);
    assert InFlight(s'.log, k) == if o.st.Wait? then Waiting(i, r.id) else Free;
    LeftManager(s'.log, k, i, m.(st := o.st), q, s'.pc, s.cap, s.nextId);
    hide *;
  }

  /** The machine that is not being scanned, across the entries of one visit. */
  lemma VisitKeepsOther(s: State, k: Kind, i: nat, e: Reading)
    requires Inv(s) && s.pc == Scan(k, i) && Of(s, k).qs[i] != []
    ensures var s' := DoVisit(s, k, i, e);
            ManagerInv(s'.log, Other(k), Of(s', Other(k)), s'.pc, s.cap, s.nextId)
  {
    var m, s', other := Of(s, k), DoVisit(s, k, i, e), Of(s, Other(k));
    var o := Dispatch(k, m.st, m.qs[i][0], e);
    var t := TriedEntry(k, i, m.qs[i][0], e, o);
    ManagerFrame(s.log, t, Other(k), other, s.pc, s.cap, s.nextId, s.nextId);
    if o.handled {
      ManagerFrame(Snoc(s.log, t), s'.log.last, Other(k), other, s.pc, s.cap, s.nextId, s.nextId);
    }
    MovePc(s'.log, Other(k), other, s.pc, s'.pc, s.cap, s.nextId);
  }

  lemma VisitKeepsPass(s: State, k: Kind, i: nat, e: Reading)
    requires Inv(s) && s.pc == Scan(k, i) && Of(s, k).qs[i] != []
    ensures var s' := DoVisit(s, k, i, e);
            PassInv(s'.log, s'.pc) && Known(s'.log, s.nextId)
  {
    HeadIsOldest(s.log, k, i, Of(s, k).qs[i], s.nextId);
    assert TriedInPass(s.log, k) == 0;
    assert Of(s, k).qs[i][0].id < s.nextId;
  }

  lemma VisitKeepsSafe(s: State, k: Kind, i: nat, e: Reading)
    requires Inv(s) && s.pc == Scan(k, i) && Of(s, k).qs[i] != []
    ensures SafeHistory(DoVisit(s, k, i, e).log)
  {
    VisitIsSafe(s, k, i, e);
    if Dispatch(k, Of(s, k).st, Of(s, k).qs[i][0], e).handled {
      AnswerIsSafe(s, k, i, e);
    }
  }

  lemma VisitKeepsManager(s: State, k: Kind, i: nat, e: Reading)
    requires Inv(s) && s.pc == Scan(k, i) && Of(s, k).qs[i] != []
    ensures var s' := DoVisit(s, k, i, e);
            ManagerInv(s'.log, k, Of(s', k), s'.pc, s.cap, s.nextId)
  {
    if Dispatch(k, Of(s, k).st, Of(s, k).qs[i][0], e).handled {
      AnswerKeepsManager(s, k, i, e);
    } else {
      PutBackKeepsManager(s, k, i, e);
    }
  }

  lemma VisitKeepsInv(s: State, k: Kind, i: nat, e: Reading)
    requires Inv(s) && s.pc == Scan(k, i)
    ensures Inv(DoVisit(s, k, i, e))
  {
    if Of(s, k).qs[i] == [] {
      EmptyKeepsInv(s, k, i);
    } else {
      VisitKeepsManager(s, k, i, e);
      VisitKeepsOther(s, k, i, e);
      VisitKeepsPass(s, k, i, e);
      VisitKeepsSafe(s, k, i, e);
      assert DoVisit(s, k, i, e).nextId == s.nextId && DoVisit(s, k, i, e).cap == s.cap;
    }
  }

  lemma StepKeepsInv(s: State, l: Label)
    requires Inv(s)
    ensures Inv(Step(s, l))
  {
    match l
    case Request(k, p, spk, times, permissions, memory) => RequestKeepsInv(s, k, p, spk, times, permissions, memory);
    case Cancel(k, p, user) => CancelKeepsInv(s, k, p, user);
    case CancelQueue(k, p) => CancelQueueKeepsInv(s, k, p);
    case Register(_, _, _) =>
    case Deregister(_, _) =>
    case PostAcmp(_) =>
    case Begin(tick) => if s.pc.Idle? { BeginKeepsInv(s, tick); }
    case Visit(e) => if s.pc.Scan? { VisitKeepsInv(s, s.pc.kind, s.pc.at, e); }
    case Return => ReturnKeepsInv(s);
  }

  lemma CancelKeepsInv(s: State, k: Kind, p: nat, user: nat)
    requires Inv(s)
    ensures Inv(DoCancel(s, k, p, user))
  {
    if p < PRIORITIES {
      var i := FirstOf(Of(s, k).qs[p], user);
      if i < |Of(s, k).qs[p]| { CancelAtKeepsInv(s, k, p, i); }
    }
  }

  lemma ReturnKeepsInv(s: State)
    requires Inv(s)
    ensures s.pc.Calling? ==> Inv(s.(pc := After(s, s.pc.kind)))
  {
    if s.pc.Calling? {
      var pc := After(s, s.pc.kind);
      MovePc(s.log, Connector, s.conn, s.pc, pc, s.cap, s.nextId);
      MovePc(s.log, Disconnector, s.disc, s.pc, pc, s.cap, s.nextId);
    }
  }

  lemma {:induction false} RunKeepsInv(s: State, ls: seq<Label>)
    requires Inv(s)
    ensures Inv(Run(s, ls))
    decreases |ls|
  {
    if ls != [] {
      StepKeepsInv(s, ls[0]);
      RunKeepsInv(Step(s, ls[0]), ls[1..]);
    }
  }

  function Other(k: Kind): Kind {
    if k.Connector? then Disconnector else Connector
  }
}
