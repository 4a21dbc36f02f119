/**
 The allocated events of the microphone manager and the six deques of their addresses, as
 values: what it means for the two to fit together, and what each edit does to the requests
 they stand for.
 */
module MicStore {
  import opened Words
  import opened MicHistory
  import opened MicModel

  /** The deques hold 32-bit addresses; 0 is the null pointer. */
  type Address = Word

  datatype MicEvent = MicEvent(sig: Kind, spkNode: Terminal, permissions: bv32, failureTimes: Octet)

  /** Under which queue and which number the history knows an allocated event. */
  datatype Tag = Tag(kind: Kind, prior: nat, id: nat)

  datatype Store = Store(mem: map<Address, MicEvent>, tags: map<Address, Tag>, qs: seq<seq<Address>>)

  const QUEUES: nat := 6

  function Place(k: Kind, p: nat): (n: nat)
    requires p < PRIORITIES
    ensures n < QUEUES
  {
    if k.Connector? then p else PRIORITIES + p
  }

  ghost predicate Holds(s: Store, a: Address, k: Kind, p: nat) {
    a != 0 && a in s.mem && a in s.tags && s.mem[a].sig == k && s.tags[a].kind == k && s.tags[a].prior == p
  }

  /** The addresses of one queue are distinct, allocated, and all of that queue. */
  ghost predicate Owned(s: Store, c: seq<Address>, k: Kind, p: nat) {
    && (forall i :: 0 <= i < |c| ==> Holds(s, c[i], k, p))
    && (forall i, j :: 0 <= i < j < |c| ==> c[i] != c[j])
  }

  /** Every allocated event is in the queue it is tagged with: none is leaked. */
  ghost predicate NoLeak(s: Store) {
    && s.tags.Keys == s.mem.Keys
    && |s.qs| == QUEUES
    && forall a :: a in s.tags ==> s.tags[a].prior < PRIORITIES && a in s.qs[Place(s.tags[a].kind, s.tags[a].prior)]
  }

  ghost predicate Sound(s: Store) {
    && |s.qs| == QUEUES
    && (forall k: Kind, p :: 0 <= p < PRIORITIES ==> Owned(s, s.qs[Place(k, p)], k, p))
    && NoLeak(s)
  }

  const NoReq := Req(0, Terminal(0, 0), 0, 0)

  ghost function ReqAt(s: Store, a: Address): Req {
    if a in s.mem && a in s.tags then Req(s.tags[a].id, s.mem[a].spkNode, s.mem[a].permissions, s.mem[a].failureTimes)
    else NoReq
  }

  /** The requests behind some addresses. */
  ghost function ReqsAt(s: Store, c: seq<Address>): seq<Req> {
    seq(|c|, i requires 0 <= i < |c| => ReqAt(s, c[i]))
  }

  ghost function Line(s: Store, k: Kind, p: nat): seq<Address> {
    if p < PRIORITIES && Place(k, p) < |s.qs| then s.qs[Place(k, p)] else []
  }

  /** The three queues of a machine. */
  ghost function Side(s: Store, k: Kind): (qs: seq<seq<Req>>)
    ensures |qs| == PRIORITIES
  {
    [ReqsAt(s, Line(s, k, 0)), ReqsAt(s, Line(s, k, 1)), ReqsAt(s, Line(s, k, 2))]
  }

  /** Two stores agree on the queues a change did not concern. */
  ghost predicate SameElsewhere(s: Store, s': Store, k: Kind, p: nat) {
    && |s.qs| == QUEUES && |s'.qs| == QUEUES
    && (forall a :: a in s.mem && a in s.tags && !(s.tags[a].kind == k && s.tags[a].prior == p) ==>
          a in s'.mem && a in s'.tags && s'.mem[a] == s.mem[a] && s'.tags[a] == s.tags[a])
    && (forall k': Kind, p' ::
          0 <= p' < PRIORITIES && !(k' == k && p' == p) ==> s'.qs[Place(k', p')] == s.qs[Place(k', p')])
  }

  lemma Elsewhere(s: Store, s': Store, k: Kind, p: nat)
    requires Sound(s) && p < PRIORITIES && SameElsewhere(s, s', k, p)
    ensures forall k': Kind, p' ::
              0 <= p' < PRIORITIES && !(k' == k && p' == p) ==> Owned(s', s'.qs[Place(k', p')], k', p')
    ensures Side(s', k) == Side(s, k)[p := Side(s', k)[p]]
    ensures forall k' :: k' != k ==> Side(s', k') == Side(s, k')
  {
    forall k': Kind, p' | 0 <= p' < PRIORITIES && !(k' == k && p' == p)
      ensures Owned(s', s'.qs[Place(k', p')], k', p') && Side(s', k')[p'] == Side(s, k')[p']
    {
      LineElsewhere(s, s', k, p, k', p');
    }
    hide Sound, Owned, ReqsAt, Line, SameElsewhere;
  }

  lemma LineElsewhere(s: Store, s': Store, k: Kind, p: nat, k': Kind, p': nat)
    requires Sound(s) && p < PRIORITIES && SameElsewhere(s, s', k, p) && p' < PRIORITIES && !(k' == k && p' == p)
    ensures Owned(s', s'.qs[Place(k', p')], k', p') && Side(s', k')[p'] == Side(s, k')[p']
  {
    hide NoLeak;
    var c := s.qs[Place(k', p')];
    assert Owned(s, c, k', p');
    assert forall i :: 0 <= i < |c| ==> Holds(s, c[i], k', p');
    assert ReqsAt(s', c) == ReqsAt(s, c);
  }

  /** A change to one queue is sound when that queue is and nothing leaks. */
  lemma Assembled(s: Store, s': Store, k: Kind, p: nat)
    requires Sound(s) && p < PRIORITIES && SameElsewhere(s, s', k, p)
    requires Owned(s', s'.qs[Place(k, p)], k, p) && NoLeak(s')
    ensures Sound(s')
    ensures Side(s', k) == Side(s, k)[p := ReqsAt(s', s'.qs[Place(k, p)])]
    ensures forall k' :: k' != k ==> Side(s', k') == Side(s, k')
  {
    Elsewhere(s, s', k, p);
    forall k': Kind, p' | 0 <= p' < PRIORITIES ensures Owned(s', s'.qs[Place(k', p')], k', p') {
      if k' == k && p' == p {}
    }
  }

  /** A slot of another queue holds none of this queue's addresses. */
  lemma Disjoint(s: Store, k: Kind, p: nat, a: Address)
    requires Sound(s) && p < PRIORITIES && a in s.qs[Place(k, p)]
    ensures Holds(s, a, k, p)
  {
    assert Owned(s, s.qs[Place(k, p)], k, p);
  }

  lemma EmptySound(s: Store)
    requires s.mem == map[] && s.tags == map[] && s.qs == [[], [], [], [], [], []]
    ensures Sound(s) && forall k :: Side(s, k) == [[], [], []]
  {}

  /** What a walk along one queue may rely on. */
  lemma LineSeen(s: Store, k: Kind, p: nat)
    requires Sound(s) && p < PRIORITIES
    ensures forall i :: 0 <= i < |s.qs[Place(k, p)]| ==> s.qs[Place(k, p)][i] != 0
    ensures |Side(s, k)[p]| == |s.qs[Place(k, p)]|
    ensures forall i :: 0 <= i < |s.qs[Place(k, p)]| ==>
              s.qs[Place(k, p)][i] in s.mem && Side(s, k)[p][i].spk == s.mem[s.qs[Place(k, p)][i]].spkNode
  {
    var c := s.qs[Place(k, p)];
    assert Owned(s, c, k, p);
    forall i | 0 <= i < |c| ensures c[i] in s.mem && ReqsAt(s, c)[i].spk == s.mem[c[i]].spkNode {
      assert Holds(s, c[i], k, p);
    }
  }

  // ----- A new event at the tail -----

  ghost function Posted(s: Store, k: Kind, p: nat, a: Address, e: MicEvent, id: nat): Store
    requires |s.qs| == QUEUES && p < PRIORITIES
  {
    Store(s.mem[a := e], s.tags[a := Tag(k, p, id)], s.qs[Place(k, p) := s.qs[Place(k, p)] + [a]])
  }

  lemma PostedSound(s: Store, k: Kind, p: nat, a: Address, e: MicEvent, id: nat)
    requires Sound(s) && p < PRIORITIES && a != 0 && a !in s.mem && e.sig == k
    ensures var s' := Posted(s, k, p, a, e, id);
            && Sound(s')
            && Side(s', k) == Side(s, k)[p := Side(s, k)[p] + [Req(id, e.spkNode, e.permissions, e.failureTimes)]]
            && forall k' :: k' != k ==> Side(s', k') == Side(s, k')
  {
    var s' := Posted(s, k, p, a, e, id);
    PostedQueue(s, k, p, a, e, id);
    PostedLeaks(s, k, p, a, e, id);
    Assembled(s, s', k, p);
  }

  lemma PostedQueue(s: Store, k: Kind, p: nat, a: Address, e: MicEvent, id: nat)
    requires Sound(s) && p < PRIORITIES && a != 0 && a !in s.mem && e.sig == k
    ensures var s', c := Posted(s, k, p, a, e, id), s.qs[Place(k, p)];
            && Owned(s', c + [a], k, p) && SameElsewhere(s, s', k, p)
            && ReqsAt(s', c + [a]) == ReqsAt(s, c) + [Req(id, e.spkNode, e.permissions, e.failureTimes)]
  {
    var s', c := Posted(s, k, p, a, e, id), s.qs[Place(k, p)];
    assert Owned(s, c, k, p);
    forall i | 0 <= i < |c| ensures Holds(s', c[i], k, p) && c[i] != a {
      assert Holds(s, c[i], k, p);
    }
    assert ReqsAt(s', c + [a]) == ReqsAt(s, c) + [ReqAt(s', a)];
  }

  lemma PostedLeaks(s: Store, k: Kind, p: nat, a: Address, e: MicEvent, id: nat)
    requires Sound(s) && p < PRIORITIES && a !in s.mem
    ensures NoLeak(Posted(s, k, p, a, e, id))
  {
    var s' := Posted(s, k, p, a, e, id);
    forall b | b in s'.tags ensures s'.tags[b].prior < PRIORITIES
      && b in s'.qs[Place(s'.tags[b].kind, s'.tags[b].prior)] {
      if b != a {
        var t := s.tags[b];
        assert s'.tags[b] == t && b in s.qs[Place(t.kind, t.prior)];
        if Place(t.kind, t.prior) == Place(k, p) { assert b in s.qs[Place(k, p)] + [a]; }
      }
    }
  }

  // ----- A queued event changed in place -----

  ghost function Changed(s: Store, a: Address, e: MicEvent): Store {
    s.(mem := s.mem[a := e])
  }

  lemma ChangedSound(s: Store, k: Kind, p: nat, i: nat, e: MicEvent)
    requires Sound(s) && p < PRIORITIES && i < |s.qs[Place(k, p)]| && e.sig == k
    ensures var s' := Changed(s, s.qs[Place(k, p)][i], e);
            && Sound(s')
            && Side(s', k) == Side(s, k)[p := Side(s, k)[p][i := ReqAt(s', s.qs[Place(k, p)][i])]]
            && Side(s, k)[p][i] == ReqAt(s, s.qs[Place(k, p)][i])
            && forall k' :: k' != k ==> Side(s', k') == Side(s, k')
  {
    var c := s.qs[Place(k, p)];
    var s' := Changed(s, c[i], e);
    ChangedQueue(s, k, p, i, e);
    Assembled(s, s', k, p);
  }

  lemma ChangedQueue(s: Store, k: Kind, p: nat, i: nat, e: MicEvent)
    requires Sound(s) && p < PRIORITIES && i < |s.qs[Place(k, p)]| && e.sig == k
    ensures var c := s.qs[Place(k, p)];
            var s' := Changed(s, c[i], e);
            && Owned(s', c, k, p) && SameElsewhere(s, s', k, p) && NoLeak(s')
            && ReqsAt(s', c) == ReqsAt(s, c)[i := ReqAt(s', c[i])]
  {
    var c := s.qs[Place(k, p)];
    var s' := Changed(s, c[i], e);
    assert Owned(s, c, k, p);
    forall j | 0 <= j < |c| ensures Holds(s, c[j], k, p) && Holds(s', c[j], k, p) {}
    assert ReqsAt(s', c) == ReqsAt(s, c)[i := ReqAt(s', c[i])];
  }

  // ----- The head of a queue popped and released -----

  ghost function Released(s: Store, k: Kind, p: nat): Store
    requires |s.qs| == QUEUES && p < PRIORITIES && s.qs[Place(k, p)] != []
  {
    var a := s.qs[Place(k, p)][0];
    Store(s.mem - {a}, s.tags - {a}, s.qs[Place(k, p) := s.qs[Place(k, p)][1..]])
  }

  lemma ReleasedSound(s: Store, k: Kind, p: nat)
    requires Sound(s) && p < PRIORITIES && s.qs[Place(k, p)] != []
    ensures var s' := Released(s, k, p);
            && Sound(s')
            && Side(s', k) == Side(s, k)[p := Side(s, k)[p][1..]]
            && forall k' :: k' != k ==> Side(s', k') == Side(s, k')
  {
    ReleasedQueue(s, k, p);
    ReleasedLeaks(s, k, p);
    Assembled(s, Released(s, k, p), k, p);
  }

  lemma ReleasedQueue(s: Store, k: Kind, p: nat)
    requires Sound(s) && p < PRIORITIES && s.qs[Place(k, p)] != []
    ensures var s', c := Released(s, k, p), s.qs[Place(k, p)];
            && Owned(s', c[1..], k, p) && SameElsewhere(s, s', k, p)
            && ReqsAt(s', c[1..]) == ReqsAt(s, c)[1..]
  {
    var s', c := Released(s, k, p), s.qs[Place(k, p)];
    assert Owned(s, c, k, p);
    forall i | 0 <= i < |c[1..]| ensures Holds(s', c[1..][i], k, p) {
      assert Holds(s, c[i + 1], k, p) && c[i + 1] != c[0];
    }
    assert Holds(s, c[0], k, p);
    assert ReqsAt(s', c[1..]) == ReqsAt(s, c)[1..];
  }

  lemma ReleasedLeaks(s: Store, k: Kind, p: nat)
    requires Sound(s) && p < PRIORITIES && s.qs[Place(k, p)] != []
    ensures NoLeak(Released(s, k, p))
  {
    var s', c := Released(s, k, p), s.qs[Place(k, p)];
    assert Owned(s, c, k, p);
    assert Holds(s, c[0], k, p);
    forall a | a in s'.tags ensures a in s'.qs[Place(s'.tags[a].kind, s'.tags[a].prior)] {
      var t := s.tags[a];
      assert a in s.qs[Place(t.kind, t.prior)] && s'.tags[a] == t;
      if Place(t.kind, t.prior) == Place(k, p) {
        assert c == [c[0]] + c[1..];
        assert a != c[0];
      }
    }
  }

  // ----- The same edits on the abstract state -----

  /** The abstract state with its queues read off a store. */
  ghost function Seen(s: State, e: Store): State {
    s.(conn := s.conn.(qs := Side(e, Connector)), disc := s.disc.(qs := Side(e, Disconnector)))
  }

  lemma SeenSide(s: State, e: Store, e': Store, k: Kind, p: nat, q: seq<Req>)
    requires |e.qs| == QUEUES && |e'.qs| == QUEUES && p < PRIORITIES
    requires Side(e', k) == Side(e, k)[p := q]
    requires forall k' :: k' != k ==> Side(e', k') == Side(e, k')
    ensures var t := Seen(s, e);
            Seen(s, e') == With(t, k, Of(t, k).(qs := Of(t, k).qs[p := q]))
  {
    if k.Connector? {
      assert Side(e', Disconnector) == Side(e, Disconnector);
    } else {
      assert Side(e', Connector) == Side(e, Connector);
    }
  }

  lemma PostedIsRequest(s: State, e: Store, k: Kind, p: nat, spk: Terminal, times: int, permissions: bv32, a: Address)
    requires Sound(e) && s == Seen(s, e) && p < PRIORITIES && a != 0 && a !in e.mem && |e.qs[Place(k, p)]| < s.cap
    ensures var e' := Posted(e, k, p, a, MicEvent(k, spk, permissions, Clip(times)), s.nextId);
            && Sound(e')
            && Seen(s, e').(nextId := s.nextId + 1,
               log := Snoc(s.log, Granted(k, p, s.nextId, Clip(times), spk, permissions)))
               == DoRequest(s, k, p, Some(spk), times, permissions, true)
  {
    assert |e.qs| == QUEUES;
    hide Side, Sound, ReqsAt;
    var ev := MicEvent(k, spk, permissions, Clip(times));
    var e' := Posted(e, k, p, a, ev, s.nextId);
    PostedSound(e, k, p, a, ev, s.nextId);
    hide Posted, Clip;
    SeenSide(s, e, e', k, p, Side(e, k)[p] + [Req(s.nextId, spk, permissions, Clip(times))]);
  }

  lemma ChangedIsCancel(s: State, e: Store, k: Kind, p: nat, i: nat)
    requires |e.qs| == QUEUES && p < PRIORITIES && i < |e.qs[Place(k, p)]|
    requires Shaped(s) && i < |Of(s, k).qs[p]|
    requires Sound(e) && s == Seen(s, e)
    ensures var a := e.qs[Place(k, p)][i];
            && a in e.mem
            && Sound(Changed(e, a, e.mem[a].(permissions := 0)))
            && CancelAt(s, k, p, i)
               == Seen(s, Changed(e, a, e.mem[a].(permissions := 0))).(log := CancelAt(s, k, p, i).log)
  {
    assert |e.qs| == QUEUES;
    hide Side, Sound, ReqsAt;
    var a := e.qs[Place(k, p)][i];
    Disjoint(e, k, p, a);
    var ev := e.mem[a].(permissions := 0);
    ChangedSound(e, k, p, i, ev);
    SeenSide(s, e, Changed(e, a, ev), k, p, Side(e, k)[p][i := Side(e, k)[p][i].(permissions := 0)]);
  }

  ghost function EventReq(ev: MicEvent): Req {
    Req(0, ev.spkNode, ev.permissions, ev.failureTimes)
  }

  /** Setting the state and the start queue of one machine. */
  function Moved(s: State, k: Kind, st: Machine, cur: nat): State {
    With(s, k, Of(s, k).(st := st, cur := cur))
  }

  lemma DispatchIgnoresId(k: Kind, st: Machine, q: Req, r: Reading)
    ensures Dispatch(k, st, q.(id := 0), r) == Dispatch(k, st, q, r)
  {}

  /** The event at the head of a queue is its first request, and dispatches as it. */
  lemma HeadEvent(s: State, e: Store, k: Kind, p: nat, r: Reading)
    requires Sound(e) && s == Seen(s, e) && p < PRIORITIES && e.qs[Place(k, p)] != []
    ensures var a := e.qs[Place(k, p)][0];
            && a in e.mem && a in e.tags && e.mem[a].sig == k
            && Of(s, k).qs[p] != []
            && Of(s, k).qs[p][0].spk == e.mem[a].spkNode
            && Of(s, k).qs[p][0].permissions == e.mem[a].permissions
            && Dispatch(k, Of(s, k).st, EventReq(e.mem[a]), r) == Dispatch(k, Of(s, k).st, Of(s, k).qs[p][0], r)
  {
    var a := e.qs[Place(k, p)][0];
    Disjoint(e, k, p, a);
    assert Of(s, k).qs[p] == ReqsAt(e, e.qs[Place(k, p)]);
    DispatchIgnoresId(k, Of(s, k).st, Of(s, k).qs[p][0], r);
  }

  /** The queues after the head of one was popped. */
  ghost predicate PoppedFrom(now: seq<seq<Address>>, before: seq<seq<Address>>, k: Kind, p: nat, a: Address) {
    && p < PRIORITIES && |before| == QUEUES
    && before[Place(k, p)] != [] && a == before[Place(k, p)][0]
    && now == before[Place(k, p) := before[Place(k, p)][1..]]
  }

  lemma PutBackRestores(qs: seq<seq<Address>>, n: nat)
    requires n < |qs| && qs[n] != []
    ensures var rest := qs[n := qs[n][1..]];
            rest[n := [qs[n][0]] + rest[n]] == qs
  {
    assert [qs[n][0]] + qs[n][1..] == qs[n];
  }

  lemma VisitFindsNothing(s: State, k: Kind, p: nat, r: Reading)
    requires Shaped(s) && p < PRIORITIES && Of(s, k).qs[p] == []
    ensures var s' := DoVisit(s, k, p, r);
            s' == s.(pc := s'.pc, log := s'.log) && VisitResult(s, k, p, r) == NothingThere
  {}

  /** The two ways a visit of a non-empty queue ends. */
  lemma VisitPutsBack(s: State, k: Kind, p: nat, r: Reading, o: Outcome)
    requires Shaped(s) && p < PRIORITIES && Of(s, k).qs[p] != [] && |Of(s, k).qs[p]| <= s.cap
    requires o == Dispatch(k, Of(s, k).st, Of(s, k).qs[p][0], r) && !o.handled
    ensures var m, s' := Of(s, k), DoVisit(s, k, p, r);
            var q := [m.qs[p][0].(budget := o.budget)] + m.qs[p][1..];
            s' == Moved(With(s, k, m.(qs := m.qs[p := q])), k, if o.st.Wait? then Wait else Finish,
              if o.st.Wait? then p else 0)
                  .(pc := s'.pc, log := s'.log)
  {
    hide Dispatch;
  }

  lemma VisitAnswers(s: State, k: Kind, p: nat, r: Reading, o: Outcome)
    requires Shaped(s) && p < PRIORITIES && Of(s, k).qs[p] != []
    requires o == Dispatch(k, Of(s, k).st, Of(s, k).qs[p][0], r) && o.handled
    ensures var m, s' := Of(s, k), DoVisit(s, k, p, r);
            && s' == Moved(With(s, k, m.(qs := m.qs[p := m.qs[p][1..]])), k, o.st, 0).(pc := Calling(k), log := s'.log)
            && s'.log.Snoc? && s'.log.last.Answered?
            && AnsweredWith(s', k, p, Verdict(o, k, r, m.qs[p][0].spk, m.qs[p][0].permissions))
  {
    hide Dispatch;
  }

  lemma PutBackSeen(s: State, e: Store, k: Kind, p: nat, budget: Octet)
    requires Sound(e) && s == Seen(s, e) && p < PRIORITIES && e.qs[Place(k, p)] != []
    requires Of(s, k).qs[p] != [] && e.qs[Place(k, p)][0] in e.mem
    requires e.mem[e.qs[Place(k, p)][0]].sig == k && e.qs[Place(k, p)][0] in e.tags
    ensures var m, a := Of(s, k), e.qs[Place(k, p)][0];
            var e' := Changed(e, a, e.mem[a].(failureTimes := budget));
            && Sound(e')
            && Seen(s, e') == With(s, k, m.(qs := m.qs[p := [m.qs[p][0].(budget := budget)] + m.qs[p][1..]]))
  {
    assert |e.qs| == QUEUES;
    assert Of(s, k).qs == Side(e, k);
    hide Side, Sound, ReqsAt;
    var a := e.qs[Place(k, p)][0];
    var ev := e.mem[a].(failureTimes := budget);
    var e' := Changed(e, a, ev);
    ChangedSound(e, k, p, 0, ev);
    PutBackReq(e, e', k, p, a, budget, Side(e, k)[p]);
    SeenSide(s, e, e', k, p, [Side(e, k)[p][0].(budget := budget)] + Side(e, k)[p][1..]);
  }

  lemma PutBackReq(e: Store, e': Store, k: Kind, p: nat, a: Address, budget: Octet, q: seq<Req>)
    requires q != [] && q[0] == ReqAt(e, a) && a in e.mem && a in e.tags
    requires e' == Changed(e, a, e.mem[a].(failureTimes := budget))
    ensures q[0 := ReqAt(e', a)] == [q[0].(budget := budget)] + q[1..]
  {}

  lemma AnswerSeen(s: State, e: Store, k: Kind, p: nat)
    requires Sound(e) && s == Seen(s, e) && p < PRIORITIES && e.qs[Place(k, p)] != []
    requires Of(s, k).qs[p] != []
    ensures var m, e' := Of(s, k), Released(e, k, p);
            Sound(e') && Seen(s, e') == With(s, k, m.(qs := m.qs[p := m.qs[p][1..]]))
  {
    assert |e.qs| == QUEUES;
    hide Side, Sound, ReqsAt;
    ReleasedSound(e, k, p);
    SeenSide(s, e, Released(e, k, p), k, p, Side(e, k)[p][1..]);
  }
}
