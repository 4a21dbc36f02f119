/**
 The expiry of end stations: every advertisement restarts a station's timer, and a periodic tick
 marks the stations whose timers ran out. The clock is a 32-bit millisecond counter that wraps.
 */
module AdpExpiry {
  import opened Words
  import opened UserTimer

  /** The five-bit advertised validity, in units of two seconds. */
  type ValidTime = v: int | 0 <= v < 32

  function Millis(v: ValidTime): Word {
    v * 2 * 1000
  }

  /** What the list keeps of one station, and how often its disconnection has been logged. */
  datatype Station = Station(connected: bool, time: Timer, logged: nat)

  function Ticked(s: Station, now: Word): Station {
    if s.time.elapsed then s
    else
      var t := Polled(s.time, now);
      if t.elapsed then Station(false, t, s.logged + 1) else s.(time := t)
  }

  function Refreshed(s: Station, v: ValidTime, now: Word): Station {
    Station(true, Started(Millis(v), now), s.logged)
  }

  class EndStation {
    var connectFlag: bool
    var running: bool
    var elapsed: bool
    var countTime: Word
    var startTime: Word
    var logged: nat

    function Value(): Station
      reads this
    {
      Station(connectFlag, Timer(running, elapsed, countTime, startTime), logged)
    }

    /** `adp_entity_time_start` and `adp_entity_time_update`. */
    method TimeUpdate(timeout: Word, now: Word)
      modifies this`running, this`elapsed, this`countTime, this`startTime
      ensures Value() == old(Value()).(time := Started(timeout, now))
    {
      running, countTime, elapsed, startTime := true, timeout, false, now;
    }

    /** `adp_entity_timeout`. */
    method Timeout(now: Word)
      modifies this`elapsed
      ensures Value() == old(Value()).(time := Polled(old(Value()).time, now))
    {
      if running && !elapsed {
        var elMs := (now - startTime) % WORD;
        if elMs > countTime {
          elapsed := true;
        }
      }
    }

    /** What an advertisement of a known station does to its node. */
    method StateAvail(v: ValidTime, now: Word)
      modifies this
      ensures Value() == Refreshed(old(Value()), v, now)
    {
      if !connectFlag {
        connectFlag := true;
      }
      TimeUpdate(v * 2 * 1000, now);
    }
  }

  ghost predicate Distinct(guard: seq<EndStation>) {
    forall i, j :: 0 <= i < j < |guard| ==> guard[i] != guard[j]
  }

  function Values(guard: seq<EndStation>): (vs: seq<Station>)
    reads guard
    ensures |vs| == |guard| && forall i :: 0 <= i < |guard| ==> vs[i] == guard[i].Value()
  {
    seq(|guard|, i requires 0 <= i < |guard| reads guard => guard[i].Value())
  }

  /** `adp_entity_time_tick`: the clock is read afresh for every station. */
  method TimeTick(guard: seq<EndStation>, clock: nat -> Word)
    requires Distinct(guard)
    modifies guard
    ensures Values(guard) == TickedAll(old(Values(guard)), clock)
  {
    var i := 0;
    while i < |guard|
      invariant 0 <= i <= |guard|
      invariant forall j :: 0 <= j < i ==> guard[j].Value() == Ticked(old(guard[j].Value()), clock(j))
      invariant forall j :: i <= j < |guard| ==> guard[j].Value() == old(guard[j].Value())
    {
      var ptr := guard[i];
      if !ptr.elapsed {
        ptr.Timeout(clock(i));
        if ptr.elapsed {
          ptr.connectFlag := false;
          ptr.logged := ptr.logged + 1;
        }
      }
      i := i + 1;
    }
  }

  function TickedAll(ss: seq<Station>, clock: nat -> Word): (r: seq<Station>)
    ensures |r| == |ss| && forall i :: 0 <= i < |ss| ==> r[i] == Ticked(ss[i], clock(i))
  {
    seq(|ss|, i requires 0 <= i < |ss| => Ticked(ss[i], clock(i)))
  }

  // ----- Runs in real time -----

  /** A tick reaches station i at real time `at(i)`; an advertisement reaches one station. */
  datatype Event =
    | Tick(at: nat -> nat)
    | Advert(who: nat, valid: ValidTime, when: nat)

  function Apply(ss: seq<Station>, e: Event): (r: seq<Station>)
    ensures |r| == |ss|
  {
    match e
    case Tick(at) => TickedAll(ss, i => Clock(at(i)))
    case Advert(who, v, t) => if who < |ss| then ss[who := Refreshed(ss[who], v, Clock(t))] else ss
  }

  function Run(ss: seq<Station>, es: seq<Event>): (r: seq<Station>)
    ensures |r| == |ss|
    decreases |es|
  {
    if es == [] then ss else Run(Apply(ss, es[0]), es[1..])
  }

  /** What ought to be known of a station, in real time and without a clock: its last advertisement,
      how long that was good for, whether a tick has found it too old, and how often one has. */
  datatype Truth = Truth(last: nat, valid: ValidTime, expired: bool, expiries: nat)

  function TruthTicked(r: Truth, t: nat): Truth {
    if !r.expired && t > r.last + 2000 * r.valid then r.(expired := true, expiries := r.expiries + 1) else r
  }

  function TruthApply(rs: seq<Truth>, e: Event): (r: seq<Truth>)
    ensures |r| == |rs|
  {
    match e
    case Tick(at) => seq(|rs|, i requires 0 <= i < |rs| => TruthTicked(rs[i], at(i)))
    case Advert(who, v, t) => if who < |rs| then rs[who := Truth(t, v, false, rs[who].expiries)] else rs
  }

  function TruthRun(rs: seq<Truth>, es: seq<Event>): (r: seq<Truth>)
    ensures |r| == |rs|
    decreases |es|
  {
    if es == [] then rs else TruthRun(TruthApply(rs, es[0]), es[1..])
  }

  ghost predicate Tells(s: Station, r: Truth) {
    && s.connected == !r.expired
    && s.time == Timer(true, r.expired, 2000 * r.valid, Clock(r.last))
    && s.logged == r.expiries
  }

  ghost predicate AllTell(ss: seq<Station>, rs: seq<Truth>) {
    |ss| == |rs| && forall i :: 0 <= i < |ss| ==> Tells(ss[i], rs[i])
  }

  /** Ticks follow the advertisements they judge, by less than a turn of the clock. */
  ghost predicate Timely(rs: seq<Truth>, es: seq<Event>)
    decreases |es|
  {
    es == [] ||
    (TimelyEvent(rs, es[0]) && Timely(TruthApply(rs, es[0]), es[1..]))
  }

  ghost predicate TimelyEvent(rs: seq<Truth>, e: Event) {
    e.Tick? ==> forall i :: 0 <= i < |rs| && !rs[i].expired ==> rs[i].last <= e.at(i) < rs[i].last + WORD
  }

  lemma TickTells(s: Station, r: Truth, t: nat)
    requires Tells(s, r) && (!r.expired ==> r.last <= t < r.last + WORD)
    ensures Tells(Ticked(s, Clock(t)), TruthTicked(r, t))
  {
    if !r.expired { SinceIsReal(r.last, t); }
  }

  lemma ApplyTells(ss: seq<Station>, rs: seq<Truth>, e: Event)
    requires AllTell(ss, rs) && TimelyEvent(rs, e)
    ensures AllTell(Apply(ss, e), TruthApply(rs, e))
  {
    if e.Tick? {
      forall i | 0 <= i < |ss| ensures Tells(Apply(ss, e)[i], TruthApply(rs, e)[i]) {
        TickTells(ss[i], rs[i], e.at(i));
      }
    }
  }

  /**
   Over any run of ticks and advertisements on a list of any length, across wrap-arounds of the
   clock, the list tells the truth: a station is marked disconnected exactly when a tick has come
   later than its advertised time, at the first such tick and once per expiry.
   */
  lemma {:induction false} RunTellsTheTruth(ss: seq<Station>, rs: seq<Truth>, es: seq<Event>)
    requires AllTell(ss, rs) && Timely(rs, es)
    ensures AllTell(Run(ss, es), TruthRun(rs, es))
    decreases |es|
  {
    if es != [] {
      ApplyTells(ss, rs, es[0]);
      RunTellsTheTruth(Apply(ss, es[0]), TruthApply(rs, es[0]), es[1..]);
    }
  }

  /** Station i is never found too old. */
  ghost predicate KeptFresh(rs: seq<Truth>, es: seq<Event>, i: nat)
    requires i < |rs|
    decreases |es|
  {
    es == [] ||
    ((es[0].Tick? ==> es[0].at(i) <= rs[i].last + 2000 * rs[i].valid) && KeptFresh(TruthApply(rs, es[0]), es[1..], i))
  }

  /** A station that is advertised again before its time is up is never marked, at any point. */
  lemma {:induction false} FreshStaysConnected(ss: seq<Station>, rs: seq<Truth>, es: seq<Event>, i: nat)
    requires AllTell(ss, rs) && Timely(rs, es) && i < |ss| && ss[i].connected && KeptFresh(rs, es, i)
    ensures Run(ss, es)[i].connected && Run(ss, es)[i].logged == ss[i].logged
    decreases |es|
  {
    if es != [] {
      ApplyTells(ss, rs, es[0]);
      assert Tells(ss[i], rs[i]) && !rs[i].expired;
      assert Tells(Apply(ss, es[0])[i], TruthApply(rs, es[0])[i]);
      FreshStaysConnected(Apply(ss, es[0]), TruthApply(rs, es[0]), es[1..], i);
    }
  }

  /** A silent station, and any number of ticks: marked at the first late one, and only there. */
  function Ticks(s: Station, at: seq<nat>): Station
    decreases |at|
  {
    if at == [] then s else Ticks(Ticked(s, Clock(at[0])), at[1..])
  }

  lemma {:induction false} SilentIsMarkedOnce(s: Station, v: ValidTime, t0: nat, at: seq<nat>, k: nat)
    requires s == Refreshed(s, v, Clock(t0))
    requires forall i :: 0 <= i < |at| ==> t0 <= at[i] < t0 + WORD
    requires k < |at| && at[k] > t0 + 2000 * v && forall i :: 0 <= i < k ==> at[i] <= t0 + 2000 * v
    ensures Ticks(s, at[..k]) == s
    ensures Ticks(s, at[..k + 1]) == Station(false, s.time.(elapsed := true), s.logged + 1)
    ensures Ticks(s, at) == Ticks(s, at[..k + 1])
    decreases k
  {
    SinceIsReal(t0, at[0]);
    if k == 0 {
      MarkedStays(Ticked(s, Clock(at[0])), at[1..]);
      assert Ticks(Ticked(s, Clock(at[0])), []) == Ticked(s, Clock(at[0]));
      assert at[..1][1..] == [] && at[..0] == [];
    } else {
      SilentIsMarkedOnce(s, v, t0, at[1..], k - 1);
      assert at[..k][1..] == at[1..][..k - 1] && at[..k + 1][1..] == at[1..][..k];
    }
  }

  lemma {:induction false} MarkedStays(s: Station, at: seq<nat>)
    requires s.time.elapsed
    ensures Ticks(s, at) == s
    decreases |at|
  {
    if at != [] { MarkedStays(s, at[1..]); }
  }
}
