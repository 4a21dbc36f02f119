/** The millisecond timer of the ARCS parser, on a 32-bit clock that wraps around. */
module UserTimer {
  import opened Words

  datatype Timer = Timer(running: bool, elapsed: bool, count: Word, start: Word)

  /** The difference of two clock readings, as the 32-bit subtraction gives it. */
  function Since(start: Word, now: Word): Word {
    (now - start) % WORD
  }

  function Started(duration: Word, now: Word): Timer {
    Timer(true, false, duration, now)
  }

  function Stopped(t: Timer): Timer {
    t.(running := false, elapsed := false)
  }

  function Polled(t: Timer, now: Word): Timer {
    if t.running && !t.elapsed && Since(t.start, now) > t.count then t.(elapsed := true) else t
  }

  class TUserTimer {
    var running: bool
    var elapsed: bool
    var count: Word
    var startTime: Word

    constructor ()
      ensures !running && !elapsed
    {
      running, elapsed := false, false;
    }

    function Value(): Timer
      reads this
    {
      Timer(running, elapsed, count, startTime)
    }

    method Start(duration: Word, now: Word)
      modifies this
      ensures Value() == Started(duration, now)
    {
      running, elapsed, count, startTime := true, false, duration, now;
    }

    method Stop()
      modifies this
      ensures Value() == Stopped(old(Value()))
    {
      running, elapsed := false, false;
    }

    method Timeout(now: Word) returns (r: bool)
      modifies this
      ensures Value() == Polled(old(Value()), now)
      ensures r == elapsed
    {
      if running && !elapsed {
        var elapsedMs := (now - startTime) % WORD;
        if elapsedMs > count { elapsed := true; }
      }
      return elapsed;
    }
  }

  // ----- Real time -----

  /** What the clock shows at a real time in milliseconds. */
  function Clock(t: nat): Word {
    t % WORD
  }

  /** Across a wrap-around of the clock, a poll less than 2^32 ms after the start tells the truth. */
  lemma SinceIsReal(t0: nat, t: nat)
    requires t0 <= t < t0 + WORD
    ensures Since(Clock(t0), Clock(t)) == t - t0
  {
    var q, r, q', r' := t0 / WORD, t0 % WORD, t / WORD, t % WORD;
    assert t0 == WORD * q + r && t == WORD * q' + r';
    assert q' == q || q' == q + 1;
  }

  /** A timer polled at some times, one after another. */
  function Polls(t: Timer, at: seq<nat>): Timer
    decreases |at|
  {
    if at == [] then t else Polls(Polled(t, Clock(at[0])), at[1..])
  }

  /** A timer that is started and then polled at any times within 2^32 ms is up exactly when one of
      the polls came later than its duration; and then it stays up until it is started again. */
  lemma {:induction false} PollsTellTheTruth(duration: Word, t0: nat, at: seq<nat>)
    requires forall i :: 0 <= i < |at| ==> t0 <= at[i] < t0 + WORD
    ensures Polls(Started(duration, Clock(t0)), at)
            == Started(duration, Clock(t0)).(elapsed := exists i :: 0 <= i < |at| && at[i] - t0 > duration)
    decreases |at|
  {
    var t := Started(duration, Clock(t0));
    if at != [] {
      SinceIsReal(t0, at[0]);
      PollsTellTheTruth(duration, t0, at[1..]);
      if at[0] - t0 > duration {
        StaysUp(t.(elapsed := true), at[1..]);
      } else {
        assert (exists i :: 0 <= i < |at| && at[i] - t0 > duration)
               <==> (exists i :: 0 <= i < |at[1..]| && at[1..][i] - t0 > duration) by {
          if i :| 0 <= i < |at| && at[i] - t0 > duration { assert at[1..][i - 1] - t0 > duration; }
        }
      }
    }
  }

  lemma {:induction false} StaysUp(t: Timer, at: seq<nat>)
    requires t.elapsed
    ensures Polls(t, at) == t
    decreases |at|
  {
    if at != [] { StaysUp(t, at[1..]); }
  }

  /** A stopped timer never runs out. */
  lemma StoppedStays(t: Timer, now: Word)
    ensures Polled(Stopped(t), now) == Stopped(t) && !Stopped(t).elapsed && !Stopped(t).running
  {}
}
