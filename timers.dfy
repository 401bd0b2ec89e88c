/** The part of the engine's timer that the gameplay rules rely on: a duration,
    an accumulated elapsed time, a mode (one-shot or repeating) and the
    "finished" / "just finished" flags that a tick sets.  Time is a real number
    of seconds; the engine's nanosecond clock is not modelled. */
module Timers {

  datatype TimerMode = Once | Repeating

  datatype Timer = Timer(
    duration: real,
    mode: TimerMode,
    elapsed: real,
    finished: bool,
    timesFinishedThisTick: nat)
  {
    /** A one-shot timer sticks at its duration once finished; a repeating
        timer always holds the remainder of a period. */
    predicate Valid() {
      && duration > 0.0
      && 0.0 <= elapsed <= duration
      && (mode == Repeating ==> elapsed < duration)
      && (mode == Once ==> (finished <==> elapsed == duration))
    }

    /** True on the tick in which the timer reached its duration. */
    predicate JustFinished() {
      timesFinishedThisTick > 0
    }
  }

  function Min(a: real, b: real): real {
    if a <= b then a else b
  }

  /** A fresh timer of `seconds` seconds: nothing elapsed, not finished. */
  function FromSeconds(seconds: real, mode: TimerMode): (t: Timer)
    requires seconds > 0.0
    ensures t.Valid() && t.duration == seconds && t.mode == mode
    ensures t.elapsed == 0.0 && !t.finished && !t.JustFinished()
  {
    Timer(seconds, mode, 0.0, false, 0)
  }

  lemma MulPositive(a: real, d: real)
    requires a > 0.0 && d > 0.0
    ensures a * d > 0.0
  {}

  /* The three facts below about q = total / d are kept apart from the
     division itself: the solver handles each product on its own. */

  lemma RemainderBelow(total: real, d: real, q: real, kr: real)
    requires d > 0.0 && q * d == total && q < kr + 1.0
    ensures total - kr * d < d
  {
    MulPositive(kr + 1.0 - q, d);
    assert (kr + 1.0 - q) * d == kr * d + d - q * d;
  }

  lemma RemainderNonNegative(total: real, d: real, q: real, kr: real)
    requires d > 0.0 && q * d == total && kr <= q
    ensures 0.0 <= total - kr * d
  {
    if kr < q { MulPositive(q - kr, d); }
    assert (q - kr) * d == q * d - kr * d;
  }

  lemma AtLeastOnePeriod(total: real, d: real, q: real)
    requires d > 0.0 && q * d == total
    ensures total >= d <==> q >= 1.0
  {
    if q > 1.0 { MulPositive(q - 1.0, d); }
    if q < 1.0 { MulPositive(1.0 - q, d); }
    assert (q - 1.0) * d == q * d - d;
  }

  /** Whole periods in `total` seconds, and the remainder, for a period `d`. */
  lemma FloorDivision(total: real, d: real)
    requires total >= 0.0 && d > 0.0
    ensures var k := (total / d).Floor;
      && k >= 0
      && 0.0 <= total - (k as real) * d < d
      && (total >= d <==> k > 0)
  {
    var q := total / d;
    var k := q.Floor;
    assert q * d == total;
    RemainderBelow(total, d, q, k as real);
    RemainderNonNegative(total, d, q, k as real);
    AtLeastOnePeriod(total, d, q);
    assert q >= 0.0 by { if q < 0.0 { MulPositive(-q, d); } }
  }

  /** Advance a timer by `delta` seconds.  A one-shot timer that has already
      finished only clears its "just finished" count; one that reaches its
      duration stops there.  A repeating timer wraps around and counts how
      many whole periods were completed in this tick. */
  function Tick(t: Timer, delta: real): (r: Timer)
    requires t.Valid() && delta >= 0.0
    ensures r.Valid() && r.duration == t.duration && r.mode == t.mode
    ensures t.mode == Once ==>
      && (r.finished <==> t.finished || t.elapsed + delta >= t.duration)
      && (r.JustFinished() <==> !t.finished && t.elapsed + delta >= t.duration)
      && r.elapsed == Min(t.elapsed + delta, t.duration)
    ensures t.mode == Repeating ==>
      && (r.JustFinished() <==> t.elapsed + delta >= t.duration)
      && (r.finished <==> t.elapsed + delta >= t.duration)
      && r.elapsed + (r.timesFinishedThisTick as real) * t.duration == t.elapsed + delta
  {
    if t.mode == Once && t.finished then
      t.(timesFinishedThisTick := 0)
    else
      var total := t.elapsed + delta;
      if total < t.duration then
        t.(elapsed := total, finished := false, timesFinishedThisTick := 0)
      else if t.mode == Once then
        t.(elapsed := t.duration, finished := true, timesFinishedThisTick := 1)
      else
        FloorDivision(total, t.duration);
        var k := (total / t.duration).Floor;
        t.(elapsed := total - (k as real) * t.duration, finished := true, timesFinishedThisTick := k)
  }

  /** A repeating timer keeps, after a tick, the time not used up by whole
      periods.  This repeats one of Tick's own guarantees on purpose: callers
      reasoning over many ticks use it so that Tick's body, with its floor
      division, stays out of their proofs. */
  lemma RepeatingTickAccounts(t: Timer, delta: real, r: Timer)
    requires t.Valid() && t.mode == Repeating && delta >= 0.0 && r == Tick(t, delta)
    ensures r.elapsed + (r.timesFinishedThisTick as real) * t.duration == t.elapsed + delta
  {
  }

  function Sum(deltas: seq<real>): real {
    if deltas == [] then 0.0 else Sum(deltas[..|deltas| - 1]) + deltas[|deltas| - 1]
  }

  predicate NonNegative(deltas: seq<real>) {
    forall i :: 0 <= i < |deltas| ==> deltas[i] >= 0.0
  }

  /** The timer after one tick per element of `deltas`, in order. */
  function TickAll(t: Timer, deltas: seq<real>): (r: Timer)
    requires t.Valid() && NonNegative(deltas)
    ensures r.Valid() && r.duration == t.duration && r.mode == t.mode
  {
    if deltas == [] then t
    else Tick(TickAll(t, deltas[..|deltas| - 1]), deltas[|deltas| - 1])
  }

  /** A fresh one-shot timer is finished exactly when the ticks fed to it add
      up to at least its duration, and its elapsed time is that sum, capped. */
  lemma {:induction false} OnceFinishesAfterDuration(seconds: real, deltas: seq<real>)
    requires seconds > 0.0 && NonNegative(deltas)
    ensures var r := TickAll(FromSeconds(seconds, Once), deltas);
      && (r.finished <==> Sum(deltas) >= seconds)
      && r.elapsed == Min(Sum(deltas), seconds)
  {
    if deltas != [] {
      var init := deltas[..|deltas| - 1];
      assert NonNegative(init);
      OnceFinishesAfterDuration(seconds, init);
      assert Sum(deltas) >= Sum(init);
    }
  }
}
