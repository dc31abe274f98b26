/**
 * The engine's frame timer, modelled as a countdown in whole nanoseconds.
 *
 * A timer has a period (`duration`), the time left until it next reaches
 * zero (`remaining`), a mode, and `justFinished`, which records whether it
 * reached zero during the most recent tick.  A one-shot timer stays at zero
 * once it gets there; a repeating timer starts a new period, keeping the
 * overshoot.
 */
module Timing {
  const NanosPerSecond: nat := 1_000_000_000

  datatype TimerMode = Once | Repeating

  datatype Timer = Timer(duration: nat, remaining: nat, mode: TimerMode, justFinished: bool)
  {
    predicate Valid() {
      0 < duration && remaining <= duration && (mode == Repeating ==> 0 < remaining)
    }

    /** Time accumulated in the current period. */
    function Elapsed(): nat
      requires Valid()
    {
      duration - remaining
    }

    predicate Finished() {
      remaining == 0
    }
  }

  /** A timer that has just been created: nothing elapsed, not finished. */
  function NewTimer(duration: nat, mode: TimerMode): (t: Timer)
    requires 0 < duration
    ensures t.Valid() && t.duration == duration && t.mode == mode
    ensures t.Elapsed() == 0 && !t.Finished() && !t.justFinished
  {
    Timer(duration, duration, mode, false)
  }

  /**
   * Advances the timer by `delta` nanoseconds.  It has just finished exactly
   * when it had time left and the tick used all of it.  A one-shot timer's
   * elapsed time saturates at the duration; a repeating timer's wraps.
   */
  function Tick(t: Timer, delta: nat): (r: Timer)
    requires t.Valid()
    ensures r.Valid() && r.duration == t.duration && r.mode == t.mode
    ensures r.justFinished <==> 0 < t.remaining <= delta
    ensures t.mode == Once ==>
      r.Elapsed() == if t.Elapsed() + delta < t.duration then t.Elapsed() + delta else t.duration
    ensures t.mode == Repeating ==> r.Elapsed() == (t.Elapsed() + delta) % t.duration
  {
    match t.mode
    case Once =>
      if t.remaining == 0 then t.(justFinished := false)
      else if t.remaining <= delta then t.(remaining := 0, justFinished := true)
      else t.(remaining := t.remaining - delta, justFinished := false)
    case Repeating =>
      var elapsed := t.duration - t.remaining + delta;
      t.(remaining := t.duration - elapsed % t.duration, justFinished := t.duration <= elapsed)
  }

  /** Restarts the current period; duration and mode are kept. */
  function Reset(t: Timer): (r: Timer)
    requires t.Valid()
    ensures r.Valid() && r.duration == t.duration && r.mode == t.mode
    ensures r.Elapsed() == 0 && !r.justFinished
  {
    t.(remaining := t.duration, justFinished := false)
  }

  /** The number of ticks, among `deltas`, during which the timer finished. */
  function Fires(t: Timer, deltas: seq<nat>): nat
    requires t.Valid()
    decreases |deltas|
  {
    if deltas == [] then 0
    else
      var next := Tick(t, deltas[0]);
      (if next.justFinished then 1 else 0) + Fires(next, deltas[1..])
  }

  function Sum(deltas: seq<nat>): nat {
    if deltas == [] then 0 else deltas[0] + Sum(deltas[1..])
  }

  /** A one-shot timer finishes at most once, and never again once finished. */
  lemma {:induction false} OnceFiresAtMostOnce(t: Timer, deltas: seq<nat>)
    requires t.Valid() && t.mode == Once
    ensures Fires(t, deltas) <= 1
    ensures t.Finished() ==> Fires(t, deltas) == 0
    decreases |deltas|
  {
    if deltas != [] {
      var next := Tick(t, deltas[0]);
      OnceFiresAtMostOnce(next, deltas[1..]);
      assert next.justFinished ==> next.Finished();
    }
  }

  lemma DivUnique(a: nat, d: nat, q: int, r: int)
    requires 0 < d && a == d * q + r && 0 <= r < d
    ensures a / d == q
  {
    var k := q - a / d;
    assert d * k == a % d - r by {
      assert d * q - d * (a / d) == d * k;
    }
  }

  lemma DivSplit(a: nat, s: nat, d: nat)
    requires 0 < d
    ensures a / d + (a % d + s) / d == (a + s) / d
  {
    var q, m := a / d, a % d;
    var q', m' := (m + s) / d, (m + s) % d;
    assert a + s == d * (q + q') + m' by {
      assert a == d * q + m;
      assert m + s == d * q' + m';
      assert d * q + d * q' == d * (q + q');
    }
    DivUnique(a + s, d, q + q', m');
  }

  /** One tick of a repeating timer by at most one period finishes it at most once. */
  lemma RepeatingTickFires(t: Timer, delta: nat)
    requires t.Valid() && t.mode == Repeating && delta <= t.duration
    ensures (t.Elapsed() + delta) / t.duration == if Tick(t, delta).justFinished then 1 else 0
  {
    var d, e := t.duration, t.Elapsed();
    if Tick(t, delta).justFinished {
      DivUnique(e + delta, d, 1, e + delta - d);
    } else {
      DivUnique(e + delta, d, 0, e + delta);
    }
  }

  /**
   * A repeating timer ticked in steps no longer than its period finishes
   * once per whole period of accumulated time.
   */
  lemma {:induction false} RepeatingFiresOncePerPeriod(t: Timer, deltas: seq<nat>)
    requires t.Valid() && t.mode == Repeating
    requires forall i | 0 <= i < |deltas| :: deltas[i] <= t.duration
    ensures Fires(t, deltas) == (t.Elapsed() + Sum(deltas)) / t.duration
    decreases |deltas|
  {
    if deltas == [] {
      DivUnique(t.Elapsed(), t.duration, 0, t.Elapsed());
    } else {
      var next, rest := Tick(t, deltas[0]), deltas[1..];
      var a, d := t.Elapsed() + deltas[0], t.duration;
      RepeatingFiresOncePerPeriod(next, rest);
      RepeatingTickFires(t, deltas[0]);
      assert next.Elapsed() == a % d;
      DivSplit(a, Sum(rest), d);
      assert Fires(t, deltas) == a / d + (a % d + Sum(rest)) / d;
      assert t.Elapsed() + Sum(deltas) == a + Sum(rest);
    }
  }
}
