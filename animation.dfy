/**
 * Sprite-sheet animation settings shared by every animated entity: the
 * range of frames to cycle through, the frame rate, and the one-shot timer
 * that gates the next frame advance.  Also the cyclic frame policy used by
 * the man and the stereo.
 */
module Animation {
  import opened Optional
  import opened Timing

  /** An unsigned 8-bit number, the type of the frame rate. */
  type U8 = x: nat | x < 256

  datatype AnimationConfig = AnimationConfig(firstIndex: nat, lastIndex: nat, fps: U8, frameTimer: Timer)

  /**
   * A fresh one-shot timer whose period is one frame at `fps` frames per
   * second, truncated to whole nanoseconds.  A zero rate has no finite
   * period, so it is excluded.
   */
  function TimerFromFps(fps: U8): (t: Timer)
    requires 0 < fps
    ensures t.Valid() && t.mode == Once && t.Elapsed() == 0 && !t.justFinished
    ensures t.duration * fps <= NanosPerSecond < (t.duration + 1) * fps
  {
    var period := NanosPerSecond / fps;
    NewTimer(period, Once)
  }

  /** What every animated entity keeps true of its settings. */
  predicate ConfigValid(c: AnimationConfig) {
    && c.firstIndex <= c.lastIndex
    && 0 < c.fps
    && c.frameTimer.Valid()
    && c.frameTimer.mode == Once
    && c.frameTimer.duration == TimerFromFps(c.fps).duration
  }

  /**
   * The settings for frames `first..last` at `fps` frames per second; the
   * range is stored as given and is not checked.
   */
  function New(first: nat, last: nat, fps: U8): (c: AnimationConfig)
    requires 0 < fps
    ensures c.firstIndex == first && c.lastIndex == last && c.fps == fps
    ensures c.frameTimer == TimerFromFps(fps)
    ensures first <= last <==> ConfigValid(c)
  {
    AnimationConfig(first, last, fps, TimerFromFps(fps))
  }

  /** A freshly made frame timer finishes at most once however it is ticked. */
  lemma FrameTimerFinishesOnce(fps: U8, deltas: seq<nat>)
    requires 0 < fps
    ensures Fires(TimerFromFps(fps), deltas) <= 1
  {
    OnceFiresAtMostOnce(TimerFromFps(fps), deltas);
  }

  /** The frame index lies in the configured range, when there is an atlas. */
  predicate FrameInRange(c: AnimationConfig, atlas: Option<nat>) {
    atlas.Some? ==> c.firstIndex <= atlas.value <= c.lastIndex
  }

  /** The cyclic policy: from the last frame back to the first, otherwise one on. */
  function CyclicNext(index: nat, first: nat, last: nat): (r: nat)
    ensures first <= index <= last ==> first <= r <= last
    ensures r == first || r == index + 1
  {
    if index == last then first else index + 1
  }

  /** The frame reached after `n` cyclic advances from `index`. */
  function CyclicIterate(index: nat, first: nat, last: nat, n: nat): nat {
    if n == 0 then index else CyclicNext(CyclicIterate(index, first, last, n - 1), first, last)
  }

  lemma {:induction false} CyclicCounts(first: nat, last: nat, k: nat)
    requires first <= last && k <= last - first
    ensures CyclicIterate(first, first, last, k) == first + k
  {
    if k > 0 {
      CyclicCounts(first, last, k - 1);
    }
  }

  /** Starting at the first frame, one full cycle of advances returns to it. */
  lemma CyclicPeriod(first: nat, last: nat)
    requires first <= last
    ensures CyclicIterate(first, first, last, last - first + 1) == first
    ensures forall k | 0 < k <= last - first :: CyclicIterate(first, first, last, k) != first
  {
    CyclicCounts(first, last, last - first);
    forall k | 0 < k <= last - first ensures CyclicIterate(first, first, last, k) != first {
      CyclicCounts(first, last, k);
    }
  }

  /** The result of one animation step. */
  datatype Step = Step(config: AnimationConfig, atlas: Option<nat>, advanced: bool)

  /**
   * One tick of a cyclic animator on an entity that is not skipped: tick the
   * frame timer; if it has just finished and there is an atlas, advance the
   * frame once and replace the timer with a fresh one.
   */
  function CyclicAnimate(c: AnimationConfig, atlas: Option<nat>, delta: nat): (s: Step)
    requires ConfigValid(c)
    ensures ConfigValid(s.config) && s.config.(frameTimer := c.frameTimer) == c
    ensures s.advanced <==> atlas.Some? && Tick(c.frameTimer, delta).justFinished
    ensures s.atlas == if s.advanced then Some(CyclicNext(atlas.value, c.firstIndex, c.lastIndex)) else atlas
    ensures s.config.frameTimer == if s.advanced then TimerFromFps(c.fps) else Tick(c.frameTimer, delta)
    ensures FrameInRange(c, atlas) ==> FrameInRange(c, s.atlas)
  {
    var ticked := c.(frameTimer := Tick(c.frameTimer, delta));
    if ticked.frameTimer.justFinished && atlas.Some? then
      Step(ticked.(frameTimer := TimerFromFps(c.fps)),
           Some(CyclicNext(atlas.value, c.firstIndex, c.lastIndex)), true)
    else
      Step(ticked, atlas, false)
  }

  /** The animator run over several ticks, counting the frame advances. */
  datatype Run = Run(config: AnimationConfig, atlas: Option<nat>, advances: nat)

  function CyclicRun(c: AnimationConfig, atlas: Option<nat>, deltas: seq<nat>): (r: Run)
    requires ConfigValid(c)
    ensures ConfigValid(r.config) && r.config.(frameTimer := c.frameTimer) == c
    ensures r.advances <= |deltas|
    ensures atlas.None? ==> r.atlas.None?
    ensures atlas.Some? ==> r.atlas == Some(CyclicIterate(atlas.value, c.firstIndex, c.lastIndex, r.advances))
    decreases |deltas|
  {
    if deltas == [] then Run(c, atlas, 0)
    else
      var before := CyclicRun(c, atlas, deltas[..|deltas| - 1]);
      var s := CyclicAnimate(before.config, before.atlas, deltas[|deltas| - 1]);
      Run(s.config, s.atlas, before.advances + if s.advanced then 1 else 0)
  }
}
