/**
 * The fireplace: an animated furnishing whose flames show a random frame
 * each time the frame timer fires, never the same frame twice in a row.
 * Random numbers are given as the sequence of values the generator draws.
 */
module Fireplace {
  import opened Optional
  import opened Timing
  import opened Animation

  datatype AnimationState = Off | Starting | Running

  const FrameFirst: nat := 0
  const FrameLast: nat := 4
  const FrameRate: U8 := 4

  /** `v` is the first of the draws that differs from `current`. */
  predicate IsFirstDifferent(draws: seq<nat>, current: nat, v: nat) {
    exists k | 0 <= k < |draws| ::
      draws[k] == v && v != current && forall j | 0 <= j < k :: draws[j] == current
  }

  /** The draws single out one value. */
  lemma FirstDifferentUnique(draws: seq<nat>, current: nat, v: nat, w: nat)
    requires IsFirstDifferent(draws, current, v) && IsFirstDifferent(draws, current, w)
    ensures v == w
  {
    var k1 :| 0 <= k1 < |draws| && draws[k1] == v && v != current && forall j | 0 <= j < k1 :: draws[j] == current;
    var k2 :| 0 <= k2 < |draws| && draws[k2] == w && w != current && forall j | 0 <= j < k2 :: draws[j] == current;
    assert k1 == k2;
  }

  /**
   * With a single frame that is the current one, every draw equals the
   * current frame, so resampling would never end; hence the requirement
   * of a differing draw below.
   */
  lemma SingleFrameNeverDiffers(first: nat, last: nat, current: nat, draws: seq<nat>)
    requires forall j | 0 <= j < |draws| :: first <= draws[j] <= last
    requires first == last == current
    ensures !exists j | 0 <= j < |draws| :: draws[j] != current
  {
  }

  /**
   * Draws frames until one differs from the current frame.  The draws are
   * the values the generator yields for the range `first..last`.
   */
  method Resample(first: nat, last: nat, current: nat, draws: seq<nat>) returns (newIndex: nat)
    requires forall j | 0 <= j < |draws| :: first <= draws[j] <= last
    requires exists j | 0 <= j < |draws| :: draws[j] != current
    ensures first <= newIndex <= last && newIndex != current
    ensures IsFirstDifferent(draws, current, newIndex)
  {
    var k := 0;
    newIndex := draws[0];
    while newIndex == current
      invariant 0 <= k < |draws| && newIndex == draws[k]
      invariant forall j | 0 <= j < k :: draws[j] == current
      invariant exists j | k <= j < |draws| :: draws[j] != current
      decreases |draws| - k
    {
      k := k + 1;
      newIndex := draws[k];
    }
  }

  class FireplaceEntity {
    var state: AnimationState
    var atlas: Option<nat>
    var config: AnimationConfig

    ghost predicate Valid()
      reads this
    {
      && ConfigValid(config)
      && config.firstIndex == FrameFirst && config.lastIndex == FrameLast && config.fps == FrameRate
      && atlas.Some? && FrameInRange(config, atlas)
    }

    /** Spawns the fireplace Running at frame 0. */
    constructor ()
      ensures Valid()
      ensures state == Running && atlas == Some(0)
      ensures config == New(FrameFirst, FrameLast, FrameRate)
    {
      state := Running;
      atlas := Some(0);
      config := New(FrameFirst, FrameLast, FrameRate);
    }

    /**
     * The animator: Off is skipped, Starting and Running animate.  When the
     * frame timer fires, a new frame different from the current one is
     * drawn and the timer is replaced with a fresh one.
     */
    method ExecuteAnimations(delta: nat, draws: seq<nat>)
      requires Valid()
      requires forall j | 0 <= j < |draws| :: config.firstIndex <= draws[j] <= config.lastIndex
      requires state != Off && Tick(config.frameTimer, delta).justFinished ==>
        exists j | 0 <= j < |draws| :: draws[j] != atlas.value
      modifies this`atlas, this`config
      ensures Valid()
      ensures state == Off ==> atlas == old(atlas) && config == old(config)
      ensures state != Off && !Tick(old(config.frameTimer), delta).justFinished ==>
        atlas == old(atlas) && config == old(config).(frameTimer := Tick(old(config.frameTimer), delta))
      ensures state != Off && Tick(old(config.frameTimer), delta).justFinished ==>
        && atlas.value != old(atlas.value)
        && IsFirstDifferent(draws, old(atlas.value), atlas.value)
        && config == old(config).(frameTimer := TimerFromFps(config.fps))
    {
      if state == Off {
        return;
      }
      config := config.(frameTimer := Tick(config.frameTimer, delta));
      if config.frameTimer.justFinished && atlas.Some? {
        var newIndex := Resample(config.firstIndex, config.lastIndex, atlas.value, draws);
        atlas := Some(newIndex);
        config := config.(frameTimer := TimerFromFps(config.fps));
      }
    }
  }
}
