/**
 * The man: a walking character driven by the arrow keys.  Key edges become
 * animation triggers; triggers switch between standing and walking sprite
 * sheets; the walking sheet is animated cyclically; walking moves him
 * sideways; while standing, a repeating five-second timer turns him around.
 */
module TheMan {
  import opened Optional
  import opened Timing
  import opened Animation

  datatype AnimationState = Idle | WalkingLeft | WalkingRight

  /** The two sprite sheets (an image together with its frame layout). */
  datatype Sheet = Standing | Walking

  datatype Sprite = Sprite(image: Sheet, atlas: Option<nat>, flipX: bool)

  datatype Vec3 = Vec3(x: real, y: real, z: real)

  datatype Key = ArrowLeft | ArrowRight | OtherKey

  /**
   * The keyboard during one frame: the keys held at the end of the frame,
   * and those that went down or up during it.  A key tapped within a single
   * frame is just pressed and just released without being held.
   */
  datatype Keyboard = Keyboard(pressed: set<Key>, justPressed: set<Key>, justReleased: set<Key>)

  /** Walking speed in world units per second. */
  const WalkingSpeed: real := 120.0
  /** The period of the idle turn-around timer: five seconds. */
  const IdlePeriod: nat := 5 * NanosPerSecond
  const FrameFirst: nat := 0
  const FrameLast: nat := 8
  const FrameRate: U8 := 10

  function Seconds(delta: nat): real {
    delta as real / NanosPerSecond as real
  }

  predicate ArrowJustPressed(k: Keyboard) {
    ArrowLeft in k.justPressed || ArrowRight in k.justPressed
  }

  /** An arrow went up this frame and no arrow is held any more. */
  predicate ArrowsLetGo(k: Keyboard) {
    && (ArrowLeft in k.justReleased || ArrowRight in k.justReleased)
    && ArrowLeft !in k.pressed
    && ArrowRight !in k.pressed
  }

  /**
   * The triggers one frame of keyboard input calls for, in the order they
   * are written: the walking trigger of an arrow that went down, then Idle.
   */
  function KeyTriggers(keyboard: Keyboard): seq<AnimationState> {
    (if ArrowLeft in keyboard.justPressed then [WalkingLeft]
     else if ArrowRight in keyboard.justPressed then [WalkingRight]
     else [])
    + (if ArrowsLetGo(keyboard) then [Idle] else [])
  }

  /**
   * The triggers written for one frame of keyboard input: a walking trigger
   * when an arrow went down (left wins over right), then Idle when the arrows
   * were let go.  Two triggers are written only when an arrow was tapped
   * within the frame.
   */
  method HandleKeys(keyboard: Keyboard) returns (triggers: seq<AnimationState>)
    ensures WalkingLeft in triggers <==> ArrowLeft in keyboard.justPressed
    ensures WalkingRight in triggers <==>
      ArrowRight in keyboard.justPressed && ArrowLeft !in keyboard.justPressed
    ensures Idle in triggers <==> ArrowsLetGo(keyboard)
    ensures |triggers| ==
      (if ArrowJustPressed(keyboard) then 1 else 0) + (if ArrowsLetGo(keyboard) then 1 else 0)
    ensures Idle in triggers ==> triggers[|triggers| - 1] == Idle
    ensures |triggers| == 2 ==>
      ArrowLeft in keyboard.justPressed - keyboard.pressed ||
      ArrowRight in keyboard.justPressed - keyboard.pressed
    ensures keyboard.justPressed <= keyboard.pressed ==> |triggers| <= 1
    ensures triggers == KeyTriggers(keyboard)
  {
    triggers := [];
    if ArrowLeft in keyboard.justPressed {
      triggers := triggers + [WalkingLeft];
    } else if ArrowRight in keyboard.justPressed {
      triggers := triggers + [WalkingRight];
    }
    if (ArrowLeft in keyboard.justReleased || ArrowRight in keyboard.justReleased)
      && ArrowLeft !in keyboard.pressed
      && ArrowRight !in keyboard.pressed
    {
      triggers := triggers + [Idle];
    }
  }

  /** The parts of the man that triggers change. */
  datatype Pose = Pose(state: AnimationState, sprite: Sprite, config: AnimationConfig)

  /**
   * The man's animation settings are the ones he is spawned with; he always
   * has an atlas whose frame is in range; he shows the standing sheet, at
   * frame 0, exactly when idle.
   */
  predicate PoseValid(p: Pose) {
    && ConfigValid(p.config)
    && p.config.firstIndex == FrameFirst
    && p.config.lastIndex == FrameLast
    && p.config.fps == FrameRate
    && p.sprite.atlas.Some?
    && FrameInRange(p.config, p.sprite.atlas)
    && (p.sprite.image == Standing <==> p.state == Idle)
    && (p.state == Idle ==> p.sprite.atlas == Some(0))
  }

  /**
   * One trigger.  A trigger for the current state does nothing.  Otherwise
   * the state becomes the trigger's and the matching sheet is shown from
   * frame 0.  Walking left mirrors the sprite and walking right does not;
   * both restart the frame timer.  Stopping keeps facing left exactly when
   * he was walking left, and leaves the frame timer alone.
   */
  function ApplyTrigger(p: Pose, trigger: AnimationState): (r: Pose)
    requires PoseValid(p)
    ensures PoseValid(r)
    ensures trigger == p.state ==> r == p
    ensures trigger != p.state ==> r.state == trigger && r.sprite.atlas == Some(0)
    ensures trigger != p.state && trigger == Idle ==>
      r.sprite.flipX == (p.state == WalkingLeft) && r.config == p.config
    ensures trigger != p.state && trigger != Idle ==>
      && r.sprite.flipX == (trigger == WalkingLeft)
      && r.config == p.config.(frameTimer := TimerFromFps(p.config.fps))
  {
    if p.state == trigger then p
    else
      match trigger
      case Idle =>
        Pose(Idle, Sprite(Standing, Some(0), p.state == WalkingLeft), p.config)
      case WalkingLeft =>
        Pose(WalkingLeft, Sprite(Walking, Some(0), true), p.config.(frameTimer := TimerFromFps(p.config.fps)))
      case WalkingRight =>
        Pose(WalkingRight, Sprite(Walking, Some(0), false), p.config.(frameTimer := TimerFromFps(p.config.fps)))
  }

  /** Triggers applied in the order they were written. */
  function ApplyTriggers(p: Pose, triggers: seq<AnimationState>): (r: Pose)
    requires PoseValid(p)
    ensures PoseValid(r)
    ensures triggers == [] ==> r == p
    ensures triggers != [] ==> r.state == triggers[|triggers| - 1]
    decreases |triggers|
  {
    if triggers == [] then p
    else ApplyTrigger(ApplyTriggers(p, triggers[..|triggers| - 1]), triggers[|triggers| - 1])
  }

  /** Applying two batches of triggers is applying their concatenation. */
  lemma {:induction false} ApplyTriggersAppend(p: Pose, a: seq<AnimationState>, b: seq<AnimationState>)
    requires PoseValid(p)
    ensures ApplyTriggers(p, a + b) == ApplyTriggers(ApplyTriggers(p, a), b)
    decreases |b|
  {
    if b == [] {
      assert a + b == a;
    } else {
      var n := |b| - 1;
      assert (a + b)[..|a + b| - 1] == a + b[..n];
      assert (a + b)[|a + b| - 1] == b[n];
      ApplyTriggersAppend(p, a, b[..n]);
    }
  }

  /** The man's position after one tick of `delta` nanoseconds in `state`. */
  function Move(v: Vec3, state: AnimationState, delta: nat): (r: Vec3)
    ensures r.y == v.y && r.z == v.z
    ensures r.x == v.x + Velocity(state) * Seconds(delta)
  {
    match state
    case Idle => v
    case WalkingLeft => v.(x := v.x - WalkingSpeed * Seconds(delta))
    case WalkingRight => v.(x := v.x + WalkingSpeed * Seconds(delta))
  }

  /** The signed horizontal speed in each state. */
  function Velocity(state: AnimationState): real {
    match state
    case Idle => 0.0
    case WalkingLeft => -WalkingSpeed
    case WalkingRight => WalkingSpeed
  }

  function MoveAll(v: Vec3, state: AnimationState, deltas: seq<nat>): Vec3
    decreases |deltas|
  {
    if deltas == [] then v else MoveAll(Move(v, state, deltas[0]), state, deltas[1..])
  }

  /**
   * Staying in one state over several ticks moves the man by his speed times
   * the total time: not at all when idle, and never vertically or in depth.
   */
  lemma {:induction false} Displacement(v: Vec3, state: AnimationState, deltas: seq<nat>)
    ensures MoveAll(v, state, deltas).y == v.y && MoveAll(v, state, deltas).z == v.z
    ensures MoveAll(v, state, deltas).x == v.x + Velocity(state) * Seconds(Sum(deltas))
    decreases |deltas|
  {
    if deltas != [] {
      Displacement(Move(v, state, deltas[0]), state, deltas[1..]);
      assert Seconds(Sum(deltas)) == Seconds(deltas[0]) + Seconds(Sum(deltas[1..]));
    }
  }

  /** Whether the man faces left after idling through `deltas`. */
  function IdleFlip(flipX: bool, t: Timer, deltas: seq<nat>): bool
    requires t.Valid()
    decreases |deltas|
  {
    if deltas == [] then flipX
    else
      var next := Tick(t, deltas[0]);
      IdleFlip(flipX != next.justFinished, next, deltas[1..])
  }

  /** While idle the man turns around once for every tick in which the timer fires. */
  lemma {:induction false} IdleFlipParity(flipX: bool, t: Timer, deltas: seq<nat>)
    requires t.Valid()
    ensures IdleFlip(flipX, t, deltas) == (flipX != (Fires(t, deltas) % 2 == 1))
    decreases |deltas|
  {
    if deltas != [] {
      var next := Tick(t, deltas[0]);
      IdleFlipParity(flipX != next.justFinished, next, deltas[1..]);
    }
  }

  /**
   * Idling with ticks no longer than five seconds, the man turns around once
   * every five seconds of accumulated idle time.
   */
  lemma IdleTurnsEveryFiveSeconds(flipX: bool, t: Timer, deltas: seq<nat>)
    requires t.Valid() && t.mode == Repeating && t.duration == IdlePeriod
    requires forall i | 0 <= i < |deltas| :: deltas[i] <= IdlePeriod
    ensures IdleFlip(flipX, t, deltas) == (flipX != ((t.Elapsed() + Sum(deltas)) / IdlePeriod % 2 == 1))
  {
    IdleFlipParity(flipX, t, deltas);
    RepeatingFiresOncePerPeriod(t, deltas);
  }

  class Man {
    var state: AnimationState
    var sprite: Sprite
    var config: AnimationConfig
    var idleTimer: Timer
    var translation: Vec3

    ghost predicate Valid()
      reads this
    {
      && PoseValid(Pose(state, sprite, config))
      && idleTimer.Valid() && idleTimer.mode == Repeating && idleTimer.duration == IdlePeriod
    }

    function CurrentPose(): Pose
      reads this
    {
      Pose(state, sprite, config)
    }

    /** Spawns the man idle, standing at frame 0, facing right. */
    constructor ()
      ensures Valid()
      ensures state == Idle && sprite == Sprite(Standing, Some(0), false)
      ensures config == New(FrameFirst, FrameLast, FrameRate)
      ensures idleTimer == NewTimer(IdlePeriod, Repeating)
      ensures translation == Vec3(-200.0, -50.0, 0.0)
    {
      state := Idle;
      sprite := Sprite(Standing, Some(0), false);
      config := New(FrameFirst, FrameLast, FrameRate);
      idleTimer := NewTimer(IdlePeriod, Repeating);
      translation := Vec3(-200.0, -50.0, 0.0);
    }

    /**
     * The animator: the standing sheet has one frame, so an idle man is
     * skipped; a walking man's walking sheet advances cyclically.
     */
    method HandleAnimations(delta: nat)
      requires Valid()
      modifies this`config, this`sprite
      ensures Valid()
      ensures state == Idle ==> config == old(config) && sprite == old(sprite)
      ensures state != Idle ==>
        var s := CyclicAnimate(old(config), old(sprite.atlas), delta);
        config == s.config && sprite == old(sprite).(atlas := s.atlas)
    {
      if state == Idle {
        return;
      }
      config := config.(frameTimer := Tick(config.frameTimer, delta));
      if config.frameTimer.justFinished && sprite.atlas.Some? {
        var index := sprite.atlas.value;
        if index == config.lastIndex {
          index := config.firstIndex;
        } else {
          index := index + 1;
        }
        sprite := sprite.(atlas := Some(index));
        config := config.(frameTimer := TimerFromFps(config.fps));
      }
    }

    /** Reads this frame's triggers in order and switches state. */
    method TriggerAnimation(triggers: seq<AnimationState>)
      requires Valid()
      modifies this`state, this`sprite, this`config
      ensures Valid()
      ensures CurrentPose() == ApplyTriggers(old(CurrentPose()), triggers)
    {
      var i := 0;
      while i < |triggers|
        invariant 0 <= i <= |triggers|
        invariant Valid()
        invariant CurrentPose() == ApplyTriggers(old(CurrentPose()), triggers[..i])
      {
        var newState := triggers[i];
        if state != newState {
          match newState {
            case Idle =>
              sprite := Sprite(Standing, Some(0), state == WalkingLeft);
            case WalkingLeft =>
              sprite := Sprite(Walking, Some(0), true);
              config := config.(frameTimer := TimerFromFps(config.fps));
            case WalkingRight =>
              sprite := Sprite(Walking, Some(0), false);
              config := config.(frameTimer := TimerFromFps(config.fps));
          }
          state := newState;
        }
        assert triggers[..i + 1][..i] == triggers[..i];
        i := i + 1;
      }
      assert triggers[..i] == triggers;
    }

    /** Moves the man sideways according to his state. */
    method HandleMovement(delta: nat)
      modifies this`translation
      ensures translation == Move(old(translation), state, delta)
    {
      match state {
        case Idle =>
        case WalkingLeft =>
          translation := translation.(x := translation.x - WalkingSpeed * Seconds(delta));
        case WalkingRight =>
          translation := translation.(x := translation.x + WalkingSpeed * Seconds(delta));
      }
    }

    /**
     * While idle, ticks the idle timer and turns the man around when it
     * fires; in any other state, restarts the idle timer.
     */
    method IdleAction(delta: nat)
      requires Valid()
      modifies this`idleTimer, this`sprite
      ensures Valid()
      ensures state == Idle ==>
        && idleTimer == Tick(old(idleTimer), delta)
        && sprite == old(sprite).(flipX := old(sprite.flipX) != idleTimer.justFinished)
      ensures state != Idle ==> idleTimer == Reset(old(idleTimer)) && sprite == old(sprite)
    {
      if state == Idle {
        idleTimer := Tick(idleTimer, delta);
        if idleTimer.justFinished {
          sprite := sprite.(flipX := !sprite.flipX);
        }
      } else {
        idleTimer := Reset(idleTimer);
      }
    }

    /**
     * One frame of the man's systems, in the order keys, triggers,
     * animation, idle action, movement.
     */
    method Update(keyboard: Keyboard, delta: nat) returns (triggers: seq<AnimationState>)
      requires Valid()
      modifies this
      ensures Valid()
      ensures triggers == KeyTriggers(keyboard)
      ensures triggers != [] ==> state == triggers[|triggers| - 1]
      ensures triggers == [] ==> state == old(state)
      ensures var p := ApplyTriggers(old(CurrentPose()), triggers);
        && state == p.state
        && (state == Idle ==>
              && config == p.config
              && idleTimer == Tick(old(idleTimer), delta)
              && sprite == p.sprite.(flipX := p.sprite.flipX != idleTimer.justFinished))
        && (state != Idle ==>
              var s := CyclicAnimate(p.config, p.sprite.atlas, delta);
              && config == s.config
              && idleTimer == Reset(old(idleTimer))
              && sprite == p.sprite.(atlas := s.atlas))
      ensures translation == Move(old(translation), state, delta)
    {
      triggers := HandleKeys(keyboard);
      TriggerAnimation(triggers);
      HandleAnimations(delta);
      IdleAction(delta);
      HandleMovement(delta);
    }
  }

  /**
   * Pressing the left arrow starts the man walking left, mirrored, at frame
   * 0; letting it go stops him, still facing left.
   */
  method WalkLeftAndStop()
  {
    var man := new Man();
    var triggers := HandleKeys(Keyboard({ArrowLeft}, {ArrowLeft}, {}));
    assert triggers == [WalkingLeft];
    man.TriggerAnimation(triggers);
    assert [WalkingLeft][..0] == [];
    assert man.state == WalkingLeft && man.sprite == Sprite(Walking, Some(0), true);
    triggers := HandleKeys(Keyboard({}, {}, {ArrowLeft}));
    assert triggers == [Idle];
    man.TriggerAnimation(triggers);
    assert [Idle][..0] == [];
    assert man.state == Idle && man.sprite == Sprite(Standing, Some(0), true);
  }
}
