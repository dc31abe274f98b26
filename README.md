# Scene entities: animation, behaviour and proximity

This project models the core of a small interactive scene built on an ECS
game engine. The scene holds a walking man, a stereo and a fireplace. Each
engine system is written here as an explicit step over plain state:

- `Timing`: the engine's `Timer`, as a countdown in whole nanoseconds. It has
  a period, the time left, a one-shot or repeating mode, and `justFinished`,
  which means "reached zero during this tick".
- `Animation`: `AnimationConfig`, its constructor `New`, and
  `timer_from_fps`. It also defines the cyclic frame policy shared by the man
  and the stereo: wrap from the last frame to the first, otherwise move one
  frame on, and replace the timer after every advance.
- `TheMan`: `handle_keys`, which turns key edges into `AnimationTrigger`
  messages; `trigger_animation`, which moves between Idle, WalkingLeft and
  WalkingRight; the walking animator; movement; and the idle turn-around
  timer. The man is a class whose fields are his components.
- `Stereo`: the Off/Running furnishing. It covers interaction events, the
  `first` (never-used) flag, the audio sink, the animator, and the discrete
  part of the highlight systems.
- `Interaction`: `aabb_overlap` and `detect_overlaps`. The world's `InRange`
  and `Highlight` components are two maps in a `World` class. Component
  inserts and removals take effect in the order they are issued.
- `Fireplace`: the random non-repeating animator. The random generator is
  given as the sequence of values it draws.

Sprite images and their frame layouts are tags (`Sheet`). A texture atlas is
`Option<nat>`, holding the frame index. Positions are `real`. Time deltas are
natural numbers of nanoseconds; movement converts them to seconds.

Each tick's systems run in one fixed order. For the man: keys, triggers,
animation, idle action, movement (`Man.Update`). For the stereo: animation,
highlight, highlight reset, interaction, marking as used, sound
(`StereoEntity.Update`, the order in which the systems are registered). The
engine's `Changed<State>` filter is the `stateChanged` field. It is true
when the stereo is spawned (a newly added component counts as changed), set
by every event for the stereo, and cleared at the end of the frame.

### Behaviour that is easy to misread

The model follows the code as written in each of these cases, including
where a comment or the surrounding structure suggests otherwise.

- `handle_keys` can write two triggers in one frame. This happens when an
  arrow is pressed and released within that frame: `[WalkingLeft, Idle]`.
  At most one trigger is written whenever every key that went down this
  frame is still held (`HandleKeys`).  The converse does not hold: tapping
  left while right stays held writes the single trigger `[WalkingLeft]`.
- Stopping turns the man to face left only if he was walking left. Stopping
  after walking right sets `flip_x` to false.
- A trigger sets the atlas index to 0 rather than to `first_index`. Both
  are 0 for the man.
- The cyclic animators replace the frame timer on every advance, including
  the wrap from the last frame to the first.
- Switching the in-range target from A to B does not remove A's highlight
  while A still overlaps (`StaleHighlightOnSwitch`). So two interactables can
  be highlighted at once.
- Two events for the stereo in one frame bring it back to its state, and
  the change filter still fires. The stereo never rests in Running, so
  `first` stays set. A Running stereo that is toggled twice restarts at
  frame 0.
- The fireplace's resampling loop has no special case for a single frame.
  With `first == last` equal to the current frame it would never end, so a
  differing draw is required (`SingleFrameNeverDiffers`).

## Model

| member | source | states |
|---|---|---|
| Timing.NewTimer | src/theman.rs:153 | a new timer has the given period and mode, nothing elapsed, not finished |
| Timing.Tick | src/theman.rs:51-53 | the timer has just finished exactly when it had time left and the tick used it up; a one-shot timer's elapsed time saturates at the period, a repeating one wraps modulo the period |
| Timing.Reset | src/theman.rs:111 | resetting keeps period and mode and restarts the period, not finished |
| Timing.OnceFiresAtMostOnce | src/animation.rs:25 | a one-shot timer finishes in at most one tick of any sequence of ticks, and never again once finished |
| Timing.RepeatingFiresOncePerPeriod | src/theman.rs:153 | a repeating timer ticked by at most one period at a time finishes once per whole period of accumulated time |
| Animation.TimerFromFps | src/animation.rs:24-26 | for nonzero fps, a fresh one-shot timer whose period is 1/fps seconds truncated to nanoseconds |
| Animation.New | src/animation.rs:15-22 | first, last and fps are stored as given, with a fresh frame timer; the range is not checked, and the config is well formed exactly when first <= last |
| Animation.FrameTimerFinishesOnce | src/animation.rs:20-25 | a freshly built frame timer finishes at most once until it is replaced |
| Animation.CyclicNext | src/theman.rs:56-61 | the next frame is the first or one more; it stays in [first,last] when the index starts there |
| Animation.CyclicCounts | src/theman.rs:56-61 | k advances from the first frame reach first + k while k <= last - first |
| Animation.CyclicPeriod | src/theman.rs:56-61 | from the first frame, last-first+1 advances return to it and no fewer do |
| Animation.CyclicAnimate | src/theman.rs:50-63 | one tick advances at most once, exactly when the timer just finished and there is an atlas; an advance uses the cyclic policy and replaces the timer with a fresh one; the frame stays in range; only the timer changes in the config |
| Animation.CyclicRun | src/stereo.rs:54-67 | over n ticks there are at most n advances, and the frame is the cyclic successor that many times over |
| TheMan.HandleKeys | src/theman.rs:68-89 | WalkingLeft iff left went down; WalkingRight iff right went down and left did not; Idle iff an arrow went up and neither is held, and Idle comes last; two triggers only when an arrow was tapped within the frame, at most one whenever every key that went down is held; the triggers are the frame's `KeyTriggers` |
| TheMan.ApplyTrigger | src/theman.rs:165-205 | a trigger for the current state changes nothing; otherwise the state becomes the trigger's and the frame is 0; walking left mirrors and walking right unmirrors, both with a fresh frame timer; Idle faces left iff he was walking left and keeps the timer |
| TheMan.ApplyTriggers | src/theman.rs:164-206 | with no triggers nothing changes; otherwise the final state is the last trigger's; the pose invariant holds |
| TheMan.ApplyTriggersAppend | src/theman.rs:164 | triggers are applied in message order: two batches in turn equal their concatenation |
| TheMan.Move | src/theman.rs:92-99 | one tick moves x by the state's signed speed times the elapsed seconds; y and z never change |
| TheMan.Displacement | src/theman.rs:94-98 | staying in one state moves x by speed times total time (zero when idle), never y or z |
| TheMan.IdleFlipParity | src/theman.rs:105-109 | while idle the man turns around once per tick in which the idle timer fires |
| TheMan.IdleTurnsEveryFiveSeconds | src/theman.rs:103-113 | with ticks of at most five seconds, the facing after idling is flipped once per five seconds of idle time |
| TheMan.Man.constructor | src/theman.rs:140-154 | the man spawns idle on the standing sheet at frame 0, unmirrored, config (0, 8, 10), a repeating five-second idle timer, at (-200, -50, 0) |
| TheMan.Man.HandleAnimations | src/theman.rs:43-65 | an idle man is skipped; a walking man takes one cyclic animation step; the invariant (frame in [0,8], standing sheet iff idle) is kept |
| TheMan.Man.TriggerAnimation | src/theman.rs:158-207 | the new pose is the frame's triggers applied in order |
| TheMan.Man.HandleMovement | src/theman.rs:92-100 | the position becomes the state's one-tick move |
| TheMan.Man.IdleAction | src/theman.rs:103-114 | while idle the idle timer ticks and the sprite flips iff it just finished; otherwise the timer is reset and the sprite untouched |
| TheMan.Man.Update | src/theman.rs:34-40 | one frame keeps the invariant; the triggers are those of the keyboard; the pose is the triggers applied in order, then, when walking, one cyclic animation step with the idle timer reset, or, when idle, the idle timer ticked and the facing flipped iff it just finished; the state is the last trigger's, or unchanged with none; the move uses the new state |
| Stereo.Interact | src/stereo.rs:107-127 | an event for another id changes nothing; one for the stereo toggles it, entering Running on the animated sheet at frame 0 and Off on the still image with no atlas |
| Stereo.InteractAll | src/stereo.rs:107-128 | the state ends toggled iff an odd number of events were for the stereo; with none the sprite is untouched; otherwise it is the final state's entry sprite |
| Stereo.EvenEventsKeepState | src/stereo.rs:107-128 | an even number of matching events leaves the state as it was, and an Off stereo wholly unchanged |
| Stereo.HighlightLook | src/stereo.rs:77-84 | a highlighted stereo pulses iff it is Off and unused, from the highlight's offset; otherwise neutral |
| Stereo.StereoEntity.constructor | src/stereo.rs:173-194 | the stereo spawns Off with no atlas, unused, sound paused, config (0, 4, 4), box 140 by 112 |
| Stereo.StereoEntity.HandleAnimations | src/stereo.rs:47-69 | Off is skipped; Running takes one cyclic animation step within [0,4] |
| Stereo.StereoEntity.HandleHighlight | src/stereo.rs:72-86 | only a highlighted stereo is touched, and it gets the highlight appearance |
| Stereo.StereoEntity.HandleHighlightReset | src/stereo.rs:89-99 | losing the highlight restores the neutral appearance |
| Stereo.StereoEntity.HandleInteraction | src/stereo.rs:102-129 | the new look is the events applied in order; the change flag is raised iff some event was for the stereo |
| Stereo.StereoEntity.HandleInteractionDisableHighlight | src/stereo.rs:131-139 | `first` is cleared iff the state changed and is Running; nothing sets it back |
| Stereo.StereoEntity.HandleSound | src/stereo.rs:142-156 | on a change the sink is playing iff Running and paused iff Off, keeping its position; without a change it is untouched |
| Stereo.StereoEntity.Update | src/stereo.rs:32-44 | between frames the sound plays iff Running and a Running stereo is used; a Running stereo takes one cyclic animation step, then the events are applied in order; the state toggles iff an odd number of events matched; `first` stays set exactly while it was set and the stereo ends Off; the appearance is neutral if the highlight was removed, else the highlight look of the state before the events; the sink keeps its position and is paused iff Off |
| Interaction.AabbOverlap | src/interaction.rs:44-61 | two centred boxes overlap iff their centres are within half the summed widths and half the summed heights; touching edges overlap |
| Interaction.AabbOverlapSymmetric | src/interaction.rs:44-61 | the overlap test does not depend on the order of the boxes |
| Interaction.LastOverlap | src/interaction.rs:76-86 | the target found is the last overlapping interactable in iteration order; none when nothing overlaps |
| Interaction.DetectOne | src/interaction.rs:71-129 | one interactor's pass: its in-range id is present iff something overlaps and then is the last overlapping one's id; other interactors' ids are untouched; every non-overlapping interactable loses its highlight; a new or different target is highlighted at the current time; an unchanged target changes nothing but the removals; the highlight map is exactly the old one minus the non-overlapping interactables, plus the new target at the current time |
| Interaction.DetectAllInRange | src/interaction.rs:71-130 | after the whole pass every interactor is in range iff it overlaps something, holding the last overlapping id |
| Interaction.World.ScanInteractables | src/interaction.rs:72-90 | the inner loop removes the highlight of every interactable the interactor does not overlap and reports the last one it overlaps, by id and entity |
| Interaction.World.DetectOverlaps | src/interaction.rs:64-131 | the components after the nested loops are the interactors' passes applied in order |
| Interaction.StaleHighlightOnSwitch | src/interaction.rs:111-121 | switching the target from A to B while A still overlaps leaves both highlighted |
| Interaction.EnterRangeScenario | src/interaction.rs:100-109 | an interactor 10 by 10 at the origin and a "fireplace" 10 by 10 at (5,0) overlap; the fireplace becomes in range and is highlighted at the current time |
| Fireplace.FirstDifferentUnique | src/fireplace.rs:44-47 | the draws determine one new frame: the first draw that differs from the current frame |
| Fireplace.SingleFrameNeverDiffers | src/fireplace.rs:44-47 | with one frame equal to the current one no draw differs, so the loop could never end |
| Fireplace.Resample | src/fireplace.rs:44-47 | the new frame is in [first,last], differs from the current one, and is the first differing draw |
| Fireplace.FireplaceEntity.constructor | src/fireplace.rs:71-84 | the fireplace spawns Running at frame 0 with config (0, 4, 4) |
| Fireplace.FireplaceEntity.ExecuteAnimations | src/fireplace.rs:28-52 | Off is skipped and Starting and Running animate; at most one advance per tick, exactly when the timer just finished; the new frame is in range, differs from the old one, and is the first differing draw; the timer is then fresh |

## Left out

- src/snow.rs: falling snow made of floating-point particles driven by a
  random generator, with no stated behaviour.
- src/house.rs, src/app.rs, src/main.rs, and the registration and UI setup
  in src/animation.rs: camera, background, text and plugin registration.
- Asset loading, image handles and grid layouts. A sheet is a tag and an
  atlas is an optional frame index.
- The pulse arithmetic of the stereo highlight (sine, colour and scale).
  Only "pulsing from offset t" versus "neutral" is kept.
- Audio playback itself. The sink is a paused flag and a playback position.
  Play and pause never change the position. The sink exists from spawn on;
  in the engine it appears once the sound has loaded.
- Engine scheduling: parallel systems, message-queue lifetimes, change
  detection, the removed-components reader and deferred commands. Each is
  replaced by a fixed sequential order, input and output sequences, a
  change flag, a `removed` input and in-order map updates.
- 32-bit floating point: rounding, NaN and infinities. Positions, sizes and
  times are reals. A frame period is 1/fps seconds truncated to whole
  nanoseconds.
- Timer: pausing, and the number of times a repeating timer finished within
  one tick, are not modelled. Only `justFinished` is used, as the code does.
- Animation.TimerFromFps: the period is a truncated integer, not the
  rounded conversion of the f32 reciprocal.
- Fireplace.FireplaceEntity.ExecuteAnimations: the random generator is the
  sequence of values it draws. The model requires one of them to differ
  from the current frame, because otherwise the loop does not end.
  Distributions are not modelled.
- Stereo.StereoEntity.Update: the stereo's highlight and its removal are
  inputs. No component here connects the proximity pass's highlight map to
  the stereo, because the man has no `Interactor`.
- Interaction.World.DetectOverlaps: each query yields each entity once, so
  interactable entities are required to be distinct.
- Player actions that no system here implements: an Acting state, the
  up-arrow, footsteps, emission of interaction events by the player, an
  `Interactor` on the man, an interactable fireplace, and any way into the
  fireplace's Starting state. Interaction events reach the stereo as an
  input sequence.
