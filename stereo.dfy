/**
 * The stereo: a furnishing that is switched between Off and Running by
 * interaction events carrying its id.  Running shows an animated sheet and
 * plays a looping sound; Off shows a still image and pauses the sound.
 * Until it has first been switched on, a highlighted stereo pulses.
 */
module Stereo {
  import opened Optional
  import opened Timing
  import opened Animation
  import opened Interaction

  datatype State = Off | Running

  /** The still image, and the animated sheet with its frame layout. */
  datatype Sheet = OffSprite | RunningSprite

  /** Neutral colour and scale, or the pulse that started at `offset`. */
  datatype Appearance = Neutral | Pulsing(offset: real)

  /** A looping audio sink; pausing keeps the playback position. */
  datatype AudioSink = AudioSink(paused: bool, position: real)

  const InteractableId: string := "stereo"
  const SpriteScale: real := 7.0
  const SpriteWidth: real := 20.0
  const SpriteHeight: real := 16.0
  const FrameFirst: nat := 0
  const FrameLast: nat := 4
  const FrameRate: U8 := 4

  function Toggle(s: State): State {
    if s == Off then Running else Off
  }

  /** What an interaction event changes: the state and the sprite. */
  datatype Look = Look(state: State, image: Sheet, atlas: Option<nat>)

  /** The sprite each state is entered with. */
  function Entered(s: State): Look {
    if s == Running then Look(Running, RunningSprite, Some(0)) else Look(Off, OffSprite, None)
  }

  /** Off shows the still image without an atlas; Running an in-range frame. */
  predicate LookValid(l: Look) {
    && (l.state == Off ==> l.image == OffSprite && l.atlas == None)
    && (l.state == Running ==> l.image == RunningSprite && l.atlas.Some? && l.atlas.value <= FrameLast)
  }

  /** An event for another id changes nothing; one for the stereo toggles it. */
  function Interact(l: Look, e: InteractionEvent): (r: Look)
    ensures e.id != InteractableId ==> r == l
    ensures e.id == InteractableId ==> r == Entered(Toggle(l.state))
  {
    if e.id == InteractableId then
      match l.state
      case Off => Look(Running, RunningSprite, Some(0))
      case Running => Look(Off, OffSprite, None)
    else l
  }

  /** The number of events addressed to the stereo. */
  function Matching(events: seq<InteractionEvent>): nat {
    if events == [] then 0
    else Matching(events[..|events| - 1]) + if events[|events| - 1].id == InteractableId then 1 else 0
  }

  /**
   * Events in order.  The state ends toggled exactly when an odd number of
   * them were for the stereo; with none the look is untouched, otherwise it
   * is the look its final state is entered with.
   */
  function InteractAll(l: Look, events: seq<InteractionEvent>): (r: Look)
    ensures r.state == if Matching(events) % 2 == 0 then l.state else Toggle(l.state)
    ensures Matching(events) == 0 ==> r == l
    ensures Matching(events) > 0 ==> r == Entered(r.state)
    ensures LookValid(l) ==> LookValid(r)
    decreases |events|
  {
    if events == [] then l
    else Interact(InteractAll(l, events[..|events| - 1]), events[|events| - 1])
  }

  /** An even number of stereo events leaves the state as it was. */
  lemma EvenEventsKeepState(l: Look, events: seq<InteractionEvent>)
    requires Matching(events) % 2 == 0
    ensures InteractAll(l, events).state == l.state
    ensures LookValid(l) && l.state == Off ==> InteractAll(l, events) == l
  {
  }

  /** The appearance the highlight system gives a highlighted stereo. */
  function HighlightLook(state: State, first: bool, offset: real): (r: Appearance)
    ensures r.Pulsing? <==> state == Off && first
    ensures r.Pulsing? ==> r.offset == offset
  {
    if state == Off && first then Pulsing(offset) else Neutral
  }

  class StereoEntity {
    var state: State
    var image: Sheet
    var atlas: Option<nat>
    var config: AnimationConfig
    var interactable: Interactable
    var sink: AudioSink
    var appearance: Appearance
    /** Whether the state has been written since the state-watching systems last ran. */
    var stateChanged: bool

    ghost predicate Valid()
      reads this
    {
      && ConfigValid(config)
      && config.firstIndex == FrameFirst && config.lastIndex == FrameLast && config.fps == FrameRate
      && LookValid(CurrentLook())
      && interactable.id == InteractableId
      && interactable.width == SpriteWidth * SpriteScale
      && interactable.height == SpriteHeight * SpriteScale
    }

    /**
     * Between frames the sound plays exactly when Running, and a stereo
     * that is Running has been used.
     */
    ghost predicate Settled()
      reads this
    {
      && sink.paused == (state == Off)
      && (state == Running ==> !interactable.first)
    }

    function CurrentLook(): Look
      reads this
    {
      Look(state, image, atlas)
    }

    /** Spawns the stereo Off, unused, with its sound paused at the start. */
    constructor ()
      ensures Valid() && Settled()
      ensures state == Off && image == OffSprite && atlas == None
      ensures config == New(FrameFirst, FrameLast, FrameRate)
      ensures interactable.first && sink == AudioSink(true, 0.0)
      ensures appearance == Neutral && stateChanged
    {
      state := Off;
      image := OffSprite;
      atlas := None;
      config := New(FrameFirst, FrameLast, FrameRate);
      interactable := Interactable(InteractableId, SpriteHeight * SpriteScale, SpriteWidth * SpriteScale, true);
      sink := AudioSink(true, 0.0);
      appearance := Neutral;
      stateChanged := true;
    }

    /** The animator: Off is skipped; Running advances cyclically. */
    method HandleAnimations(delta: nat)
      requires Valid()
      modifies this`config, this`atlas
      ensures Valid()
      ensures state == Off ==> config == old(config) && atlas == old(atlas)
      ensures state == Running ==>
        var s := CyclicAnimate(old(config), old(atlas), delta);
        config == s.config && atlas == s.atlas
    {
      if state == Off {
        return;
      }
      config := config.(frameTimer := Tick(config.frameTimer, delta));
      if config.frameTimer.justFinished && atlas.Some? {
        var index := atlas.value;
        if index == config.lastIndex {
          index := config.firstIndex;
        } else {
          index := index + 1;
        }
        atlas := Some(index);
        config := config.(frameTimer := TimerFromFps(config.fps));
      }
    }

    /**
     * While the stereo carries a highlight (begun at the given offset), it
     * pulses if Off and unused, and is neutral otherwise.
     */
    method HandleHighlight(highlight: Option<real>)
      modifies this`appearance
      ensures highlight.None? ==> appearance == old(appearance)
      ensures highlight.Some? ==> appearance == HighlightLook(state, interactable.first, highlight.value)
    {
      if highlight.Some? {
        if state == Off && interactable.first {
          appearance := Pulsing(highlight.value);
        } else {
          appearance := Neutral;
        }
      }
    }

    /** Losing the highlight restores the neutral colour and scale. */
    method HandleHighlightReset(removed: bool)
      modifies this`appearance
      ensures appearance == if removed then Neutral else old(appearance)
    {
      if removed {
        appearance := Neutral;
      }
    }

    /** Reads this frame's interaction events in order. */
    method HandleInteraction(events: seq<InteractionEvent>)
      requires Valid()
      modifies this`state, this`image, this`atlas, this`stateChanged
      ensures Valid()
      ensures CurrentLook() == InteractAll(old(CurrentLook()), events)
      ensures stateChanged == (old(stateChanged) || Matching(events) > 0)
    {
      var i := 0;
      while i < |events|
        invariant 0 <= i <= |events|
        invariant Valid()
        invariant CurrentLook() == InteractAll(old(CurrentLook()), events[..i])
        invariant stateChanged == (old(stateChanged) || Matching(events[..i]) > 0)
      {
        if events[i].id == InteractableId {
          match state {
            case Off =>
              state := Running;
              image := RunningSprite;
              atlas := Some(0);
            case Running =>
              state := Off;
              image := OffSprite;
              atlas := None;
          }
          stateChanged := true;
        }
        assert events[..i + 1][..i] == events[..i];
        i := i + 1;
      }
      assert events[..i] == events;
    }

    /** A state change into Running marks the stereo as used. */
    method HandleInteractionDisableHighlight()
      modifies this`interactable
      ensures interactable.first == (old(interactable.first) && !(stateChanged && state == Running))
      ensures interactable.(first := old(interactable.first)) == old(interactable)
    {
      if stateChanged && state == Running {
        interactable := interactable.(first := false);
      }
    }

    /** A state change plays the sound when Running and pauses it when Off. */
    method HandleSound()
      modifies this`sink
      ensures stateChanged ==> sink == old(sink).(paused := state == Off)
      ensures !stateChanged ==> sink == old(sink)
    {
      if stateChanged {
        match state {
          case Running => sink := sink.(paused := false);
          case Off => sink := sink.(paused := true);
        }
      }
    }

    /**
     * One frame of the stereo's systems: animation, highlight, highlight
     * reset, interaction, marking as used, sound.  The highlight and its
     * removal are those the proximity pass left on the stereo.
     */
    method Update(delta: nat, events: seq<InteractionEvent>, highlight: Option<real>, removed: bool)
      requires Valid() && Settled()
      modifies this
      ensures Valid() && Settled() && !stateChanged
      ensures state == if Matching(events) % 2 == 0 then old(state) else Toggle(old(state))
      ensures old(!interactable.first) ==> !interactable.first
      ensures Matching(events) == 0 ==> interactable == old(interactable) && sink == old(sink)
      ensures sink.position == old(sink.position)
      ensures sink == old(sink).(paused := state == Off)
      ensures interactable.first == (old(interactable.first) && state == Off)
      ensures interactable.(first := old(interactable.first)) == old(interactable)
      ensures appearance ==
        if removed then Neutral
        else if highlight.Some? then HighlightLook(old(state), old(interactable.first), highlight.value)
        else old(appearance)
      ensures old(state) == Off ==>
        config == old(config) && CurrentLook() == InteractAll(old(CurrentLook()), events)
      ensures old(state) == Running ==>
        var s := CyclicAnimate(old(config), old(atlas), delta);
        config == s.config && CurrentLook() == InteractAll(Look(Running, old(image), s.atlas), events)
    {
      HandleAnimations(delta);
      HandleHighlight(highlight);
      HandleHighlightReset(removed);
      HandleInteraction(events);
      HandleInteractionDisableHighlight();
      HandleSound();
      stateChanged := false;
    }
  }

  /**
   * An unused stereo that is Off, given one event for it, ends Running,
   * used, and playing; a second event turns it Off again with the sound
   * paused where playback had got to; an event for another id changes
   * nothing.
   */
  method SwitchOnAndOff(position: real)
  {
    var stereo := new StereoEntity();
    stereo.Update(0, [], None, false);
    var on := [InteractionEvent(InteractableId)];
    assert Matching(on) == 1;
    stereo.Update(0, on, None, false);
    assert stereo.state == Running && !stereo.interactable.first && !stereo.sink.paused;
    stereo.sink := stereo.sink.(position := position);
    stereo.Update(0, on, None, false);
    assert stereo.state == Off && stereo.sink == AudioSink(true, position);
    assert !stereo.interactable.first;
    var other := [InteractionEvent("fireplace")];
    assert Matching(other) == 0;
    stereo.Update(0, other, None, false);
    assert stereo.state == Off && stereo.sink == AudioSink(true, position);
  }
}
