/** The older keytoggle input processor.

    Its configuration holds only the keycode: the release is always
    rescheduled 100 ms after the latest motion, and a synchronisation report
    is singled out only to do nothing. The `LegacyController` is proved to be
    the machine of `KeytoggleModel` run with `LegacyConfig(keycode)`, so it is
    the same machine in another configuration. */
module KeytoggleLegacy {
  import opened KeytoggleModel
  import KeytoggleProperties

  /** The release delay the older variant hardcodes. */
  const LEGACY_RELEASE_DELAY_MS: U32 := 100

  /** The wait queued with the older variant's press and release. The
      definitions of `ZMK_BEHAVIOR_QUEUE_PRESS` and `ZMK_BEHAVIOR_QUEUE_RELEASE`
      are not part of this model, so the wait is a choice, not a reading of
      their arguments. */
  const LEGACY_WAIT_MS: U32 := 0

  /** The configuration the older variant behaves as: its keycode, the fixed
      release delay, and the chosen wait for the press. */
  function LegacyConfig(keycode: U32): (c: Config)
    ensures c == InstanceConfig(keycode, None, None, None)
  {
    Config(keycode, LEGACY_RELEASE_DELAY_MS, LEGACY_WAIT_MS, 0)
  }

  class LegacyController {
    const keycode: U32
    var isPressed: bool
    var deadline: Option<nat>
    var queue: seq<Action>
    ghost var history: seq<Input>

    function Current(): State
      reads this
    {
      State(isPressed, deadline, queue)
    }

    ghost predicate Valid()
      reads this
    {
      Current() == Run(LegacyConfig(keycode), history)
    }

    constructor (keycode: U32)
      ensures this.keycode == keycode
      ensures Valid() && history == []
      ensures !isPressed && deadline == None && queue == []
    {
      this.keycode := keycode;
      isPressed := false;
      deadline := None;
      queue := [];
      history := [];
    }

    /** `keytoggle_handle_event` of the older variant: a relative-motion event
        presses the key unless it is held and reschedules the release to
        exactly `now + LEGACY_RELEASE_DELAY_MS`; a synchronisation report, like
        every other event, changes nothing. The event is always passed on. */
    method HandleEvent(ev: InputEvent, now: nat) returns (v: ProcessorVerdict)
      requires Valid()
      modifies this
      ensures Valid() && history == old(history) + [Event(ev, now)]
      ensures v == Continue
      ensures ev.evType == Rel ==>
        isPressed && deadline == Some(now + LEGACY_RELEASE_DELAY_MS)
        && queue == (if old(isPressed) then old(queue) else old(queue) + [Press(keycode, LEGACY_WAIT_MS)])
      ensures ev.evType != Rel ==>
        isPressed == old(isPressed) && deadline == old(deadline) && queue == old(queue)
    {
      RunSnoc(LegacyConfig(keycode), history, Event(ev, now));
      if ev.evType == Rel {
        if !isPressed {
          queue := queue + [Press(keycode, LEGACY_WAIT_MS)];
          isPressed := true;
        }
        deadline := Some(now + LEGACY_RELEASE_DELAY_MS);
      } else if ev.evType == Syn && ev.code == SynReport {
        // The release is left to the delayed work.
      }
      history := history + [Event(ev, now)];
      v := Continue;
    }

    /** `key_release_callback` of the older variant: releases the key if it
        is held, otherwise does nothing; the work is no longer pending. */
    method KeyReleaseCallback(now: nat)
      requires Valid()
      requires deadline.Some? ==> now >= deadline.value
      modifies this
      ensures Valid() && history == old(history) + [Tick(now)]
      ensures deadline == None && !isPressed
      ensures old(isPressed) ==> queue == old(queue) + [Release(keycode, LEGACY_WAIT_MS)]
      ensures !old(isPressed) ==> queue == old(queue)
    {
      KeytoggleProperties.RunConsistent(LegacyConfig(keycode), history);
      RunSnoc(LegacyConfig(keycode), history, Tick(now));
      if isPressed {
        queue := queue + [Release(keycode, LEGACY_WAIT_MS)];
        isPressed := false;
      }
      deadline := None;
      history := history + [Tick(now)];
    }
  }
}
