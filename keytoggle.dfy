/** The keytoggle input processor (the variant with configurable delays).

    One `Controller` per configured device. Its fields are the instance state
    the handler and the release callback update in place: the pressed flag,
    the deadline of the pending release work, and the actions handed to the
    behaviour queue so far. The ghost `history` records every event and every
    run of the work queue; `Valid()` says the fields are exactly what the
    machine of `KeytoggleModel` computes from that history, so every property
    proved there holds of a controller. */
module Keytoggle {
  import opened KeytoggleModel
  import KeytoggleProperties

  class Controller {
    const config: Config
    var isPressed: bool
    var deadline: Option<nat>
    var queue: seq<Action>
    ghost var history: seq<Input>

    function Current(): State
      reads this
    {
      State(isPressed, deadline, queue)
    }

    ghost predicate Valid()
      reads this
    {
      Current() == Run(config, history)
    }

    /** The instance as the device tree defines it: unpressed, no release
        pending, nothing queued. */
    constructor (config: Config)
      ensures this.config == config
      ensures Valid() && history == []
      ensures !isPressed && deadline == None && queue == []
    {
      this.config := config;
      isPressed := false;
      deadline := None;
      queue := [];
      history := [];
    }

    /** `keytoggle_handle_event`: a relative-motion event queues a press of the
        keycode with the tap delay unless the key is already held, marks it
        held, and reschedules the release work to `now + releaseDelayMs`,
        replacing any pending deadline; any other event changes nothing. The
        event is always passed on. */
    method HandleEvent(ev: InputEvent, now: nat) returns (v: ProcessorVerdict)
      requires Valid()
      modifies this
      ensures Valid() && history == old(history) + [Event(ev, now)]
      ensures v == Continue
      ensures ev.evType == Rel ==>
        isPressed && deadline == Some(now + config.releaseDelayMs)
        && queue == (if old(isPressed) then old(queue)
                     else old(queue) + [Press(config.keycode, config.tapMs)])
      ensures ev.evType != Rel ==>
        isPressed == old(isPressed) && deadline == old(deadline) && queue == old(queue)
    {
      RunSnoc(config, history, Event(ev, now));
      if ev.evType == Rel {
        if !isPressed {
          queue := queue + [Press(config.keycode, config.tapMs)];
          isPressed := true;
        }
        deadline := Some(now + config.releaseDelayMs);
      }
      history := history + [Event(ev, now)];
      v := Continue;
    }

    /** `key_release_callback`, run by the work queue at `now`, which it does
        only once the pending deadline (if any) has passed: the work is no
        longer pending; if the key is held, one release of the keycode with
        no wait is queued and the key is marked not held, otherwise nothing
        changes. */
    method KeyReleaseCallback(now: nat)
      requires Valid()
      requires deadline.Some? ==> now >= deadline.value
      modifies this
      ensures Valid() && history == old(history) + [Tick(now)]
      ensures deadline == None && !isPressed
      ensures old(isPressed) ==> queue == old(queue) + [Release(config.keycode, 0)]
      ensures !old(isPressed) ==> queue == old(queue)
    {
      KeytoggleProperties.RunConsistent(config, history);
      RunSnoc(config, history, Tick(now));
      if isPressed {
        queue := queue + [Release(config.keycode, 0)];
        isPressed := false;
      }
      deadline := None;
      history := history + [Tick(now)];
    }
  }

  /** A device configured with only a keycode (so a 100 ms release delay):
      motion of value 5 at 0 and of value 3 at 50 queue one press; the release
      work is then due at 150, not at 100, and running it then queues one
      release, nothing else. */
  method DefaultInstanceScenario(keycode: U32) returns (due: Option<nat>, q: seq<Action>)
    ensures due == Some(150)
    ensures q == [Press(keycode, 0), Release(keycode, 0)]
  {
    var c := new Controller(InstanceConfig(keycode, None, None, None));
    var v := c.HandleEvent(InputEvent(Rel, Code(0), 5), 0);
    v := c.HandleEvent(InputEvent(Rel, Code(0), 3), 50);
    due := c.deadline;
    c.KeyReleaseCallback(150);
    q := c.queue;
  }
}
