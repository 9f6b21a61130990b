/** What the keytoggle machine promises over whole input traces. */
module KeytoggleProperties {
  import opened KeytoggleModel

  /** One step keeps the invariant, with the last-motion time updated. */
  lemma StepKeepsConsistent(cfg: Config, s: State, lastMotion: Option<nat>, x: Input)
    requires Consistent(cfg, s, lastMotion)
    ensures Consistent(cfg, Step(cfg, s, x), if IsMotion(x) then Some(x.at) else lastMotion)
  {
  }

  /** Every state reachable from the initial one is consistent: the queued
      actions alternate press, release, press, ... starting with a press of
      the configured keycode (with the tap delay) and releases without wait;
      the key is held exactly when the last queued action is a press; and a
      release is pending exactly when the key is held, due `releaseDelayMs`
      after the most recent motion. */
  lemma {:induction false} RunConsistent(cfg: Config, inputs: seq<Input>)
    ensures Consistent(cfg, Run(cfg, inputs), LastMotion(inputs))
    ensures var q := Run(cfg, inputs).queue;
      Run(cfg, inputs).isPressed <==> |q| > 0 && q[|q| - 1].Press?
    decreases |inputs|
  {
    if |inputs| > 0 {
      var pre := inputs[..|inputs| - 1];
      assert inputs == pre + [inputs[|inputs| - 1]];
      RunConsistent(cfg, pre);
      RunSnoc(cfg, pre, inputs[|inputs| - 1]);
      StepKeepsConsistent(cfg, Run(cfg, pre), LastMotion(pre), inputs[|inputs| - 1]);
    }
  }

  /** Timing of the release: the work queue running at `t` releases the key if
      and only if the key is held and at least `releaseDelayMs` have passed
      since the most recent motion; a release therefore never comes earlier,
      and what it queues is exactly one release of the keycode. */
  lemma {:induction false} ReleaseTiming(cfg: Config, inputs: seq<Input>, t: nat)
    ensures Run(cfg, inputs).isPressed ==> LastMotion(inputs).Some?
    ensures var s, s' := Run(cfg, inputs), Run(cfg, inputs + [Tick(t)]);
      s'.queue != s.queue <==>
        s.isPressed && LastMotion(inputs).Some? && t >= LastMotion(inputs).value + cfg.releaseDelayMs
    ensures var s, s' := Run(cfg, inputs), Run(cfg, inputs + [Tick(t)]);
      s'.queue != s.queue ==> s'.queue == s.queue + [Release(cfg.keycode, 0)] && !s'.isPressed
  {
    RunConsistent(cfg, inputs);
    RunSnoc(cfg, inputs, Tick(t));
  }

  /** A stale expiry is harmless: while the key is not held nothing is
      pending, so the work queue running at any time changes nothing. */
  lemma {:induction false} UnpressedTickIsNoOp(cfg: Config, inputs: seq<Input>, t: nat)
    requires !Run(cfg, inputs).isPressed
    ensures Run(cfg, inputs + [Tick(t)]) == Run(cfg, inputs)
    ensures Run(cfg, inputs).deadline == None
  {
    RunConsistent(cfg, inputs);
    RunSnoc(cfg, inputs, Tick(t));
  }

  /** Relative motion never presses twice: a motion event queues a press
      (one, of the keycode, with the tap delay) exactly when the key is not
      held, and leaves the key held with the release due `releaseDelayMs`
      after it, whatever was pending before. */
  lemma {:induction false} MotionPressesOnce(cfg: Config, inputs: seq<Input>, ev: InputEvent, now: nat)
    requires ev.evType == Rel
    ensures var s, s' := Run(cfg, inputs), Run(cfg, inputs + [Event(ev, now)]);
      s'.isPressed && s'.deadline == Some(now + cfg.releaseDelayMs)
      && s'.queue == (if s.isPressed then s.queue else s.queue + [Press(cfg.keycode, cfg.tapMs)])
  {
    RunSnoc(cfg, inputs, Event(ev, now));
  }

  /** Without relative motion nothing ever happens: a trace with no motion
      event leaves the instance in its initial state, so no action is queued
      and no release is ever scheduled. */
  lemma {:induction false} NoMotionNoAction(cfg: Config, inputs: seq<Input>)
    requires forall i :: 0 <= i < |inputs| ==> !IsMotion(inputs[i])
    ensures Run(cfg, inputs) == Initial
    decreases |inputs|
  {
    if |inputs| > 0 {
      NoMotionNoAction(cfg, inputs[..|inputs| - 1]);
    }
  }

  /** The value of an event plays no part: a relative-motion event of value
      zero presses and reschedules exactly like any other. */
  lemma ValueIsIgnored(cfg: Config, s: State, ev: InputEvent, v: int, now: nat)
    ensures EventStep(cfg, s, ev.(value := v), now) == EventStep(cfg, s, ev, now)
  {
  }

  /** With a 100 ms release delay, motion at 0 and at 50 gives one press at
      once, no release when the work queue runs at 100, and one release when
      it runs at 150. */
  lemma DebounceScenario(keycode: U32, tapMs: U32, waitMs: U32)
    ensures var cfg := Config(keycode, 100, tapMs, waitMs);
      var motion := [Event(InputEvent(Rel, Code(0), 5), 0), Event(InputEvent(Rel, Code(0), 3), 50)];
      Run(cfg, motion).queue == [Press(keycode, tapMs)]
      && Run(cfg, motion).deadline == Some(150)
      && Run(cfg, motion + [Tick(100)]) == Run(cfg, motion)
      && Run(cfg, motion + [Tick(100), Tick(150)]).queue == [Press(keycode, tapMs), Release(keycode, 0)]
      && !Run(cfg, motion + [Tick(100), Tick(150)]).isPressed
  {
    var cfg := Config(keycode, 100, tapMs, waitMs);
    var m0 := Event(InputEvent(Rel, Code(0), 5), 0);
    var m1 := Event(InputEvent(Rel, Code(0), 3), 50);
    RunSnoc(cfg, [], m0);
    RunSnoc(cfg, [m0], m1);
    assert [m0, m1] == [m0] + [m1];
    RunSnoc(cfg, [m0, m1], Tick(100));
    RunSnoc(cfg, [m0, m1] + [Tick(100)], Tick(150));
    assert [m0, m1] + [Tick(100), Tick(150)] == ([m0, m1] + [Tick(100)]) + [Tick(150)];
  }
}
