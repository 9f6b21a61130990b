/** The keytoggle machine as values.

    A keytoggle input processor holds one key down while relative motion keeps
    arriving and lets it go once motion has been quiet for a configured delay.
    Its state is a pressed flag and the single pending deadline of its release
    work item; what it does to the outside world is the sequence of actions it
    hands to the behaviour queue. This module gives that machine as functions
    on a `State` value, driven by a trace of `Input`s, and states the
    invariant every reachable state satisfies. The classes in the modules
    `Keytoggle` and `KeytoggleLegacy` are proved to follow it step by step. */
module KeytoggleModel {

  datatype Option<T> = None | Some(value: T)

  /** The width of the configuration properties (`uint32_t`). */
  type U32 = x: nat | x < 0x1_0000_0000

  /** The type of an input event. Only relative motion and synchronisation are
      told apart by the processor; every other type is `OtherType`. */
  datatype EventType = Rel | Syn | OtherType(raw: nat)

  /** The code of an input event; only the "synchronisation report" code is
      singled out (by the older variant). */
  datatype EventCode = SynReport | Code(raw: nat)

  /** An input event as the host pipeline delivers it: type, code and value.
      The value is carried but no step reads it. */
  datatype InputEvent = InputEvent(evType: EventType, code: EventCode, value: int)

  /** An action handed to the behaviour queue: press or release of a keycode,
      with the wait argument passed along with it. */
  datatype Action = Press(keycode: U32, waitMs: U32) | Release(keycode: U32, waitMs: U32)

  /** What the handler tells the input pipeline: pass the event on to the
      next processor (`ZMK_INPUT_PROC_CONTINUE`) or consume it
      (`ZMK_INPUT_PROC_STOP`). */
  datatype ProcessorVerdict = Continue | Stop

  /** The immutable per-instance configuration. */
  datatype Config = Config(keycode: U32, releaseDelayMs: U32, tapMs: U32, waitMs: U32)

  const DEFAULT_RELEASE_DELAY_MS: U32 := 100
  const DEFAULT_TAP_MS: U32 := 0
  const DEFAULT_WAIT_MS: U32 := 0

  /** The value of an optional device-tree property, or its default. */
  function PropOr(p: Option<U32>, default: U32): U32 {
    match p
    case Some(x) => x
    case None => default
  }

  /** The configuration of one instance built from its device-tree node: the
      keycode is mandatory, the three delays fall back to their defaults
      (release after 100 ms, no tap delay, no wait) when absent. */
  function InstanceConfig(keycode: U32, releaseDelayMs: Option<U32>, tapMs: Option<U32>,
                          waitMs: Option<U32>): (c: Config)
    ensures c.keycode == keycode
    ensures releaseDelayMs.None? ==> c.releaseDelayMs == 100
    ensures tapMs.None? ==> c.tapMs == 0
    ensures waitMs.None? ==> c.waitMs == 0
    ensures releaseDelayMs.Some? ==> c.releaseDelayMs == releaseDelayMs.value
    ensures tapMs.Some? ==> c.tapMs == tapMs.value
    ensures waitMs.Some? ==> c.waitMs == waitMs.value
  {
    Config(keycode, PropOr(releaseDelayMs, DEFAULT_RELEASE_DELAY_MS),
           PropOr(tapMs, DEFAULT_TAP_MS), PropOr(waitMs, DEFAULT_WAIT_MS))
  }

  /** The state of one instance: whether the key is held, the deadline of the
      pending release work (if any), and every action queued so far. */
  datatype State = State(isPressed: bool, deadline: Option<nat>, queue: seq<Action>)

  /** Every instance starts unpressed, with no release pending and nothing queued. */
  const Initial: State := State(false, None, [])

  /** One thing that can happen to an instance: an input event delivered at a
      time, or the system work queue getting to run at a time (the release
      work executes then if it is pending and due). */
  datatype Input = Event(ev: InputEvent, at: nat) | Tick(at: nat)

  predicate IsMotion(x: Input) {
    x.Event? && x.ev.evType == Rel
  }

  /** The event handler: a relative-motion event presses the key unless it is
      already held, and always (re)schedules the release for `releaseDelayMs`
      after `now`, replacing any pending deadline. Every other event is ignored. */
  function EventStep(cfg: Config, s: State, ev: InputEvent, now: nat): (r: State)
    ensures s.queue <= r.queue && |r.queue| <= |s.queue| + 1
    ensures r.queue != s.queue ==> !s.isPressed
    ensures ev.evType == Rel ==> r.isPressed && r.deadline == Some(now + cfg.releaseDelayMs)
    ensures ev.evType != Rel ==> r == s
  {
    if ev.evType == Rel then
      var pressed :=
        if !s.isPressed then s.(isPressed := true, queue := s.queue + [Press(cfg.keycode, cfg.tapMs)])
        else s;
      pressed.(deadline := Some(now + cfg.releaseDelayMs))
    else
      s
  }

  /** The release work running: it is no longer pending, and if the key is
      held it is released (with no wait) and marked as not held. */
  function ExpiryStep(cfg: Config, s: State): (r: State)
    ensures s.queue <= r.queue && |r.queue| <= |s.queue| + 1
    ensures r.queue != s.queue <==> s.isPressed
    ensures !r.isPressed && r.deadline == None
  {
    var ran := s.(deadline := None);
    if s.isPressed then ran.(isPressed := false, queue := s.queue + [Release(cfg.keycode, 0)])
    else ran
  }

  /** The release work is due at `now`. */
  predicate Due(s: State, now: nat) {
    s.deadline.Some? && now >= s.deadline.value
  }

  /** One input: an event goes to the handler; a run of the work queue runs
      the release work only if it is pending and due, and otherwise changes
      nothing. */
  function Step(cfg: Config, s: State, x: Input): (r: State)
    ensures s.queue <= r.queue && |r.queue| <= |s.queue| + 1
    ensures x.Tick? && !Due(s, x.at) ==> r == s
  {
    match x
    case Event(ev, at) => EventStep(cfg, s, ev, at)
    case Tick(at) => if Due(s, at) then ExpiryStep(cfg, s) else s
  }

  /** The state after a whole trace, starting from `Initial`. */
  function Run(cfg: Config, inputs: seq<Input>): (r: State)
    ensures |r.queue| <= |inputs|
    decreases |inputs|
  {
    if |inputs| == 0 then Initial
    else Step(cfg, Run(cfg, inputs[..|inputs| - 1]), inputs[|inputs| - 1])
  }

  /** The time of the most recent relative-motion event of a trace. */
  function LastMotion(inputs: seq<Input>): Option<nat>
    decreases |inputs|
  {
    if |inputs| == 0 then None
    else if IsMotion(inputs[|inputs| - 1]) then Some(inputs[|inputs| - 1].at)
    else LastMotion(inputs[..|inputs| - 1])
  }

  /** The `i`-th action an instance ever queues: presses at even positions,
      releases at odd ones, always of the configured keycode. */
  function ExpectedAction(cfg: Config, i: nat): Action {
    if i % 2 == 0 then Press(cfg.keycode, cfg.tapMs) else Release(cfg.keycode, 0)
  }

  /** The invariant of a reachable state, given the time of the last motion:
      the queue alternates press, release, press, ... from a press; the key is
      held exactly when an odd number of actions was queued; a release is
      pending exactly when the key is held, and then it is due `releaseDelayMs`
      after the last motion. */
  predicate Consistent(cfg: Config, s: State, lastMotion: Option<nat>) {
    (forall i :: 0 <= i < |s.queue| ==> s.queue[i] == ExpectedAction(cfg, i))
    && (s.isPressed <==> |s.queue| % 2 == 1)
    && (s.deadline.Some? <==> s.isPressed)
    && (s.deadline.Some? ==>
          lastMotion.Some? && s.deadline.value == lastMotion.value + cfg.releaseDelayMs)
  }

  lemma RunSnoc(cfg: Config, inputs: seq<Input>, x: Input)
    ensures Run(cfg, inputs + [x]) == Step(cfg, Run(cfg, inputs), x)
    ensures LastMotion(inputs + [x]) == if IsMotion(x) then Some(x.at) else LastMotion(inputs)
  {
  }
}
