# Keytoggle input processor, in Dafny

A ZMK input processor that turns a pointing device's relative-motion events
into one sustained key hold. The first motion event presses a configured
keycode. Every motion event pushes the release out to `release_delay_ms`
after itself. When the release work item expires, the key is released, but
only if it is held. The processor never consumes an event.

The repository has two copies of the processor:

- `src/pointing/input-processor-keytoggle.c` has a configurable release
  delay. It presses with the `tap_ms` wait.
- The older root `input-processor-keytoggle.c` hardcodes a 100 ms delay. It
  also has an explicit branch that does nothing for a synchronisation report.

Both are modelled as the same machine. The older one is that machine with
`LegacyConfig(keycode)`: release delay 100 and a press wait of 0. The wait of
the older variant's queued actions cannot be read from its code, so 0 is a
choice of the model.

Files:

- `keytoggle_model.dfy` (module `KeytoggleModel`) holds the data model: events,
  actions, the configuration with its device-tree defaults, and the instance
  state. It gives the handler (`EventStep`) and the release callback
  (`ExpiryStep`) as functions on a state value. `Run` drives them along a
  trace of inputs. A `Tick(at)` input is the system work queue getting to run
  at time `at`; the release work executes then only if it is pending and due.
  `Consistent` is the invariant of a reachable state.
- `keytoggle_properties.dfy` (module `KeytoggleProperties`) holds the trace
  lemmas.
- `keytoggle.dfy` (module `Keytoggle`) holds the class `Controller`. Its
  fields are the per-instance state that the two C functions change in place:
  `isPressed`, the pending `deadline` of `key_release_work`, and the actions
  handed to the behaviour queue. Its ghost `history` is the trace seen so far.
  The predicate `Valid()` says the fields equal `Run(config, history)`.
- `keytoggle_legacy.dfy` (module `KeytoggleLegacy`) holds the class
  `LegacyController` for the older file. It is proved to follow the same
  machine under `LegacyConfig`.

Time is a `nat` parameter in milliseconds. Rescheduling the work item
replaces any pending deadline with `now + release_delay_ms`.

The code tests only the event type, so a zero-valued relative-motion event
presses and reschedules like any other
(src/pointing/input-processor-keytoggle.c:82); see `ValueIsIgnored`. The
result of `zmk_behavior_queue_add` is ignored, and the handler always returns
`ZMK_INPUT_PROC_CONTINUE`.

## Model

| member | source | states |
|---|---|---|
| KeytoggleModel.InstanceConfig | src/pointing/input-processor-keytoggle.c:136-141 | the keycode comes from the node; the defaults are release delay 100 ms, tap 0 and wait 0; a present property overrides its default |
| KeytoggleModel.EventStep | src/pointing/input-processor-keytoggle.c:82-105 | the handler on a state value: the queue only grows, by at most one action, and only when the key was not held (no re-press); a REL event leaves the key held with the release due at now + release_delay_ms; any other event leaves the state unchanged |
| KeytoggleModel.ExpiryStep | src/pointing/input-processor-keytoggle.c:47-59 | the release callback on a state value: it queues an action exactly when the key was held, at most one; afterwards the key is not held and no release is pending |
| KeytoggleModel.Step | src/pointing/input-processor-keytoggle.c:41-110 | one serialised input: an event goes to the handler; a `Tick(at)` runs the release work only when it is pending and at >= deadline, and otherwise changes nothing; the queue grows by at most one action |
| KeytoggleModel.Run | src/pointing/input-processor-keytoggle.c:41-110 | the state after a trace from the initial one; a trace of n inputs queues at most n actions |
| Keytoggle.Controller.constructor | src/pointing/input-processor-keytoggle.c:143-146 | a new instance is unpressed, has no pending release, has an empty queue and is valid |
| Keytoggle.Controller.HandleEvent | src/pointing/input-processor-keytoggle.c:77-110 | a REL event queues one press (keycode, tap_ms) only when the key is not held. It leaves the key held and sets the deadline to now + release_delay_ms, replacing any earlier one. A non-REL event changes nothing. The result is always Continue, and the state stays that of the machine |
| Keytoggle.Controller.KeyReleaseCallback | src/pointing/input-processor-keytoggle.c:41-61 | run once the deadline has passed: a held key gets exactly one release (keycode, wait 0) and becomes not held; an unheld key gets nothing; afterwards no release is pending |
| Keytoggle.DefaultInstanceScenario | src/pointing/input-processor-keytoggle.c:102-105 | with default config, REL at 0 and at 50 make the release due at 150 (not 100); the queue ends as one press then one release |
| KeytoggleProperties.StepKeepsConsistent | src/pointing/input-processor-keytoggle.c:94-105 | a handler step or a release step keeps the reachable-state invariant |
| KeytoggleProperties.RunConsistent | src/pointing/input-processor-keytoggle.c:47-59 | along any trace, actions alternate press, release, ... starting with a press. Presses carry tap_ms and releases wait 0. The key is held exactly when the last action is a press. A release is pending exactly when the key is held, due release_delay_ms after the last motion |
| KeytoggleProperties.ReleaseTiming | src/pointing/input-processor-keytoggle.c:102-105 | a run of the work queue at t releases exactly when the key is held and t >= last motion + release_delay_ms. So a release is never early, and it queues exactly one release |
| KeytoggleProperties.UnpressedTickIsNoOp | src/pointing/input-processor-keytoggle.c:47 | while the key is not held, nothing is pending and an expiry changes nothing, so a stale timer is harmless |
| KeytoggleProperties.MotionPressesOnce | src/pointing/input-processor-keytoggle.c:95-105 | after any trace, a REL event queues a press exactly when the key is not held, never re-presses, and leaves the release due at now + release_delay_ms |
| KeytoggleProperties.NoMotionNoAction | src/pointing/input-processor-keytoggle.c:82 | a trace without REL events leaves the initial state: nothing is queued and no release is scheduled |
| KeytoggleProperties.ValueIsIgnored | src/pointing/input-processor-keytoggle.c:82 | the event value plays no part, so a zero-valued REL event acts like any other |
| KeytoggleProperties.DebounceScenario | src/pointing/input-processor-keytoggle.c:102-105 | with delay 100, REL at 0 and 50 give one press. A tick at 100 changes nothing and a tick at 150 queues one release |
| KeytoggleLegacy.LegacyConfig | input-processor-keytoggle.c:35-39 | the older variant acts as its keycode with the fixed release delay of 100 ms (line 39); its press wait is chosen as 0, not read from line 35; this equals the default instance configuration |
| KeytoggleLegacy.LegacyController.constructor | input-processor-keytoggle.c:63-65 | a new instance is unpressed, has no pending release and has an empty queue |
| KeytoggleLegacy.LegacyController.HandleEvent | input-processor-keytoggle.c:27-46 | a REL event presses only when the key is not held and reschedules the release to exactly now + 100. SYN_REPORT and every other event change nothing. The result is always Continue. The state is that of the machine under LegacyConfig |
| KeytoggleLegacy.LegacyController.KeyReleaseCallback | input-processor-keytoggle.c:16-25 | a held key gets one release and becomes not held; otherwise nothing is queued; no release remains pending |

## Left out

- Zephyr and ZMK wiring is not modelled: `k_work_init_delayable`,
  `CONTAINER_OF`, device definition macros, logging and the driver API table.
  Time is a parameter. `k_uptime_get()` and the event timestamp are not
  modelled.
- `K_MSEC` conversion to kernel ticks is not modelled: deadlines are exact
  milliseconds. Overflow of the uptime counter is also not modelled.
- The behaviour queue is modelled only as the sequence of actions appended to
  it, each with its keycode and wait argument. The dummy `position` and the
  split-only `source` fields of the binding event are not modelled. Nor is
  what the queue later does with an action.
- The older variant's `ZMK_BEHAVIOR_QUEUE_PRESS` and `ZMK_BEHAVIOR_QUEUE_RELEASE`
  macros: their definitions are not part of this model, and the file does not
  include `zmk/behavior_queue.h`. The waits of the older variant's press and
  release therefore cannot be read from its code. The model chooses 0
  (`LEGACY_WAIT_MS`). In the canonical file the dummy position is also a
  literal 0 (`.position = 0`, lines 52 and 87), and the wait is a separate last
  argument (lines 58 and 98), so the macros' `0` may be a position rather than
  a wait.
- Concurrency between the input thread and the system work queue is not
  modelled. Each entry point is an atomic method, and calls are serialized.
- `wait_ms` is stored in the configuration but never read.
- The older variant has build and initialisation defects, which the model
  does not reproduce:
  - Its `KEYTOGGLE_INST` macro lacks line continuations after line 61.
  - It includes `input_processor_keytoggle.h`, but the header in the repository is
    `input-processor-keytoggle.h`.
  - `keytoggle_init` never sets `state->config`, yet the callback reads
    `state->config->keycode`. `LegacyController` uses its own keycode there.
- Zero-magnitude filtering, tap emulation and lists of bindings do not appear
  in the code, so they are not modelled.
- How the work queue decides to run the release work is not modelled. The
  callback methods assume it runs no earlier than the pending deadline. A run
  while nothing is pending (a stale expiry) is allowed and changes nothing.
