# SchmittTrigger — a verified Dafny model

This project models the `SchmittTrigger` class of the newEndeavour SchmittTrigger
Arduino library. The class is a digital hysteresis filter with debounce. Each call to
`updateStatus(lastRead)` takes one analog reading. There is a press threshold and
counter for going from 0 to 1, and a release threshold and counter for going from 1
back to 0. Each counter counts consecutive qualifying readings for its edge, a miss
zeroes it, and the 0/1 status flips once that edge's counter reaches its configured
requirement. A flip clears neither counter, so after the first flip of an edge a single
qualifying reading can be enough to flip it again (see "Counters are not cleared" below).
That contradicts the header's own field comments, which describe the debounce values as
the number of consecutive counts needed to change the status (`SchmittTrigger.h:112-119`). The constructor stores the parameters and
validates them into a single `error` code. While that code is negative, the trigger
refuses to move.

The model has three modules:

- `TriggerSpec` (`trigger_spec.dfy`) is the reference model. The trigger's whole field
  set is the value `Trigger`, and every operation of the class is a function on that
  value:
  - `ValidationCode` is the constructor's error code, stated by priority;
  - `Construct` and `Reset`;
  - `Update` is one `updateStatus` call;
  - the `With…` functions are the setters.
  
  The module also defines `Consistent`, the invariant every reachable object keeps.
- `TriggerRuns` (`trigger_runs.dfy`) covers whole runs. `Outputs` and `After` apply
  `updateStatus` to a sequence of readings, as the host sampling loop would. The lemmas
  about runs are here: exact debounce timing, a failed trigger is frozen, falling mode
  mirrors rising mode, and worked scenarios. `Negated` and `Mirror` are helpers for
  `FallingMirrorsRising`: the negated readings (of the same length) and the trigger with
  rising mode and negated thresholds.
- `Schmitt` (`schmitt_trigger.dfy`) is the class `SchmittTrigger`. Its fields are updated
  in place by the constructor, `ResetTrigger`, `UpdateStatus` and the setters. The code
  keeps the source's branches, its `op_fact` sign trick and its check order. Each
  mutating method is proved to change the object exactly as the matching `TriggerSpec`
  function changes `View()`, and to keep `Valid()`.
  
  The module ends with `RisingClient`, a client method with no contract of its own. It
  drives one object through the rising scenario and then a failing setter, asserting
  each returned value from the class contracts alone.

Constants and widths follow the code:
- `MAX_DEBOUNCE = 20`.
- The debounce requirements, counters and status are `uint8_t`, modelled as `uint8`
  (0..255). `Counter++` wraps from 255 to 0 (`Incr`).
- Thresholds and readings are mathematical reals.

The error codes are OK = 1, debounce -1, ordering -2, negative threshold -3 and unknown
mode -4.

In these places the code does something one might not expect, and the model follows
the code:
- **Validation order.** The constructor checks debounce (-1), then ordering (-2), then
  negativity (-3), then mode (-4). Each failing check overwrites the last, so an unknown
  mode outranks everything and a negative threshold outranks a bad ordering or a bad
  debounce.
- **Setters check only their own parameter.** They do not re-run full validation. They
  can only write negative codes, so `error` never returns to OK. They store the value
  even when it is invalid. `SetOperation` does not re-check the threshold ordering, so a
  trigger can hold OK while its thresholds are in the wrong order for its new mode
  (`SetOperationSkipsOrdering`).
- **Counters are not cleared when the status flips.** This holds for both counters.
  - After a release, a press counter still at its requirement re-arms the trigger on a
    single reading (`StaleCountRearmsAtOnce`, `RearmScenario`).
  - After the next arming, a release counter still at its requirement clears the status
    on a single reading (`StaleCountReleasesAtOnce`, `ReleaseScenario`).
  - Over many cycles with no miss, a counter creeps up and wraps from 255 to 0
    (`PressCountWraps`, `ReleaseCountWraps`).
- **Double-edge mode (2) is a silent no-op.** `updateStatus` returns the unchanged
  status, not a separate "unsupported" code. Mode 2 never fails the ordering check.
- **`resetTrigger` leaves `error` untouched.** It does not re-validate.

## Model

| member | source | states |
|---|---|---|
| TriggerSpec.OrderViolated | SchmittTrigger.cpp:60-62 | the `op_fact` comparison fires exactly when rising mode has press below release or falling mode has press above release; it never fires in mode 2 or an unknown mode |
| TriggerSpec.ValidationCode | SchmittTrigger.cpp:51-68 | the constructor's code is OK exactly when every parameter is valid; an unknown mode gives -4; otherwise a negative threshold gives -3; otherwise a wrong ordering, which only mode 0/1 can have, gives -2; otherwise a debounce outside 1..20 gives -1 |
| TriggerSpec.Construct | SchmittTrigger.cpp:49-83 | after construction every parameter is stored unchanged, even an invalid one; status and both counters are 0; error is OK exactly for valid parameters; the invariant holds |
| TriggerSpec.Reset | SchmittTrigger.cpp:88-95 | reset zeroes status and both counters, leaves the configuration and `error` alone, and keeps the invariant |
| TriggerSpec.Incr | SchmittTrigger.cpp:129-134 | the `uint8_t` increment adds one below 255 and wraps 255 to 0 |
| TriggerSpec.Update | SchmittTrigger.cpp:121-193 | a failed trigger returns its code and does not move; otherwise the call returns the new status; configuration and error never change; at rest only the press counter moves, when set only the release counter; the status stays 0/1 and flips only when that edge's counter has reached its requirement; modes other than 0/1 change nothing; the invariant is kept |
| TriggerSpec.WithOperation | SchmittTrigger.cpp:99-109 | SetOperation stores the mode unconditionally, changes nothing else, writes -4 for a mode outside 0..2, otherwise leaves error alone; it never restores a failed trigger |
| TriggerSpec.WithPressThreshold | SchmittTrigger.cpp:202-214 | SetPressThreshold stores the value unconditionally; -3 for a negative value, else -2 if it breaks the ordering against the stored release threshold under the current mode, else error unchanged; sticky |
| TriggerSpec.WithReleaseThreshold | SchmittTrigger.cpp:217-229 | SetReleaseThreshold: the same, against the stored press threshold |
| TriggerSpec.WithPressDebounce | SchmittTrigger.cpp:232-240 | SetPressDebounce stores the value unconditionally; -1 for 0 or above 20, else error unchanged; sticky |
| TriggerSpec.WithReleaseDebounce | SchmittTrigger.cpp:243-251 | SetReleaseDebounce: the same for the release requirement |
| TriggerRuns.Outputs | SchmittTrigger.cpp:121-193 | a run of `updateStatus` calls returns one value per reading |
| TriggerRuns.After | SchmittTrigger.cpp:121-193 | no run of `updateStatus` calls changes the configuration or the error code, and every run keeps the invariant |
| TriggerRuns.IdleTriggerNeverMoves | SchmittTrigger.cpp:123-192 | with error < 0, or in mode 2 or an unknown mode, every call returns the error code (or the unchanged status) and the state after any run equals the state before it |
| TriggerRuns.HealthyOutputsAreStatuses | SchmittTrigger.cpp:126-192 | on a trigger without error, every value returned in any run is 0 or 1 |
| TriggerRuns.ArmsExactlyAtDebounce | SchmittTrigger.cpp:126-168 | from rest, an unbroken run of arming readings (`>=` rising, `<=` falling) adds one to the press counter per reading, and status 1 appears on exactly the reading where the counter reaches the press requirement, not before; this is stated for a counter that starts no higher than the requirement minus the run length, and StaleCountRearmsAtOnce and PressCountWraps cover the remaining counter values |
| TriggerRuns.ReleasesExactlyAtDebounce | SchmittTrigger.cpp:140-180 | once set, an unbroken run of releasing readings (`<` rising, `>` falling) adds one to the release counter per reading and clears the status on exactly the reading where the counter reaches the release requirement; this is stated for a counter that starts no higher than the requirement minus the run length, and StaleCountReleasesAtOnce and ReleaseCountWraps cover the remaining counter values |
| TriggerRuns.MissClearsCount | SchmittTrigger.cpp:126-181 | a non-qualifying reading zeroes the counter of the edge being watched and changes nothing else |
| TriggerRuns.StaleCountRearmsAtOnce | SchmittTrigger.cpp:129-134 | because the press counter is not cleared on a flip, a counter already at its requirement re-arms the trigger on one arming reading |
| TriggerRuns.PressCountWraps | SchmittTrigger.cpp:129-134 | at 255 an arming reading wraps the press counter to 0 and the trigger stays at rest |
| TriggerRuns.StaleCountReleasesAtOnce | SchmittTrigger.cpp:141-146 | because the release counter is not cleared on a flip, a counter already at its requirement clears the status on one releasing reading |
| TriggerRuns.ReleaseCountWraps | SchmittTrigger.cpp:141-146 | at 255 a releasing reading wraps the release counter to 0 and the status stays set |
| TriggerRuns.MirrorStep | SchmittTrigger.cpp:155-181 | one falling-mode step equals one rising-mode step on the negated reading with negated thresholds |
| TriggerRuns.FallingMirrorsRising | SchmittTrigger.cpp:126-181 | on any run, falling mode returns exactly what rising mode returns on the negated readings with negated thresholds, and ends in the mirrored state |
| TriggerRuns.ResetForgetsRun | SchmittTrigger.cpp:88-95 | a reset after any run gives the same state as a reset before it |
| TriggerRuns.ResetIdempotent | SchmittTrigger.cpp:88-95 | two resets in a row give the same state as one |
| TriggerRuns.RisingScenario | SchmittTrigger.cpp:126-152 | rising mode with thresholds 10/5 and debounce 3/2: readings 9,10,10,10,6,4,4 return 0,0,0,1,1,1,0, with the counters at 1, 2 and 1 where expected |
| TriggerRuns.RearmScenario | SchmittTrigger.cpp:126-152 | with release debounce 1, readings 10,10,10,4,10 return 0,0,1,0,1: one reading re-arms after a release |
| TriggerRuns.ReleaseScenario | SchmittTrigger.cpp:126-152 | with debounce 1/2, readings 10,4,4,10,4 return 1,1,0,1,0: the leftover release count 2 lets the last reading release on its own |
| TriggerRuns.ZeroDebounceScenario | SchmittTrigger.cpp:55-123 | press debounce 0 gives -1 at construction; after that every call returns -1 and nothing changes |
| TriggerRuns.PriorityScenario | SchmittTrigger.cpp:54-68 | a bad debounce with a negative threshold gives -3; adding an unknown mode gives -4; a bad debounce with press below release in rising mode gives -2 |
| TriggerRuns.DoubleEdgeScenario | SchmittTrigger.cpp:183-192 | mode 2 constructs without error whatever the thresholds' order, ignores every reading and keeps returning status 0 |
| TriggerRuns.SetOperationSkipsOrdering | SchmittTrigger.cpp:99-109 | switching a valid rising trigger with 10/5 to falling keeps error OK although the thresholds are now in the wrong order |
| Schmitt.SchmittTrigger.constructor | SchmittTrigger.cpp:49-83 | the sequence of overwriting checks leaves the priority code of ValidationCode; the new object equals Construct(...) and is valid |
| Schmitt.SchmittTrigger.ResetTrigger | SchmittTrigger.cpp:88-95 | the object changes exactly as Reset says |
| Schmitt.SchmittTrigger.UpdateStatus | SchmittTrigger.cpp:121-193 | the in-place update moves the object exactly as Update, returns Update's value and keeps Valid() |
| Schmitt.SchmittTrigger.GetStatus | SchmittTrigger.cpp:196-199 | returns the status, which is always 0 or 1 |
| Schmitt.SchmittTrigger.SetOperation | SchmittTrigger.cpp:99-109 | the object changes exactly as WithOperation says and stays valid |
| Schmitt.SchmittTrigger.GetOperation | SchmittTrigger.cpp:113-116 | returns the stored mode |
| Schmitt.SchmittTrigger.SetPressThreshold | SchmittTrigger.cpp:202-214 | the object changes exactly as WithPressThreshold says and stays valid |
| Schmitt.SchmittTrigger.SetReleaseThreshold | SchmittTrigger.cpp:217-229 | the object changes exactly as WithReleaseThreshold says and stays valid |
| Schmitt.SchmittTrigger.SetPressDebounce | SchmittTrigger.cpp:232-240 | the object changes exactly as WithPressDebounce says and stays valid |
| Schmitt.SchmittTrigger.SetReleaseDebounce | SchmittTrigger.cpp:243-251 | the object changes exactly as WithReleaseDebounce says and stays valid |
| Schmitt.SchmittTrigger.GetPressThreshold | SchmittTrigger.cpp:254-257 | returns the stored press threshold |
| Schmitt.SchmittTrigger.GetReleaseThreshold | SchmittTrigger.cpp:260-263 | returns the stored release threshold |
| Schmitt.SchmittTrigger.GetPressCount | SchmittTrigger.cpp:266-269 | returns the press counter |
| Schmitt.SchmittTrigger.GetReleaseCount | SchmittTrigger.cpp:272-275 | returns the release counter |
| Schmitt.SchmittTrigger.GetPressDebounce | SchmittTrigger.cpp:278-281 | returns the press debounce requirement |
| Schmitt.SchmittTrigger.GetReleaseDebounce | SchmittTrigger.cpp:284-287 | returns the release debounce requirement |

## Left out

- The Arduino platform includes (`SchmittTrigger.cpp:36-42`, `SchmittTrigger.h:48-52`). They are headers only and have no behaviour.
- The newer interface declared in `SchmittTrigger.h`: the constructor with a reference level, `Ref_Level`, threshold factors, `SetReferenceLevel`, `resetTriggerStatus`, `resetTriggerParameters`, `ResetErrors` and `Update_Threshold_Factors/Levels`. The implementation file has no code for any of them, so they have no semantics to model.
- Double-edge mode. The source leaves it unimplemented, so it is modelled only as the no-op it is.
- Floating point. `float` readings and thresholds are mathematical reals. NaN, rounding and infinities are not modelled.
- The widths of `int` for `error`, `Operation` and the mode argument. They are unbounded here. The source only compares them with small constants, so nothing can overflow.
- The host sampling loop and the hardware readings. They appear only as the reading sequence passed to `TriggerRuns.Outputs` and `TriggerRuns.After`.
