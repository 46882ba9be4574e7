/** What a caller's sampling loop sees: `updateStatus` applied to a sequence of
    readings, and the properties of the trigger over such runs. */
module TriggerRuns {
  import opened TriggerSpec

  /** The values returned by `updateStatus` for each reading in turn. */
  function Outputs(t: Trigger, xs: seq<real>): (out: seq<int>)
    ensures |out| == |xs|
    decreases |xs|
  {
    if xs == [] then []
    else
      var s := Update(t, xs[0]);
      [s.ret] + Outputs(s.next, xs[1..])
  }

  /** The state after `updateStatus` has been called on each reading in turn. */
  function After(t: Trigger, xs: seq<real>): (r: Trigger)
    ensures SameSettings(r, t)
    ensures Consistent(t) ==> Consistent(r)
    decreases |xs|
  {
    if xs == [] then t else After(Update(t, xs[0]).next, xs[1..])
  }

  /** A failed trigger, or one in double-edge or an unknown mode, never moves:
      every call returns the error code (or the unchanged status) and the
      state after any run is the state before it. */
  lemma {:induction false} IdleTriggerNeverMoves(t: Trigger, xs: seq<real>)
    requires t.error < 0 || (t.operation != RISING && t.operation != FALLING)
    ensures After(t, xs) == t
    ensures forall i :: 0 <= i < |xs| ==>
              Outputs(t, xs)[i] == (if t.error < 0 then t.error else t.status)
    decreases |xs|
  {
    if xs != [] {
      assert Update(t, xs[0]) == Step(t, if t.error < 0 then t.error else t.status);
      IdleTriggerNeverMoves(t, xs[1..]);
    }
  }

  /** On a trigger without error, every returned value is a status, 0 or 1. */
  lemma {:induction false} HealthyOutputsAreStatuses(t: Trigger, xs: seq<real>)
    requires Consistent(t) && t.error >= 0
    ensures forall i :: 0 <= i < |xs| ==> Outputs(t, xs)[i] == 0 || Outputs(t, xs)[i] == 1
    decreases |xs|
  {
    if xs != [] {
      HealthyOutputsAreStatuses(Update(t, xs[0]).next, xs[1..]);
    }
  }

  /** Arming debounce: from rest, an unbroken run of arming readings (at or
      above the press threshold when rising, at or below it when falling)
      counts up one per reading and sets the status on exactly the reading
      where the press counter reaches the press debounce requirement, not before. */
  lemma {:induction false} ArmsExactlyAtDebounce(t: Trigger, xs: seq<real>)
    requires t.error >= 0 && (t.operation == RISING || t.operation == FALLING)
    requires t.status == 0
    requires t.pressCount + |xs| <= t.pressDebounce
    requires forall i :: 0 <= i < |xs| ==> Arms(t.operation, xs[i], t.pressThres)
    ensures forall i :: 0 <= i < |xs| ==>
              Outputs(t, xs)[i] == (if t.pressCount + i + 1 == t.pressDebounce then 1 else 0)
    ensures After(t, xs).pressCount == t.pressCount + |xs|
    ensures After(t, xs).status == (if |xs| > 0 && t.pressCount + |xs| == t.pressDebounce then 1 else 0)
    decreases |xs|
  {
    if xs != [] {
      var s := Update(t, xs[0]);
      assert s.next.pressCount == t.pressCount + 1;
      if t.pressCount + 1 == t.pressDebounce {
        assert s.next.status == 1 && xs[1..] == [];
      } else {
        assert s.next.status == 0;
        ArmsExactlyAtDebounce(s.next, xs[1..]);
      }
    }
  }

  /** Releasing debounce: once set, an unbroken run of releasing readings
      (strictly below the release threshold when rising, strictly above it
      when falling) clears the status on exactly the reading where the release
      counter reaches the release debounce requirement, not before. */
  lemma {:induction false} ReleasesExactlyAtDebounce(t: Trigger, xs: seq<real>)
    requires t.error >= 0 && (t.operation == RISING || t.operation == FALLING)
    requires t.status == 1
    requires t.releaseCount + |xs| <= t.releaseDebounce
    requires forall i :: 0 <= i < |xs| ==> Releases(t.operation, xs[i], t.releaseThres)
    ensures forall i :: 0 <= i < |xs| ==>
              Outputs(t, xs)[i] == (if t.releaseCount + i + 1 == t.releaseDebounce then 0 else 1)
    ensures After(t, xs).releaseCount == t.releaseCount + |xs|
    ensures After(t, xs).status == (if |xs| > 0 && t.releaseCount + |xs| == t.releaseDebounce then 0 else 1)
    decreases |xs|
  {
    if xs != [] {
      var s := Update(t, xs[0]);
      assert s.next.releaseCount == t.releaseCount + 1;
      if t.releaseCount + 1 == t.releaseDebounce {
        assert s.next.status == 0 && xs[1..] == [];
      } else {
        assert s.next.status == 1;
        ReleasesExactlyAtDebounce(s.next, xs[1..]);
      }
    }
  }

  /** No partial credit survives a miss: a reading that does not qualify for
      the edge being watched clears that edge's counter and leaves the status. */
  lemma MissClearsCount(t: Trigger, x: real)
    requires t.error >= 0 && (t.operation == RISING || t.operation == FALLING)
    ensures t.status == 0 && !Arms(t.operation, x, t.pressThres) ==>
              Update(t, x) == Step(t.(pressCount := 0), 0)
    ensures t.status != 0 && !Releases(t.operation, x, t.releaseThres) ==>
              Update(t, x) == Step(t.(releaseCount := 0), t.status)
  {
  }

  /** Counters are not cleared when the status flips, so a press counter left
      at or above its requirement by the previous arming re-arms the trigger
      on a single qualifying reading after a release. */
  lemma StaleCountRearmsAtOnce(t: Trigger, x: real)
    requires t.error >= 0 && (t.operation == RISING || t.operation == FALLING)
    requires t.status == 0 && t.pressDebounce <= t.pressCount < 255
    requires Arms(t.operation, x, t.pressThres)
    ensures Update(t, x).ret == 1 && Update(t, x).next.pressCount == t.pressCount + 1
  {
  }

  /** The press counter is a `uint8_t`: at 255 one more arming reading wraps
      it to 0, and with a requirement of at least 1 the trigger stays at rest. */
  lemma PressCountWraps(t: Trigger, x: real)
    requires t.error >= 0 && (t.operation == RISING || t.operation == FALLING)
    requires t.status == 0 && t.pressCount == 255 && t.pressDebounce >= 1
    requires Arms(t.operation, x, t.pressThres)
    ensures Update(t, x) == Step(t.(pressCount := 0), 0)
  {
  }

  /** The release counter is not cleared by a flip either: a release counter
      left at or above its requirement by the previous release clears the
      status on a single releasing reading after the next arming. */
  lemma StaleCountReleasesAtOnce(t: Trigger, x: real)
    requires t.error >= 0 && (t.operation == RISING || t.operation == FALLING)
    requires t.status == 1 && t.releaseDebounce <= t.releaseCount < 255
    requires Releases(t.operation, x, t.releaseThres)
    ensures Update(t, x).ret == 0 && Update(t, x).next.releaseCount == t.releaseCount + 1
  {
  }

  /** The release counter is a `uint8_t` too: at 255 one more releasing
      reading wraps it to 0, and with a requirement of at least 1 the status stays set. */
  lemma ReleaseCountWraps(t: Trigger, x: real)
    requires t.error >= 0 && (t.operation == RISING || t.operation == FALLING)
    requires t.status == 1 && t.releaseCount == 255 && t.releaseDebounce >= 1
    requires Releases(t.operation, x, t.releaseThres)
    ensures Update(t, x) == Step(t.(releaseCount := 0), 1)
  {
  }

  /** Negated readings. */
  function Negated(xs: seq<real>): (ys: seq<real>)
    ensures |ys| == |xs|
  {
    if xs == [] then [] else [-xs[0]] + Negated(xs[1..])
  }

  /** A falling-mode trigger seen as a rising-mode one on negated thresholds. */
  function Mirror(t: Trigger): (m: Trigger) {
    t.(operation := RISING, pressThres := -t.pressThres, releaseThres := -t.releaseThres)
  }

  lemma MirrorStep(t: Trigger, x: real)
    requires t.operation == FALLING
    ensures Update(Mirror(t), -x) == Step(Mirror(Update(t, x).next), Update(t, x).ret)
  {
  }

  /** Falling mode is the mirror image of rising mode: with `<=` to arm and `>`
      to release it returns, reading for reading, what rising mode returns on
      the negated readings with negated thresholds, and ends in the mirrored state. */
  lemma {:induction false} FallingMirrorsRising(t: Trigger, xs: seq<real>)
    requires t.operation == FALLING
    ensures Outputs(Mirror(t), Negated(xs)) == Outputs(t, xs)
    ensures After(Mirror(t), Negated(xs)) == Mirror(After(t, xs))
    decreases |xs|
  {
    if xs != [] {
      MirrorStep(t, xs[0]);
      var next := Update(t, xs[0]).next;
      assert Negated(xs)[0] == -xs[0] && Negated(xs)[1..] == Negated(xs[1..]);
      FallingMirrorsRising(next, xs[1..]);
    }
  }

  /** Resetting after any run gives the state that resetting before it gives:
      a run changes nothing but the status and the counters. */
  lemma ResetForgetsRun(t: Trigger, xs: seq<real>)
    ensures Reset(After(t, xs)) == Reset(t)
  {
  }

  /** `resetTrigger` twice is `resetTrigger` once. */
  lemma ResetIdempotent(t: Trigger)
    ensures Reset(Reset(t)) == Reset(t)
  {
  }

  /** Rising mode, press threshold 10, release threshold 5, debounce 3 and 2:
      readings 9, 10, 10, 10 return 0, 0, 0, 1 (counting 0, 1, 2, 3), and then
      6, 4, 4 return 1, 1, 0. */
  lemma RisingScenario()
    ensures var t := Construct(10.0, 5.0, 3, 2, RISING);
            t.error == OK
            && Outputs(t, [9.0, 10.0, 10.0, 10.0, 6.0, 4.0, 4.0]) == [0, 0, 0, 1, 1, 1, 0]
            && After(t, [9.0, 10.0]).pressCount == 1
            && After(t, [9.0, 10.0, 10.0]).pressCount == 2
            && After(t, [9.0, 10.0, 10.0, 10.0, 6.0, 4.0]).releaseCount == 1
  {
  }

  /** With a release debounce of 1, the fifth reading, 10, re-arms the trigger
      on its own, because the press counter kept its value 3 through the release. */
  lemma RearmScenario()
    ensures var t := Construct(10.0, 5.0, 3, 1, RISING);
            Outputs(t, [10.0, 10.0, 10.0, 4.0, 10.0]) == [0, 0, 1, 0, 1]
  {
  }

  /** With press debounce 1 and release debounce 2, the fifth reading, 4,
      clears the status on its own, because the release counter kept its
      value 2 through the re-arming on the fourth reading. */
  lemma ReleaseScenario()
    ensures var t := Construct(10.0, 5.0, 1, 2, RISING);
            Outputs(t, [10.0, 4.0, 4.0, 10.0, 4.0]) == [1, 1, 0, 1, 0]
            && After(t, [10.0, 4.0, 4.0, 10.0]).releaseCount == 2
  {
  }

  /** A press debounce of 0 fails construction with the debounce code, and
      from then on every call returns that code and changes nothing. */
  lemma ZeroDebounceScenario(xs: seq<real>)
    ensures var t := Construct(10.0, 5.0, 0, 2, RISING);
            t.error == ERR_DEBOUNCE && After(t, xs) == t
            && forall i :: 0 <= i < |xs| ==> Outputs(t, xs)[i] == ERR_DEBOUNCE
  {
    IdleTriggerNeverMoves(Construct(10.0, 5.0, 0, 2, RISING), xs);
  }

  /** An out-of-range debounce together with a negative threshold reports the
      negative threshold, and an unknown mode outranks both. */
  lemma PriorityScenario()
    ensures Construct(-1.0, 5.0, 0, 2, RISING).error == ERR_NEGATIVE
    ensures Construct(-1.0, 5.0, 0, 2, 7).error == ERR_MODE
    ensures Construct(1.0, 5.0, 0, 2, RISING).error == ERR_ORDERING
  {
  }

  /** Double-edge mode constructs without error, whatever the thresholds'
      order, and then ignores every reading, returning status 0. */
  lemma DoubleEdgeScenario(xs: seq<real>)
    ensures var t := Construct(1.0, 5.0, 3, 2, DOUBLE_EDGE);
            t.error == OK && After(t, xs) == t
            && forall i :: 0 <= i < |xs| ==> Outputs(t, xs)[i] == 0
  {
    IdleTriggerNeverMoves(Construct(1.0, 5.0, 3, 2, DOUBLE_EDGE), xs);
  }

  /** `SetOperation` checks only the mode: switching a valid rising trigger to
      falling keeps `error` at OK although its thresholds are now in the wrong
      order for falling mode. */
  lemma SetOperationSkipsOrdering()
    ensures var t := WithOperation(Construct(10.0, 5.0, 3, 2, RISING), FALLING);
            t.error == OK && OrderViolated(t.pressThres, t.releaseThres, t.operation)
  {
  }
}
