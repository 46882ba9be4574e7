/** The trigger object: its fields are updated in place by the constructor,
    `ResetTrigger`, `UpdateStatus` and the setters, each proved to move the
    object exactly as the matching function of TriggerSpec moves its value. */
module Schmitt {
  import opened TriggerSpec

  class SchmittTrigger {
    var error: int
    var operation: int          // 0: rising only, 1: falling only, 2: double edge
    var status: uint8
    var pressThres: real
    var releaseThres: real
    var pressDebounce: uint8    // consecutive readings needed to go from 0 to 1
    var releaseDebounce: uint8  // consecutive readings needed to go from 1 to 0
    var pressCount: uint8
    var releaseCount: uint8

    /** The object's fields as a TriggerSpec value. */
    function View(): (t: Trigger)
      reads this
    {
      Trigger(error, operation, pressThres, releaseThres, pressDebounce, releaseDebounce,
              status, pressCount, releaseCount)
    }

    ghost predicate Valid()
      reads this
    {
      Consistent(View())
    }

    /** Validates the parameters into `error` (each failing check overwriting
        the previous code), stores them all, valid or not, and resets. */
    constructor (pressThres: real, releaseThres: real, pressDebounce: uint8, releaseDebounce: uint8,
                 operation: int)
      ensures Valid()
      ensures View() == Construct(pressThres, releaseThres, pressDebounce, releaseDebounce, operation)
    {
      var opFact := 0;
      this.error := OK;
      if pressDebounce <= 0 { this.error := ERR_DEBOUNCE; }
      if pressDebounce > MAX_DEBOUNCE { this.error := ERR_DEBOUNCE; }
      if releaseDebounce <= 0 { this.error := ERR_DEBOUNCE; }
      if releaseDebounce > MAX_DEBOUNCE { this.error := ERR_DEBOUNCE; }

      if operation == RISING { opFact := 1; }
      if operation == FALLING { opFact := -1; }
      if pressThres * opFact as real < releaseThres * opFact as real { this.error := ERR_ORDERING; }
      if pressThres < 0.0 { this.error := ERR_NEGATIVE; }
      if releaseThres < 0.0 { this.error := ERR_NEGATIVE; }

      if operation != RISING && operation != FALLING && operation != DOUBLE_EDGE { this.error := ERR_MODE; }

      this.operation := operation;
      this.pressThres := pressThres;
      this.releaseThres := releaseThres;
      this.pressDebounce := pressDebounce;
      this.releaseDebounce := releaseDebounce;
      new;
      ResetTrigger();
    }

    /** Status and both counters back to zero; configuration and `error` untouched. */
    method ResetTrigger()
      modifies this
      ensures View() == Reset(old(View()))
    {
      status := 0;
      pressCount := 0;
      releaseCount := 0;
    }

    /** Advances the trigger by one reading and returns the new status, or the
        error code without doing anything when the trigger has failed validation. */
    method UpdateStatus(lastRead: real) returns (r: int)
      requires Valid()
      modifies this
      ensures Valid()
      ensures View() == Update(old(View()), lastRead).next
      ensures r == Update(old(View()), lastRead).ret
    {
      if error < 0 { return error; }

      if operation == RISING {
        if status == 0 {
          if lastRead >= pressThres {
            pressCount := Incr(pressCount);
            if pressCount >= pressDebounce { status := 1; }
          } else {
            pressCount := 0;
          }
        } else {
          if lastRead < releaseThres {
            releaseCount := Incr(releaseCount);
            if releaseCount >= releaseDebounce { status := 0; }
          } else {
            releaseCount := 0;
          }
        }
      }

      if operation == FALLING {
        if status == 0 {
          if lastRead <= pressThres {
            pressCount := Incr(pressCount);
            if pressCount >= pressDebounce { status := 1; }
          } else {
            pressCount := 0;
          }
        } else {
          if lastRead > releaseThres {
            releaseCount := Incr(releaseCount);
            if releaseCount >= releaseDebounce { status := 0; }
          } else {
            releaseCount := 0;
          }
        }
      }

      // Operation 2 (double edge) is not implemented: the state is left as it is.

      return status;
    }

    method GetStatus() returns (s: int)
      requires Valid()
      ensures s == status
      ensures s == 0 || s == 1
    {
      s := status;
    }

    /** Stores the mode; only an unknown one is reported, as ERR_MODE. */
    method SetOperation(op: int)
      requires Valid()
      modifies this
      ensures Valid()
      ensures View() == WithOperation(old(View()), op)
    {
      if op != RISING && op != FALLING && op != DOUBLE_EDGE { error := ERR_MODE; }
      operation := op;
    }

    method GetOperation() returns (op: int)
      ensures op == operation
    {
      op := operation;
    }

    /** Stores the press threshold; reports ERR_ORDERING if it lies on the wrong
        side of the release threshold for the current mode, then ERR_NEGATIVE
        if it is negative. */
    method SetPressThreshold(x: real)
      requires Valid()
      modifies this
      ensures Valid()
      ensures View() == WithPressThreshold(old(View()), x)
    {
      var opFact := 0;
      if operation == RISING { opFact := 1; }
      if operation == FALLING { opFact := -1; }
      if x * opFact as real < releaseThres * opFact as real { error := ERR_ORDERING; }
      if x < 0.0 { error := ERR_NEGATIVE; }
      pressThres := x;
    }

    /** Stores the release threshold, with the same two checks as SetPressThreshold. */
    method SetReleaseThreshold(x: real)
      requires Valid()
      modifies this
      ensures Valid()
      ensures View() == WithReleaseThreshold(old(View()), x)
    {
      var opFact := 0;
      if operation == RISING { opFact := 1; }
      if operation == FALLING { opFact := -1; }
      if pressThres * opFact as real < x * opFact as real { error := ERR_ORDERING; }
      if x < 0.0 { error := ERR_NEGATIVE; }
      releaseThres := x;
    }

    /** Stores the press debounce requirement; 0 or more than MAX_DEBOUNCE is ERR_DEBOUNCE. */
    method SetPressDebounce(d: uint8)
      requires Valid()
      modifies this
      ensures Valid()
      ensures View() == WithPressDebounce(old(View()), d)
    {
      if d <= 0 { error := ERR_DEBOUNCE; }
      if d > MAX_DEBOUNCE { error := ERR_DEBOUNCE; }
      pressDebounce := d;
    }

    /** Stores the release debounce requirement, with the same check. */
    method SetReleaseDebounce(d: uint8)
      requires Valid()
      modifies this
      ensures Valid()
      ensures View() == WithReleaseDebounce(old(View()), d)
    {
      if d <= 0 { error := ERR_DEBOUNCE; }
      if d > MAX_DEBOUNCE { error := ERR_DEBOUNCE; }
      releaseDebounce := d;
    }

    method GetPressThreshold() returns (x: real)
      ensures x == pressThres
    {
      x := pressThres;
    }

    method GetReleaseThreshold() returns (x: real)
      ensures x == releaseThres
    {
      x := releaseThres;
    }

    method GetPressCount() returns (c: uint8)
      ensures c == pressCount
    {
      c := pressCount;
    }

    method GetReleaseCount() returns (c: uint8)
      ensures c == releaseCount
    {
      c := releaseCount;
    }

    method GetPressDebounce() returns (d: uint8)
      ensures d == pressDebounce
    {
      d := pressDebounce;
    }

    method GetReleaseDebounce() returns (d: uint8)
      ensures d == releaseDebounce
    {
      d := releaseDebounce;
    }
  }

  /** A caller's view: the rising scenario driven through the object. */
  method RisingClient()
  {
    var trigger := new SchmittTrigger(10.0, 5.0, 3, 2, RISING);
    var r := trigger.UpdateStatus(9.0);   assert r == 0;
    r := trigger.UpdateStatus(10.0);      assert r == 0;
    r := trigger.UpdateStatus(10.0);      assert r == 0;
    var c := trigger.GetPressCount();     assert c == 2;
    r := trigger.UpdateStatus(10.0);      assert r == 1;
    r := trigger.UpdateStatus(4.0);       assert r == 1;
    r := trigger.UpdateStatus(4.0);       assert r == 0;
    trigger.SetPressDebounce(0);
    r := trigger.UpdateStatus(50.0);      assert r == ERR_DEBOUNCE;
    trigger.SetPressDebounce(3);
    r := trigger.UpdateStatus(50.0);      assert r == ERR_DEBOUNCE;
  }
}
