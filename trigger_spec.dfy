/** Reference model of the Schmitt trigger: its whole state as a value, and
    every operation of the class as a function on that value.  The class in
    module Schmitt is proved to follow these functions step by step. */
module TriggerSpec {

  /** `uint8_t`: debounce requirements, counters and the status. */
  type uint8 = x: int | 0 <= x < 256

  /** Largest accepted debounce requirement (MAX_DEBOUNCE in the header). */
  const MAX_DEBOUNCE: int := 20

  /** Codes kept in the `error` field.  OK is the only non-negative one. */
  const OK: int := 1
  const ERR_DEBOUNCE: int := -1     // a debounce requirement is 0 or above MAX_DEBOUNCE
  const ERR_ORDERING: int := -2     // thresholds in the wrong order for the mode
  const ERR_NEGATIVE: int := -3     // a negative threshold
  const ERR_MODE: int := -4         // operation mode other than 0, 1, 2

  /** Operation modes. */
  const RISING: int := 0
  const FALLING: int := 1
  const DOUBLE_EDGE: int := 2

  /** The complete field set of one trigger. */
  datatype Trigger = Trigger(
    error: int,
    operation: int,
    pressThres: real,
    releaseThres: real,
    pressDebounce: uint8,
    releaseDebounce: uint8,
    status: uint8,
    pressCount: uint8,
    releaseCount: uint8)

  /** The result of one `updateStatus` call: the new state and the value returned. */
  datatype Step = Step(next: Trigger, ret: int)

  predicate IsCode(e: int) {
    e == OK || e == ERR_DEBOUNCE || e == ERR_ORDERING || e == ERR_NEGATIVE || e == ERR_MODE
  }

  predicate KnownMode(op: int) {
    op == RISING || op == FALLING || op == DOUBLE_EDGE
  }

  predicate DebounceInRange(d: uint8) {
    1 <= d <= MAX_DEBOUNCE
  }

  /** The sign the source multiplies both thresholds by before comparing them. */
  function OpFact(op: int): (f: int) {
    if op == RISING then 1 else if op == FALLING then -1 else 0
  }

  /** The ordering check `press * op_fact < release * op_fact`: in rising mode
      the press threshold may not lie below the release threshold, in falling
      mode not above it, and in every other mode the check never fires. */
  function OrderViolated(press: real, release: real, op: int): (b: bool)
    ensures b <==> (op == RISING && press < release) || (op == FALLING && release < press)
  {
    press * OpFact(op) as real < release * OpFact(op) as real
  }

  /** Every constructor parameter passes its check. */
  predicate ParamsValid(press: real, release: real, pressDeb: uint8, releaseDeb: uint8, op: int) {
    KnownMode(op) && DebounceInRange(pressDeb) && DebounceInRange(releaseDeb)
    && 0.0 <= press && 0.0 <= release && !OrderViolated(press, release, op)
  }

  /** The code the constructor leaves in `error`, stated by priority: the
      constructor runs its checks in the order debounce, ordering, negativity,
      mode and each failing check overwrites the code, so the last failing one
      is the one seen. */
  function ValidationCode(press: real, release: real, pressDeb: uint8, releaseDeb: uint8, op: int): (e: int)
    ensures IsCode(e)
    ensures e == OK <==> ParamsValid(press, release, pressDeb, releaseDeb, op)
    ensures !KnownMode(op) ==> e == ERR_MODE
    ensures KnownMode(op) && (press < 0.0 || release < 0.0) ==> e == ERR_NEGATIVE
    ensures KnownMode(op) && 0.0 <= press && 0.0 <= release && OrderViolated(press, release, op) ==>
              e == ERR_ORDERING
    ensures e == ERR_ORDERING ==> OrderViolated(press, release, op) && (op == RISING || op == FALLING)
    ensures KnownMode(op) && 0.0 <= press && 0.0 <= release && !OrderViolated(press, release, op) &&
            !(DebounceInRange(pressDeb) && DebounceInRange(releaseDeb)) ==>
              e == ERR_DEBOUNCE
  {
    if !KnownMode(op) then ERR_MODE
    else if press < 0.0 || release < 0.0 then ERR_NEGATIVE
    else if OrderViolated(press, release, op) then ERR_ORDERING
    else if !DebounceInRange(pressDeb) || !DebounceInRange(releaseDeb) then ERR_DEBOUNCE
    else OK
  }

  /** The object invariant every reachable state keeps: the status is 0 or 1,
      `error` holds one of the codes, and a non-negative `error` (which can
      only be OK) vouches for the mode, the debounce ranges and the sign of
      both thresholds.  It does NOT vouch for the threshold ordering, because
      `SetOperation` does not re-check it. */
  predicate Consistent(t: Trigger) {
    t.status <= 1 && IsCode(t.error)
    && (t.error >= 0 ==>
          t.error == OK && KnownMode(t.operation)
          && DebounceInRange(t.pressDebounce) && DebounceInRange(t.releaseDebounce)
          && 0.0 <= t.pressThres && 0.0 <= t.releaseThres)
  }

  /** Same configuration and the same error code; only the run-time state may differ. */
  predicate SameSettings(a: Trigger, b: Trigger) {
    a.error == b.error && a.operation == b.operation
    && a.pressThres == b.pressThres && a.releaseThres == b.releaseThres
    && a.pressDebounce == b.pressDebounce && a.releaseDebounce == b.releaseDebounce
  }

  /** `resetTrigger`: status and both counters back to zero. */
  function Reset(t: Trigger): (r: Trigger)
    ensures SameSettings(r, t)
    ensures r.status == 0 && r.pressCount == 0 && r.releaseCount == 0
    ensures Consistent(t) ==> Consistent(r)
  {
    t.(status := 0, pressCount := 0, releaseCount := 0)
  }

  /** The state right after construction: every parameter stored as given,
      even an invalid one, the validation code in `error`, and a reset run-time state. */
  function Construct(press: real, release: real, pressDeb: uint8, releaseDeb: uint8, op: int): (t: Trigger)
    ensures t.operation == op && t.pressThres == press && t.releaseThres == release
    ensures t.pressDebounce == pressDeb && t.releaseDebounce == releaseDeb
    ensures t.status == 0 && t.pressCount == 0 && t.releaseCount == 0
    ensures t.error == OK <==> ParamsValid(press, release, pressDeb, releaseDeb, op)
    ensures Consistent(t)
  {
    Reset(Trigger(ValidationCode(press, release, pressDeb, releaseDeb, op), op, press, release,
                  pressDeb, releaseDeb, 0, 0, 0))
  }

  /** `Counter++` on a `uint8_t`: wraps from 255 to 0. */
  function Incr(c: uint8): (r: uint8)
    ensures c < 255 ==> r == c + 1
    ensures c == 255 ==> r == 0
  {
    (c + 1) % 256
  }

  /** A reading that counts toward arming: at or above the press threshold when
      rising, at or below it when falling.  Only meaningful for modes 0 and 1. */
  predicate Arms(op: int, reading: real, pressThres: real) {
    if op == RISING then reading >= pressThres else reading <= pressThres
  }

  /** A reading that counts toward releasing: strictly below the release
      threshold when rising, strictly above it when falling. */
  predicate Releases(op: int, reading: real, releaseThres: real) {
    if op == RISING then reading < releaseThres else reading > releaseThres
  }

  /** One edge detector: a qualifying reading bumps the counter and trips once
      the counter has reached the requirement; any other reading clears it.
      The counter is not cleared when it trips. */
  function Debounce(count: uint8, need: uint8, qualifies: bool): (r: (uint8, bool)) {
    if qualifies then (Incr(count), Incr(count) >= need) else (0, false)
  }

  /** `updateStatus(reading)`. */
  function Update(t: Trigger, reading: real): (s: Step)
    // an invalid trigger returns its code and does not move
    ensures t.error < 0 ==> s == Step(t, t.error)
    // a valid one returns its new status
    ensures t.error >= 0 ==> s.ret == s.next.status
    // the configuration and the code never change
    ensures SameSettings(s.next, t)
    // at rest only the press counter moves, when set only the release counter
    ensures t.status == 0 ==> s.next.releaseCount == t.releaseCount
    ensures t.status != 0 ==> s.next.pressCount == t.pressCount
    // the status stays 0 or 1, and flips only once the counter of its edge
    // has reached that edge's debounce requirement
    ensures t.status <= 1 ==> s.next.status <= 1
    ensures t.status == 0 && s.next.status != 0 ==>
              s.next.status == 1 && s.next.pressCount >= t.pressDebounce
    ensures t.status != 0 && s.next.status != t.status ==>
              s.next.status == 0 && s.next.releaseCount >= t.releaseDebounce
    // double-edge and unknown modes leave everything as it was
    ensures t.operation != RISING && t.operation != FALLING ==> s.next == t
    ensures Consistent(t) ==> Consistent(s.next)
  {
    if t.error < 0 then Step(t, t.error)
    else if t.operation != RISING && t.operation != FALLING then Step(t, t.status)
    else if t.status == 0 then
      var (c, trip) := Debounce(t.pressCount, t.pressDebounce, Arms(t.operation, reading, t.pressThres));
      var st := if trip then 1 else 0;
      Step(t.(pressCount := c, status := st), st)
    else
      var (c, trip) := Debounce(t.releaseCount, t.releaseDebounce, Releases(t.operation, reading, t.releaseThres));
      var st := if trip then 0 else t.status;
      Step(t.(releaseCount := c, status := st), st)
  }

  /** Codes a setter may write: none, or a negative one.  It never restores a
      failed trigger and never writes OK. */
  predicate StickyError(before: int, after: int) {
    after == before || after < 0
  }

  /** `SetOperation(op)`: stores the mode; an unknown one fails with ERR_MODE. */
  function WithOperation(t: Trigger, op: int): (r: Trigger)
    ensures r == t.(operation := op, error := r.error)
    ensures !KnownMode(op) ==> r.error == ERR_MODE
    ensures KnownMode(op) ==> r.error == t.error
    ensures StickyError(t.error, r.error)
    ensures Consistent(t) ==> Consistent(r)
  {
    t.(operation := op, error := if KnownMode(op) then t.error else ERR_MODE)
  }

  /** `SetPressThreshold(x)`: stores x; checks its order against the stored
      release threshold under the current mode, then its sign. */
  function WithPressThreshold(t: Trigger, x: real): (r: Trigger)
    ensures r == t.(pressThres := x, error := r.error)
    ensures x < 0.0 ==> r.error == ERR_NEGATIVE
    ensures 0.0 <= x && OrderViolated(x, t.releaseThres, t.operation) ==> r.error == ERR_ORDERING
    ensures 0.0 <= x && !OrderViolated(x, t.releaseThres, t.operation) ==> r.error == t.error
    ensures StickyError(t.error, r.error)
    ensures Consistent(t) ==> Consistent(r)
  {
    var e := if OrderViolated(x, t.releaseThres, t.operation) then ERR_ORDERING else t.error;
    t.(pressThres := x, error := if x < 0.0 then ERR_NEGATIVE else e)
  }

  /** `SetReleaseThreshold(x)`: the mirror of WithPressThreshold. */
  function WithReleaseThreshold(t: Trigger, x: real): (r: Trigger)
    ensures r == t.(releaseThres := x, error := r.error)
    ensures x < 0.0 ==> r.error == ERR_NEGATIVE
    ensures 0.0 <= x && OrderViolated(t.pressThres, x, t.operation) ==> r.error == ERR_ORDERING
    ensures 0.0 <= x && !OrderViolated(t.pressThres, x, t.operation) ==> r.error == t.error
    ensures StickyError(t.error, r.error)
    ensures Consistent(t) ==> Consistent(r)
  {
    var e := if OrderViolated(t.pressThres, x, t.operation) then ERR_ORDERING else t.error;
    t.(releaseThres := x, error := if x < 0.0 then ERR_NEGATIVE else e)
  }

  /** `SetPressDebounce(d)`: stores d; 0 or more than MAX_DEBOUNCE fails with ERR_DEBOUNCE. */
  function WithPressDebounce(t: Trigger, d: uint8): (r: Trigger)
    ensures r == t.(pressDebounce := d, error := r.error)
    ensures !DebounceInRange(d) ==> r.error == ERR_DEBOUNCE
    ensures DebounceInRange(d) ==> r.error == t.error
    ensures StickyError(t.error, r.error)
    ensures Consistent(t) ==> Consistent(r)
  {
    t.(pressDebounce := d, error := if DebounceInRange(d) then t.error else ERR_DEBOUNCE)
  }

  /** `SetReleaseDebounce(d)`: the mirror of WithPressDebounce. */
  function WithReleaseDebounce(t: Trigger, d: uint8): (r: Trigger)
    ensures r == t.(releaseDebounce := d, error := r.error)
    ensures !DebounceInRange(d) ==> r.error == ERR_DEBOUNCE
    ensures DebounceInRange(d) ==> r.error == t.error
    ensures StickyError(t.error, r.error)
    ensures Consistent(t) ==> Consistent(r)
  {
    t.(releaseDebounce := d, error := if DebounceInRange(d) then t.error else ERR_DEBOUNCE)
  }
}
