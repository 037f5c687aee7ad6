/**
  The state of a `LockstepSyncHandler` as a value, and each of its operations
  as a transition on that value.  The class in handler.dfy keeps the same
  state in mutable fields and is proved to follow these transitions.

  Times are milliseconds.  The engine clock reading (`realtimeSinceStartup`
  scaled to ms) and the frame delta (`deltaTime` scaled to ms) are parameters.
  The two callbacks become events appended to a log.
 */
module FramePump {
  import opened Unchecked

  /** One callback invocation. */
  datatype Event =
    /** `UpdateCallback(delta, turnDelta, updateCount)`; `delta` is the constant step in seconds and is not recorded. */
    | Update(turnDelta: i32, updateCount: i32)
    /** `UpdateTurnCallback(turnCount)` */
    | UpdateTurn(turnCount: u32)

  /** The private fields of the handler (the two callbacks reduced to "is a turn callback registered"). */
  datatype Pump = Pump(
    fixedDeltaMillisecond: i32,
    turnTime: u64,
    useLockstep: bool,         // `mWaitRelease` in the CustomPackage copy
    useRealTimeSince: bool,    // public `UseMonotonicTime` in the CustomPackage copy
    hasTurnCallback: bool,
    startTime: u64,
    elapsedTime: u64,
    currentTime: u64,
    updateCallCount: i32,
    currentTurnCount: u32,
    nextTurn: u32,
    isLockStep: bool)

  /** The field values of a freshly constructed handler (C# default initialisation). */
  const Fresh: Pump := Pump(0, 0, false, false, false, 0, 0, 0, 0, 0, 0, false)

  /** `(uint)(time / turnTime)`: the turn a time falls in. */
  function TurnOf(time: u64, turnTime: u64): u32
    requires turnTime > 0
  {
    Trunc32(time / turnTime)
  }

  /** Below 2^32 turns, the turn a time falls in is the one whose span `[r * turnTime, (r + 1) * turnTime)` holds it. */
  lemma TurnOfBounds(time: u64, turnTime: u64)
    requires turnTime > 0 && time / turnTime < TWO_32
    ensures var r := TurnOf(time, turnTime); r * turnTime <= time < (r + 1) * turnTime
  {
  }

  /** `CurrentElapsedTime`: clock reading minus the baseline, as unchecked `ulong`. */
  function CurrentElapsedTime(p: Pump, clock: u64): u64
  {
    Sub64(clock, p.startTime)
  }

  /** `GetCurrentTurn()` */
  function GetCurrentTurn(p: Pump): u32
    requires p.turnTime > 0
  {
    TurnOf(p.elapsedTime, p.turnTime)
  }

  // ---------------------------------------------------------------------------
  // Configuration and time correction
  // ---------------------------------------------------------------------------

  /** `Init`: the fixed step is given directly in ms (the source truncates `fixedFrameTime * 1000`). */
  function Init(p: Pump, fixedDeltaMillisecond: i32, turnTime: u64, useLockstep: bool): Pump
  {
    p.(turnTime := turnTime, useLockstep := useLockstep,
       fixedDeltaMillisecond := fixedDeltaMillisecond, nextTurn := 1,
       updateCallCount := 0, currentTime := 0, elapsedTime := 0, currentTurnCount := 0)
  }

  /** `StartCheckTime` */
  function StartCheckTime(p: Pump, clock: u64): Pump
  {
    p.(startTime := clock, currentTime := 0, elapsedTime := 0)
  }

  /** `Rollback(elapsedTime)` */
  function Rollback(p: Pump, clock: u64, elapsedTime: u64): Pump
  {
    p.(currentTime := 0, elapsedTime := elapsedTime, startTime := Sub64(clock, elapsedTime))
  }

  /** `SetElapsedTime(aElapsedTime)`: the `ulong` delta is "positive" whenever it is non-zero. */
  function SetElapsedTime(p: Pump, clock: u64, aElapsedTime: u64): Pump
  {
    var delta := Sub64(aElapsedTime, CurrentElapsedTime(p, clock));
    if delta > 0 then p.(startTime := Sub64(p.startTime, delta)) else p
  }

  /** `SkipElapsedTime(skipTime)`: adds the absolute baseline to a relative time, as written. */
  function SkipElapsedTime(p: Pump, skipTime: u64): Pump
  {
    p.(elapsedTime := Add64(p.startTime, skipTime))
  }

  /** `UnlockStep` */
  function UnlockStep(p: Pump): Pump
  {
    p.(isLockStep := false)
  }

  /** `RegistUpdateTurnCallback(callback)`; `registered` is false for a null callback. */
  function RegistUpdateTurnCallback(p: Pump, registered: bool): Pump
  {
    p.(hasTurnCallback := registered)
  }

  /** The `UseMonotonicTime` setter. */
  function SetUseMonotonicTime(p: Pump, on: bool): Pump
  {
    p.(useRealTimeSince := on)
  }

  // ---------------------------------------------------------------------------
  // The update: gate, time advance and drain loop
  // ---------------------------------------------------------------------------

  /**
    What the drain loop needs to be defined: a positive step (else it never
    ends), a positive turn time (a divisor), and an observed time at least one
    step below 2^64 (else `currentTime += step` wraps and the loop may not end).
   */
  predicate DrainReady(p: Pump)
  {
    p.fixedDeltaMillisecond > 0 && p.turnTime > 0 &&
    p.elapsedTime + p.fixedDeltaMillisecond <= TWO_64
  }

  /** One iteration of the `while` loop in `SkipFrame`. */
  function StepOnce(p: Pump, elapsedTurn: u32): (Pump, seq<Event>)
    requires DrainReady(p) && p.currentTime < p.elapsedTime
  {
    var currentTime := Add64(p.currentTime, p.fixedDeltaMillisecond);
    var turn := TurnOf(currentTime, p.turnTime);
    var update := Update(AsInt32(Sub32(elapsedTurn, turn)), p.updateCallCount);
    var q := p.(currentTime := currentTime, currentTurnCount := turn,
                updateCallCount := Inc32(p.updateCallCount));
    if turn >= p.nextTurn then
      (q.(isLockStep := true, nextTurn := IncU32(p.nextTurn)),
       [update] + (if p.hasTurnCallback then [UpdateTurn(turn)] else []))
    else
      (q, [update])
  }

  /** The whole `while (currentTime < elapsedTime)` loop: the final state and the events, in order. */
  function Drain(p: Pump, elapsedTurn: u32): (Pump, seq<Event>)
    requires DrainReady(p)
    decreases p.elapsedTime - p.currentTime
  {
    if p.currentTime >= p.elapsedTime then (p, [])
    else
      var (q, first) := StepOnce(p, elapsedTurn);
      var (r, rest) := Drain(q, elapsedTurn);
      (r, first + rest)
  }

  /** One iteration followed by the rest of the loop is the whole loop. */
  lemma DrainUnfold(p: Pump, elapsedTurn: u32)
    requires DrainReady(p) && p.currentTime < p.elapsedTime
    ensures var (q, first) := StepOnce(p, elapsedTurn);
      DrainReady(q) && q.elapsedTime == p.elapsedTime &&
      Drain(p, elapsedTurn) == (Drain(q, elapsedTurn).0, first + Drain(q, elapsedTurn).1)
  {
  }

  /** The gate that makes an update a no-op. */
  predicate Gated(p: Pump)
  {
    p.useLockstep && p.isLockStep
  }

  /** The elapsed time an update observes: monotonic clock minus baseline, or the old value plus the frame delta. */
  function ObservedElapsed(p: Pump, clock: u64, frameDelta: u64): u64
  {
    if p.useRealTimeSince then CurrentElapsedTime(p, clock) else Add64(p.elapsedTime, frameDelta)
  }

  /** What `SkipFrame` needs of its caller: a drain that is defined once the observed time is advanced. */
  predicate CanSkipFrame(p: Pump, clock: u64, frameDelta: u64)
  {
    DrainReady(p.(elapsedTime := ObservedElapsed(p, clock, frameDelta)))
  }

  /** `SkipFrame()` past its gate check: advance the observed time, then drain it. */
  function SkipFrame(p: Pump, clock: u64, frameDelta: u64): (Pump, seq<Event>)
    requires CanSkipFrame(p, clock, frameDelta)
  {
    var elapsed := ObservedElapsed(p, clock, frameDelta);
    Drain(p.(elapsedTime := elapsed), TurnOf(elapsed, p.turnTime))
  }

  /** What an update needs of its caller: nothing while gated, otherwise a drain that is defined. */
  predicate CanUpdate(p: Pump, clock: u64, frameDelta: u64)
  {
    Gated(p) || CanSkipFrame(p, clock, frameDelta)
  }

  /**
    `UpdateHandler()`: the gate check (in `UpdateHandler` in the Runtime copy,
    at the top of `SkipFrame` in the CustomPackage copy), then `SkipFrame`.
   */
  function UpdateHandler(p: Pump, clock: u64, frameDelta: u64): (Pump, seq<Event>)
    requires CanUpdate(p, clock, frameDelta)
  {
    if Gated(p) then (p, []) else SkipFrame(p, clock, frameDelta)
  }
}
