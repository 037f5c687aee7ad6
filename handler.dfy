/**
  The fixed-frame handler `LockstepSyncHandler`, as an object whose methods
  update its fields in place.  Both copies of the source are one class: the
  `variant` constant records which copy an object stands for, and the members
  that only the CustomPackage copy has require that variant.
 */
module LockstepSync {
  import opened Unchecked
  import opened FramePump
  import UpdateProperties

  /** Which of the two copies of the handler an object models. */
  datatype Variant = Runtime | CustomPackage

  class LockstepSyncHandler {
    const variant: Variant

    var fixedDeltaMillisecond: i32
    var updateCallCount: i32
    var elapsedTime: u64
    var currentTime: u64
    var useLockstep: bool
    var turnTime: u64
    var isLockStep: bool
    var currentTurnCount: u32
    var nextTurn: u32
    var useRealTimeSince: bool
    var startTime: u64
    var hasTurnCallback: bool
    /** Every callback invocation so far, in order. */
    var events: seq<Event>

    /**
      In the Runtime copy the turn callback is private and never assigned, and the
      time-mode flag has a private setter that is never called.
     */
    ghost predicate Valid()
      reads this
    {
      variant == Runtime ==> !useRealTimeSince && !hasTurnCallback
    }

    /** The fields as a value. */
    function State(): Pump
      reads this
    {
      Pump(fixedDeltaMillisecond, turnTime, useLockstep, useRealTimeSince, hasTurnCallback,
           startTime, elapsedTime, currentTime, updateCallCount, currentTurnCount, nextTurn, isLockStep)
    }

    constructor (variant: Variant)
      ensures this.variant == variant && Valid()
      ensures State() == Fresh && events == []
    {
      this.variant := variant;
      fixedDeltaMillisecond, updateCallCount, elapsedTime, currentTime := 0, 0, 0, 0;
      useLockstep, turnTime, isLockStep, currentTurnCount, nextTurn := false, 0, false, 0, 0;
      useRealTimeSince, startTime, hasTurnCallback := false, 0, false;
      events := [];
    }

    /** `CurrentElapsedTime` for a given clock reading. */
    function CurrentElapsedTime(clock: u64): (r: u64)
      reads this
      ensures Add64(r, startTime) == clock
    {
      Sub64(clock, startTime)
    }

    /** `GetCurrentTurn()`: the turn the observed elapsed time falls in. */
    function GetCurrentTurn(): u32
      reads this
      requires turnTime > 0
    {
      TurnOf(elapsedTime, turnTime)
    }

    method Init(fixedDeltaMillisecond: i32, turnTime: u64, useLockstep: bool)
      requires Valid()
      modifies this
      ensures Valid()
      ensures State() == FramePump.Init(old(State()), fixedDeltaMillisecond, turnTime, useLockstep)
      ensures events == old(events)
    {
      this.turnTime, this.useLockstep, this.fixedDeltaMillisecond := turnTime, useLockstep, fixedDeltaMillisecond;
      nextTurn, updateCallCount, currentTime, elapsedTime, currentTurnCount := 1, 0, 0, 0, 0;
    }

    method StartCheckTime(clock: u64)
      requires Valid()
      modifies this
      ensures Valid()
      ensures State() == FramePump.StartCheckTime(old(State()), clock)
      ensures CurrentElapsedTime(clock) == 0
      ensures events == old(events)
    {
      startTime := clock;
      currentTime := 0;
      elapsedTime := 0;
    }

    method Rollback(clock: u64, elapsedTime: u64)
      requires Valid()
      modifies this
      ensures Valid()
      ensures State() == FramePump.Rollback(old(State()), clock, elapsedTime)
      ensures CurrentElapsedTime(clock) == elapsedTime
      ensures events == old(events)
    {
      currentTime := 0;
      this.elapsedTime := elapsedTime;
      startTime := Sub64(clock, this.elapsedTime);
      SubSubCancel(clock, elapsedTime);
    }

    /** Only in the CustomPackage copy. */
    method RegistUpdateTurnCallback(registered: bool)
      requires Valid() && variant == CustomPackage
      modifies this
      ensures Valid()
      ensures State() == FramePump.RegistUpdateTurnCallback(old(State()), registered)
      ensures events == old(events)
    {
      hasTurnCallback := registered;
    }

    /** The public `UseMonotonicTime` setter; only in the CustomPackage copy. */
    method SetUseMonotonicTime(on: bool)
      requires Valid() && variant == CustomPackage
      modifies this
      ensures Valid()
      ensures State() == FramePump.SetUseMonotonicTime(old(State()), on)
      ensures events == old(events)
    {
      useRealTimeSince := on;
    }

    method SetElapsedTime(clock: u64, aElapsedTime: u64)
      requires Valid()
      modifies this
      ensures Valid()
      ensures State() == FramePump.SetElapsedTime(old(State()), clock, aElapsedTime)
      ensures CurrentElapsedTime(clock) == aElapsedTime
      ensures events == old(events)
    {
      var current := CurrentElapsedTime(clock);
      var delta := Sub64(aElapsedTime, current);
      if delta > 0 {
        ShiftBaseline(clock, startTime, aElapsedTime);
        startTime := Sub64(startTime, delta);
      }
    }

    method SkipElapsedTime(skipTime: u64)
      requires Valid()
      modifies this
      ensures Valid()
      ensures State() == FramePump.SkipElapsedTime(old(State()), skipTime)
      ensures events == old(events)
    {
      elapsedTime := Add64(startTime, skipTime);
    }

    method UnlockStep()
      requires Valid()
      modifies this
      ensures Valid()
      ensures State() == FramePump.UnlockStep(old(State())) && !isLockStep
      ensures events == old(events)
    {
      isLockStep := false;
    }

    /**
      `UpdateHandler()`: a no-op while the gate is closed, otherwise `SkipFrame`.
      (The Runtime copy checks the gate here, the CustomPackage copy at the top
      of `SkipFrame`; the effect is the same.)
     */
    method UpdateHandler(clock: u64, frameDelta: u64)
      requires Valid() && CanUpdate(State(), clock, frameDelta)
      modifies this
      ensures Valid()
      ensures State() == FramePump.UpdateHandler(old(State()), clock, frameDelta).0
      ensures events == old(events) + FramePump.UpdateHandler(old(State()), clock, frameDelta).1
    {
      if useLockstep && isLockStep {
        return;
      }
      SkipFrame(clock, frameDelta);
    }

    /**
      The Runtime copy's `SkipFrame`, which has no gate check of its own; the
      CustomPackage copy's `SkipFrame`, which starts with the gate check,
      corresponds to `UpdateHandler` above.
      Advance the observed time (monotonic clock or frame delta), then drain it
      in fixed steps, logging one `Update` per step and an `UpdateTurn` per turn
      boundary when a turn callback is registered.
     */
    method SkipFrame(clock: u64, frameDelta: u64)
      requires Valid() && CanSkipFrame(State(), clock, frameDelta)
      modifies this
      ensures Valid()
      ensures State() == FramePump.SkipFrame(old(State()), clock, frameDelta).0
      ensures events == old(events) + FramePump.SkipFrame(old(State()), clock, frameDelta).1
    {
      if useRealTimeSince {
        elapsedTime := CurrentElapsedTime(clock);
      } else {
        elapsedTime := Add64(elapsedTime, frameDelta);
      }
      var elapsedTurn := TurnOf(elapsedTime, turnTime);
      DrainBacklog(elapsedTurn);
    }

    /** The `while (currentTime < elapsedTime)` loop of `SkipFrame`. */
    method DrainBacklog(elapsedTurn: u32)
      requires Valid() && DrainReady(State())
      modifies this
      ensures Valid()
      ensures State() == Drain(old(State()), elapsedTurn).0
      ensures events == old(events) + Drain(old(State()), elapsedTurn).1
    {
      ghost var goal := Drain(State(), elapsedTurn);
      ghost var log := events;
      while currentTime < elapsedTime
        invariant Valid() && DrainReady(State())
        invariant Drain(State(), elapsedTurn).0 == goal.0
        invariant events + Drain(State(), elapsedTurn).1 == log + goal.1
        decreases elapsedTime - currentTime
      {
        DrainUnfold(State(), elapsedTurn);
        SkipFrameStep(elapsedTurn);
      }
    }

    /** One iteration of the `while` loop in `SkipFrame`. */
    method SkipFrameStep(elapsedTurn: u32)
      requires Valid() && DrainReady(State()) && currentTime < elapsedTime
      modifies this
      ensures Valid()
      ensures State() == StepOnce(old(State()), elapsedTurn).0
      ensures events == old(events) + StepOnce(old(State()), elapsedTurn).1
    {
      var current := Add64(currentTime, fixedDeltaMillisecond);
      var turn := TurnOf(current, turnTime);
      var turnDelta := AsInt32(Sub32(elapsedTurn, turn));
      events := events + [Update(turnDelta, updateCallCount)];
      currentTime, currentTurnCount, updateCallCount := current, turn, Inc32(updateCallCount);
      if turn >= nextTurn {
        if hasTurnCallback {
          events := events + [UpdateTurn(turn)];
        }
        isLockStep := true;
        nextTurn := IncU32(nextTurn);
      }
    }
  }

  /**
    In the Runtime copy no turn callback can be registered and the time source
    cannot be switched: an open update takes its time from the frame delta, and
    every update reports `Update`s only.
   */
  lemma RuntimeReportsUpdatesOnly(h: LockstepSyncHandler, clock: u64, frameDelta: u64)
    requires h.Valid() && h.variant == Runtime && CanUpdate(h.State(), clock, frameDelta)
    ensures var (r, evs) := FramePump.UpdateHandler(h.State(), clock, frameDelta);
      && (!Gated(h.State()) ==> r.elapsedTime == Add64(h.elapsedTime, frameDelta))
      && forall i :: 0 <= i < |evs| ==> evs[i].Update?
  {
    UpdateProperties.NoTurnEventsWithoutCallback(h.State(), clock, frameDelta);
    if !Gated(h.State()) {
      UpdateProperties.UpdateCatchesUp(h.State(), clock, frameDelta);
    }
  }
}
