/**
  Configuration and the time corrections: `Init`, `StartCheckTime`,
  `Rollback`, `SetElapsedTime` and `SkipElapsedTime`.
 */
module TimeCorrection {
  import opened Unchecked
  import opened FramePump
  import opened DrainProperties

  /**
    `Init` restarts the simulated time and the counters and aligns the turn
    tracking (next turn to report: 1), but keeps the lock flag, the baseline,
    the time source and the turn callback.
   */
  lemma InitResets(p: Pump, fixedDeltaMillisecond: i32, turnTime: u64, useLockstep: bool)
    requires turnTime > 0
    ensures var r := Init(p, fixedDeltaMillisecond, turnTime, useLockstep);
      && Aligned(r) && GetCurrentTurn(r) == 0
      && r.nextTurn == 1 && r.updateCallCount == 0 && r.currentTurnCount == 0
      && r.currentTime == 0 && r.elapsedTime == 0
      && r.isLockStep == p.isLockStep && r.startTime == p.startTime
      && r.useRealTimeSince == p.useRealTimeSince && r.hasTurnCallback == p.hasTurnCallback
  {
  }

  /** `StartCheckTime` makes the clock reading the baseline and keeps alignment. */
  lemma StartCheckTimeZeroes(p: Pump, clock: u64)
    ensures var r := StartCheckTime(p, clock);
      && CurrentElapsedTime(r, clock) == 0
      && r == p.(startTime := clock, currentTime := 0, elapsedTime := 0)
      && (p.turnTime > 0 && Aligned(p) ==> Aligned(r))
  {
  }

  /**
    `Rollback(e)` moves the baseline so that the elapsed time at this clock
    reading is `e`, restarts the simulated time at 0, keeps the counters, the
    turn tracking and the lock, and keeps alignment.
   */
  lemma RollbackResyncs(p: Pump, clock: u64, e: u64)
    ensures var r := Rollback(p, clock, e);
      && CurrentElapsedTime(r, clock) == e
      && r.elapsedTime == e && r.currentTime == 0
      && r == p.(currentTime := 0, elapsedTime := e, startTime := r.startTime)
      && (p.turnTime > 0 && Aligned(p) ==> Aligned(r))
  {
    SubSubCancel(clock, e);
  }

  /**
    On the monotonic clock, an open update right after `Rollback(e)` at the same
    clock reading replays the simulated time from 0 up to the first multiple of
    the step at or past `e`, and the update counter carries on from where it
    was, one increment per replayed step.
   */
  lemma RollbackReplays(p: Pump, clock: u64, e: u64)
    requires p.useRealTimeSince && !Gated(p)
    requires DrainReady(Rollback(p, clock, e))
    ensures CanUpdate(Rollback(p, clock, e), clock, 0)
    ensures var (r, evs) := UpdateHandler(Rollback(p, clock, e), clock, 0);
      var n := |Updates(evs)|;
      && r.currentTime == n * p.fixedDeltaMillisecond
      && e <= r.currentTime < e + p.fixedDeltaMillisecond
      && r.updateCallCount == Advance32(p.updateCallCount, n)
  {
    var q := Rollback(p, clock, e);
    SubSubCancel(clock, e);
    assert q.(elapsedTime := e) == q;
    DrainEndsAtCeiling(q, TurnOf(e, p.turnTime), 0);
    DrainCounter(q, TurnOf(e, p.turnTime));
  }

  /**
    `SetElapsedTime(a)` makes the elapsed time at this clock reading exactly
    `a`, forwards and backwards alike (the unsigned difference is non-zero
    whenever `a` differs, so only `a` equal to the current value is a no-op);
    it moves only the baseline, to where `Rollback(a)` would put it, and a
    second call with the same value changes nothing.
   */
  lemma SetElapsedTimeExact(p: Pump, clock: u64, a: u64)
    ensures var r := SetElapsedTime(p, clock, a);
      && CurrentElapsedTime(r, clock) == a
      && r == p.(startTime := r.startTime)
      && r.startTime == Rollback(p, clock, a).startTime
      && SetElapsedTime(r, clock, a) == r
  {
    ShiftBaseline(clock, p.startTime, a);
    SubSubCancel(clock, a);
    SubSubCancel(clock, p.startTime);
  }

  /**
    `SkipElapsedTime(s)` sets the observed time to the baseline plus `s` and
    changes nothing else; it is `s` itself only while the baseline is 0.
   */
  lemma SkipElapsedTimeSets(p: Pump, skipTime: u64)
    ensures var r := SkipElapsedTime(p, skipTime);
      && r == p.(elapsedTime := r.elapsedTime)
      && Sub64(r.elapsedTime, p.startTime) == skipTime
      && (p.startTime == 0 <==> r.elapsedTime == skipTime)
  {
  }

  /**
    On the monotonic clock the next open update overwrites the observed time
    from the clock, so a `SkipElapsedTime` before it has no effect on it.
   */
  lemma SkipOverwrittenOnMonotonicClock(p: Pump, skipTime: u64, clock: u64, frameDelta: u64)
    requires p.useRealTimeSince && !Gated(p) && CanUpdate(p, clock, frameDelta)
    ensures CanUpdate(SkipElapsedTime(p, skipTime), clock, frameDelta)
    ensures UpdateHandler(SkipElapsedTime(p, skipTime), clock, frameDelta) == UpdateHandler(p, clock, frameDelta)
  {
    var e := ObservedElapsed(p, clock, frameDelta);
    assert SkipElapsedTime(p, skipTime).(elapsedTime := e) == p.(elapsedTime := e);
  }
}
