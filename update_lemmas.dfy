/**
  What one call of `UpdateHandler` does, end to end: the gate, the time
  source, the catch-up of the simulated time, the turn callbacks and the lock.
 */
module UpdateProperties {
  import opened Unchecked
  import opened FramePump
  import opened DrainProperties

  /**
    An update reports nothing exactly when the gate is closed or the simulated
    time has already caught up with the observed time.
   */
  lemma UpdateReportsIff(p: Pump, clock: u64, frameDelta: u64)
    requires CanUpdate(p, clock, frameDelta)
    ensures UpdateHandler(p, clock, frameDelta).1 == []
        <==> Gated(p) || p.currentTime >= ObservedElapsed(p, clock, frameDelta)
  {
    if !Gated(p) {
      var e := ObservedElapsed(p, clock, frameDelta);
      DrainStops(p.(elapsedTime := e), TurnOf(e, p.turnTime));
    }
  }

  /**
    An open update takes the observed time from the clock (minus the baseline)
    or adds the frame delta, then runs the simulated time up to the first
    multiple of the step at or past it, one `Update` per step, and changes no
    other configuration or baseline.
   */
  lemma UpdateCatchesUp(p: Pump, clock: u64, frameDelta: u64)
    requires CanUpdate(p, clock, frameDelta) && !Gated(p)
    ensures var (r, evs) := UpdateHandler(p, clock, frameDelta);
      var n := |Updates(evs)|;
      && (p.useRealTimeSince ==> Add64(r.elapsedTime, p.startTime) == clock)
      && (!p.useRealTimeSince ==> r.elapsedTime == Add64(p.elapsedTime, frameDelta))
      && r.currentTime == p.currentTime + n * p.fixedDeltaMillisecond
      && r.currentTime >= r.elapsedTime
      && (n > 0 ==> r.currentTime - p.fixedDeltaMillisecond < r.elapsedTime)
      && r.updateCallCount == Advance32(p.updateCallCount, n)
      && DrainFrame(p.(elapsedTime := r.elapsedTime), r)
  {
    var e := ObservedElapsed(p, clock, frameDelta);
    var p' := p.(elapsedTime := e);
    DrainStops(p', TurnOf(e, p.turnTime));
    DrainCounter(p', TurnOf(e, p.turnTime));
    DrainKeeps(p', TurnOf(e, p.turnTime));
  }

  /**
    Without a registered turn callback (always so in the Runtime copy) an
    update reports `Update`s only.
   */
  lemma NoTurnEventsWithoutCallback(p: Pump, clock: u64, frameDelta: u64)
    requires CanUpdate(p, clock, frameDelta) && !p.hasTurnCallback
    ensures var evs := UpdateHandler(p, clock, frameDelta).1;
      forall i :: 0 <= i < |evs| ==> evs[i].Update?
  {
    if !Gated(p) {
      var e := ObservedElapsed(p, clock, frameDelta);
      DrainShape(p.(elapsedTime := e), TurnOf(e, p.turnTime));
    }
  }

  /**
    The gate is checked once, on entry: an open update drains its whole backlog
    even when it crosses a turn boundary on the way.  With the gate in use, a
    crossed boundary closes it, and from then on every update, whatever the
    clock or the frame delta, changes nothing and reports nothing.
   */
  lemma LockLatches(p: Pump, clock: u64, frameDelta: u64)
    requires CanUpdate(p, clock, frameDelta) && p.useLockstep
    ensures var (r, evs) := UpdateHandler(p, clock, frameDelta);
      && (!Gated(p) ==> r.currentTime >= r.elapsedTime)
      && (r.nextTurn != p.nextTurn ==> Gated(r))
      && (Gated(r) ==> forall c: u64, d: u64 :: UpdateHandler(r, c, d) == (r, []))
  {
    if !Gated(p) {
      var e := ObservedElapsed(p, clock, frameDelta);
      var p' := p.(elapsedTime := e);
      DrainShape(p', TurnOf(e, p.turnTime));
      DrainStops(p', TurnOf(e, p.turnTime));
      DrainKeeps(p', TurnOf(e, p.turnTime));
    }
  }

  /**
    From an aligned state, with a step no longer than a turn, an open update
    reports the turns `nextTurn, nextTurn + 1, ...` up to the turn it ends in,
    each once and in order, and stays aligned.  (Stated while turn numbers stay
    below `uint.MaxValue`.)
   */
  lemma UpdateTurnsConsecutive(p: Pump, clock: u64, frameDelta: u64)
    requires CanSkipFrame(p, clock, frameDelta) && !Gated(p) && Aligned(p)
    requires p.fixedDeltaMillisecond <= p.turnTime
    requires (ObservedElapsed(p, clock, frameDelta) + p.fixedDeltaMillisecond) / p.turnTime < TWO_32 - 1
    ensures var (r, evs) := UpdateHandler(p, clock, frameDelta);
      var last := r.currentTime / p.turnTime;
      && r.turnTime == p.turnTime && Aligned(r)
      && r.nextTurn == (if p.nextTurn <= last then last + 1 else p.nextTurn)
      && Turns(evs) == (if p.hasTurnCallback then Range(p.nextTurn, r.nextTurn) else [])
  {
    var e := ObservedElapsed(p, clock, frameDelta);
    DrainNextTurn(p.(elapsedTime := e), TurnOf(e, p.turnTime));
    DrainTurnsConsecutive(p.(elapsedTime := e), TurnOf(e, p.turnTime));
  }

  /**
    Releasing the lock touches nothing else, so the next update resumes from
    the same simulated time with the same counter: no step is lost or repeated.
    Releasing twice is releasing once.
   */
  lemma UnlockResumes(p: Pump, clock: u64, frameDelta: u64)
    requires CanSkipFrame(p, clock, frameDelta)
    ensures var u := UnlockStep(p);
      && !Gated(u) && UnlockStep(u) == u && u == p.(isLockStep := false)
      && var (r, evs) := UpdateHandler(u, clock, frameDelta);
         var n := |Updates(evs)|;
         && r.currentTime == p.currentTime + n * p.fixedDeltaMillisecond
         && forall k :: 0 <= k < n ==> Updates(evs)[k].updateCount == Advance32(p.updateCallCount, k)
  {
    var u := UnlockStep(p);
    var e := ObservedElapsed(u, clock, frameDelta);
    DrainStops(u.(elapsedTime := e), TurnOf(e, p.turnTime));
    DrainUpdateCounts(u.(elapsedTime := e), TurnOf(e, p.turnTime));
  }

  /** `n * 33` lies in `[1000, 1033)` only for `n == 31`. */
  lemma StepsToCover1000(n: nat)
    requires 1000 <= n * 33 < 1033
    ensures n == 31
  {
    MulLessCancel(n, 32, 33);
    MulLessCancel(30, n, 33);
  }

  /** The example's state once the update has observed 1000 ms. */
  const ExampleStart: Pump := Pump(33, 250, true, false, true, 0, 1000, 0, 0, 0, 1, false)

  lemma ExampleSteps()
    ensures var (r, evs) := Drain(ExampleStart, 4);
      |Updates(evs)| == 31 && r.updateCallCount == 31 && r.currentTime == 1023
  {
    var (r, evs) := Drain(ExampleStart, 4);
    DrainEndsAtCeiling(ExampleStart, 4, 0);
    StepsToCover1000(|Updates(evs)|);
    DrainCounter(ExampleStart, 4);
    AdvanceNoWrap(0, 31);
  }

  lemma ExampleTurns()
    ensures var (r, evs) := Drain(ExampleStart, 4);
      Turns(evs) == [1, 2, 3, 4] && r.nextTurn == 5 && Gated(r) && r.elapsedTime == 1000
  {
    var (r, evs) := Drain(ExampleStart, 4);
    ExampleSteps();
    DrainNextTurn(ExampleStart, 4);
    DrainTurnsConsecutive(ExampleStart, 4);
    DrainShape(ExampleStart, 4);
    DrainKeeps(ExampleStart, 4);
    assert Range(1, 5) == [1, 2, 3, 4];
  }

  /**
    A 33 ms step, 250 ms turns and the gate in use, freshly initialised with a
    turn callback: one update that observes 1000 ms runs 31 steps (up to
    1023 ms, the first multiple of 33 at or past 1000), reports turns 1 to 4,
    and leaves the gate closed.
   */
  lemma ExampleFirstSecond(clock: u64)
    ensures var p := RegistUpdateTurnCallback(Init(Fresh, 33, 250, true), true);
      var (r, evs) := UpdateHandler(p, clock, 1000);
      && |Updates(evs)| == 31 && r.updateCallCount == 31
      && r.currentTime == 1023 && r.elapsedTime == 1000
      && Turns(evs) == [1, 2, 3, 4] && r.nextTurn == 5
      && Gated(r)
  {
    var p := RegistUpdateTurnCallback(Init(Fresh, 33, 250, true), true);
    assert p.(elapsedTime := 1000) == ExampleStart;
    assert UpdateHandler(p, clock, 1000) == Drain(ExampleStart, 4);
    ExampleSteps();
    ExampleTurns();
  }
}
