# LockstepSyncHandler in Dafny

A model of `LockstepSyncHandler`, the fixed-frame driver of the LockstepSync
Unity package. The repository has two copies of the class. One is
`Runtime/LockstepSyncHandler.cs`. The other is
`LockstepSync/Assets/CustomPackage/Runtime/LockstepSyncHandler.cs`, which adds
a public turn-callback registration and a public `UseMonotonicTime` setter,
and checks the gate inside `SkipFrame`.

Each engine frame calls `UpdateHandler`. It reads the elapsed time in ms,
either from the monotonic clock minus a baseline or as the previous value
plus the frame's delta. It then drains that time in whole fixed steps:

- each step calls the update callback with the turn lag and the running step
  count;
- each time the simulated time reaches the next turn, it calls the optional
  turn callback and sets the lock;
- with the gate in use, the lock turns later updates into no-ops until
  `UnlockStep`.

`Rollback`, `SetElapsedTime` and `SkipElapsedTime` correct the baseline or
the observed time.

The project has these files:

- `unchecked.dfy` (module `Unchecked`) holds C#'s unchecked `ulong`, `uint`
  and `int` arithmetic. It is written out over unbounded integers: `+` and
  `-` wrap modulo 2^64, `x++` on `int` wraps to `int.MinValue`, and `(int)` of
  a `uint` reads the same bits as two's complement.
- `pump.dfy` (module `FramePump`) holds the handler's private fields as a
  value, `Pump`, and every operation as a transition on it. `StepOnce` is one
  iteration of the `while` loop and `Drain` is the whole loop. The two
  callbacks become `Event`s appended to a log.
- `handler.dfy` (module `LockstepSync`) holds class `LockstepSyncHandler`.
  Its fields mirror the C# fields and its methods update them in place. The
  drain is a real `while` loop with invariants. Every method is proved to
  move the fields exactly as the matching `FramePump` transition does, and to
  append exactly its events to `events`. The constant `variant` says which
  copy an object stands for. Members that only the CustomPackage copy has
  require that variant. `Valid()` records that in the Runtime copy there is
  never a turn callback and never a monotonic clock.
- `drain_lemmas.dfy` (module `DrainProperties`) holds what one drain
  guarantees.
- `update_lemmas.dfy` (module `UpdateProperties`) holds what one
  `UpdateHandler` call guarantees, and a worked example.
- `correction_lemmas.dfy` (module `TimeCorrection`) holds the configuration
  and time-correction operations.

The engine clock (`Time.realtimeSinceStartup * 1000`) and the frame delta
(`Time.deltaTime * 1000`) are parameters in ms, `clock` and `frameDelta`.

These behaviours of the code are easy to misread; the model follows the code
as written:

- **`SetElapsedTime(a)` corrects in both directions.** The difference
  `a - CurrentElapsedTime` is a `ulong`, so it is "> 0" whenever `a` differs
  from the current elapsed time. After the call the elapsed time is exactly
  `a`, backwards too. Only an equal value leaves it unchanged.
- **The drain stops at a ceiling, not a floor.** The loop runs while
  `currentTime < elapsedTime`, so it stops at the first multiple of the step
  at or past the observed time. Take a 33 ms step, 250 ms turns and 1000 ms
  observed: that is 31 steps ending at 1023 ms, not 30.
- **The gate is checked once, on entry.** An update that crosses a turn
  boundary still drains its whole backlog, reporting every boundary on the
  way, and only the next update is blocked.
- **`Init` does not clear the lock or the baseline.** `Rollback` restarts the
  simulated time but keeps the step counter, `nextTurn` and the lock.
- **`SkipElapsedTime(s)` adds the absolute baseline to the relative `s`.**
  On the monotonic clock the next update overwrites the result anyway.

## Model

| member | source | states |
|---|---|---|
| `LockstepSync.LockstepSyncHandler.constructor` | Runtime/LockstepSyncHandler.cs:11-28 | every field starts at its C# default (`Fresh`), no callback has been called, and the object satisfies `Valid()` |
| `LockstepSync.LockstepSyncHandler.CurrentElapsedTime` | Runtime/LockstepSyncHandler.cs:32 | the result plus the baseline, as unchecked `ulong`, is the clock reading, so it is the elapsed time since the baseline even across wrap-around |
| `LockstepSync.LockstepSyncHandler.Init` | Runtime/LockstepSyncHandler.cs:62-74 | sets the step, the turn time and the gate flag, restarts the counters and the simulated and observed time, sets the next turn to 1, and changes nothing else in the modelled state (lock, baseline, time source and turn callback are kept) |
| `LockstepSync.LockstepSyncHandler.StartCheckTime` | Runtime/LockstepSyncHandler.cs:79-84 | makes the clock reading the baseline and zeroes both times, so the elapsed time at that reading is 0 |
| `LockstepSync.LockstepSyncHandler.Rollback` | Runtime/LockstepSyncHandler.cs:90-95 | zeroes the simulated time, sets the observed time to `e`, and moves the baseline so the elapsed time at this clock reading is exactly `e` |
| `LockstepSync.LockstepSyncHandler.RegistUpdateTurnCallback` | LockstepSync/Assets/CustomPackage/Runtime/LockstepSyncHandler.cs:87-90 | registers or clears the turn callback, CustomPackage copy only, and changes nothing else |
| `LockstepSync.LockstepSyncHandler.SetUseMonotonicTime` | LockstepSync/Assets/CustomPackage/Runtime/LockstepSyncHandler.cs:30 | switches the time source, CustomPackage copy only, and changes nothing else |
| `LockstepSync.LockstepSyncHandler.SetElapsedTime` | Runtime/LockstepSyncHandler.cs:111-121 | moves only the baseline, after which the elapsed time at this clock reading is exactly the given value |
| `LockstepSync.LockstepSyncHandler.SkipElapsedTime` | Runtime/LockstepSyncHandler.cs:127-130 | sets the observed time to baseline plus skip time (unchecked) and changes nothing else |
| `LockstepSync.LockstepSyncHandler.UnlockStep` | Runtime/LockstepSyncHandler.cs:167-170 | clears the lock and changes nothing else |
| `LockstepSync.LockstepSyncHandler.UpdateHandler` | Runtime/LockstepSyncHandler.cs:97-105 | while the gate is closed, changes nothing; otherwise the fields and the new events are those of `SkipFrame`; the CustomPackage copy, which checks the gate in `SkipFrame`, behaves the same |
| `LockstepSync.LockstepSyncHandler.SkipFrame` | Runtime/LockstepSyncHandler.cs:132-165 | advances the observed time from the clock or by the frame delta, computes the observed turn, and leaves the fields and the log as the drain of that time specifies |
| `LockstepSync.LockstepSyncHandler.DrainBacklog` | Runtime/LockstepSyncHandler.cs:145-164 | the `while` loop ends in the state, and appends exactly the events, that `FramePump.Drain` specifies |
| `LockstepSync.LockstepSyncHandler.SkipFrameStep` | Runtime/LockstepSyncHandler.cs:147-163 | one iteration: step the time, recompute the turn, report the update with the turn lag and the count, count it, and at a boundary report the turn if a callback is registered, set the lock and advance the next turn |
| `FramePump.TurnOfBounds` | Runtime/LockstepSyncHandler.cs:48-51 | below 2^32 turns, the turn of a time is the `r` with `r * turnTime <= time < (r + 1) * turnTime` |
| `FramePump.DrainUnfold` | Runtime/LockstepSyncHandler.cs:145-164 | one iteration followed by the rest of the loop is the whole loop; the loop stays defined and the observed time is not touched |
| `Unchecked.WrapIsModular` | Runtime/LockstepSyncHandler.cs:147-162 | the `ulong` `+`/`-`, the `int` `++` and the `uint` `++` are the true result modulo 2^64 or 2^32 |
| `Unchecked.SubSubCancel` | Runtime/LockstepSyncHandler.cs:94 | `clock - (clock - e)` is `e` in unchecked `ulong`, whichever is larger |
| `Unchecked.ShiftBaseline` | Runtime/LockstepSyncHandler.cs:113-118 | shifting the baseline back by `a - (clock - start)` makes `clock - baseline` equal `a`, in unchecked `ulong` |
| `Unchecked.SignedDifference` | Runtime/LockstepSyncHandler.cs:151 | the unchecked `uint` difference read as `int` is the true signed difference when that fits in an `int` |
| `Unchecked.AdvanceNoWrap` | Runtime/LockstepSyncHandler.cs:153 | `n` increments of the step counter add exactly `n` while `int.MaxValue` is not passed |
| `DrainProperties.StepOnceSummary` | Runtime/LockstepSyncHandler.cs:147-163 | one iteration changes only time, turn, counter, next turn and lock; it reports one update first, advances the next turn by one and latches the lock exactly when the new turn reaches the next turn, and reports that turn exactly then and only with a callback |
| `DrainProperties.DrainKeeps` | Runtime/LockstepSyncHandler.cs:145-164 | the loop changes only simulated time, turn, counter, next turn and lock |
| `DrainProperties.DrainStops` | Runtime/LockstepSyncHandler.cs:145-147 | after `n` reported updates the simulated time is `start + n * step`, at or past the observed time, less than one step past it, and `n` is 0 exactly when the simulated time had caught up |
| `DrainProperties.DrainEndsAtCeiling` | Runtime/LockstepSyncHandler.cs:145-147 | started on a multiple of the step, the loop ends on the least multiple of the step at or past the observed time |
| `DrainProperties.DrainCounter` | Runtime/LockstepSyncHandler.cs:152-153 | the counter is advanced by one (unchecked) per reported update |
| `DrainProperties.DrainUpdateCounts` | Runtime/LockstepSyncHandler.cs:152-153 | the `k`-th update of a drain carries the counter value after `k` increments, so the counts are consecutive with no gap or repeat |
| `DrainProperties.DrainShape` | Runtime/LockstepSyncHandler.cs:152-163 | the log starts with an update; every turn report directly follows an update; without a callback there are only updates; a set lock stays set; a drain that moved the next turn leaves the lock set |
| `DrainProperties.DrainBoundaries` | Runtime/LockstepSyncHandler.cs:155-163 | the next turn grows by at most one per step; the lock is set afterwards exactly when it was set before or a boundary was crossed; with a callback, one turn report per crossing |
| `DrainProperties.StepTurnDelta` | Runtime/LockstepSyncHandler.cs:143-151 | while the turns stay below 2^31, one step's turn lag is the observed turn minus the new simulated turn, and the simulated turn does not go back |
| `DrainProperties.DrainTurnDeltaBound` | Runtime/LockstepSyncHandler.cs:143-151 | no update's turn lag exceeds the observed turn minus the turn the drain started in |
| `DrainProperties.DrainTurnDeltasOrdered` | Runtime/LockstepSyncHandler.cs:143-151 | the turn lags reported within one drain never increase |
| `DrainProperties.StepAligned` | Runtime/LockstepSyncHandler.cs:148-162 | from an aligned state with a step no longer than a turn and turn numbers below `uint.MaxValue`, the new turn is the true quotient, a crossed boundary is exactly the next turn, and alignment is kept |
| `DrainProperties.DrainNextTurn` | Runtime/LockstepSyncHandler.cs:155-163 | from an aligned state with a step no longer than a turn, the drain ends aligned, with the next turn one past the turn it ends in, or unchanged when no boundary was reached |
| `DrainProperties.DrainTurnsConsecutive` | Runtime/LockstepSyncHandler.cs:155-163 | from an aligned state with a step no longer than a turn, the turn callback receives exactly `nextTurn, nextTurn + 1, ...` up to the final next turn, in order, with no skip or repeat; without a callback nothing |
| `UpdateProperties.UpdateReportsIff` | Runtime/LockstepSyncHandler.cs:97-145 | an update reports nothing if and only if the gate is closed or the simulated time has already reached the observed time |
| `UpdateProperties.UpdateCatchesUp` | Runtime/LockstepSyncHandler.cs:132-153 | an open update takes the observed time from the clock minus the baseline or adds the frame delta, then runs the simulated time to less than one step past it, one count per step, changing no configuration or baseline |
| `UpdateProperties.NoTurnEventsWithoutCallback` | Runtime/LockstepSyncHandler.cs:155-160 | without a registered turn callback (always so in the Runtime copy) an update reports updates only |
| `LockstepSync.RuntimeReportsUpdatesOnly` | Runtime/LockstepSyncHandler.cs:15 | for a valid handler of the Runtime copy, whose turn callback is private and never assigned and whose time-source setter is private and never called, an open update takes its time from the frame delta, and any update reports `Update`s only |
| `UpdateProperties.LockLatches` | Runtime/LockstepSyncHandler.cs:97-165 | with the gate in use, an open update still drains its whole backlog; if it crossed a boundary the gate is closed, and every later update, for any clock or delta, changes nothing and reports nothing |
| `UpdateProperties.UpdateTurnsConsecutive` | Runtime/LockstepSyncHandler.cs:132-165 | from an aligned state with a step no longer than a turn, an open update reports turns `nextTurn, nextTurn + 1, ...` up to the turn it ends in, once each, and stays aligned |
| `UpdateProperties.UnlockResumes` | Runtime/LockstepSyncHandler.cs:167-170 | releasing touches only the lock and is idempotent; the next update resumes at the same simulated time with consecutive counts, so no step is lost or repeated |
| `UpdateProperties.ExampleFirstSecond` | Runtime/LockstepSyncHandler.cs:132-165 | a 33 ms step with 250 ms turns, gated, with a turn callback, after one 1000 ms update: 31 steps, time 1023, count 31, turns 1 to 4, gate closed |
| `TimeCorrection.InitResets` | Runtime/LockstepSyncHandler.cs:62-74 | after `Init` the state is aligned with current turn 0 and next turn 1, counters and times are zero, and the lock, baseline, time source and callback are kept |
| `TimeCorrection.StartCheckTimeZeroes` | Runtime/LockstepSyncHandler.cs:79-84 | the elapsed time at the start reading is 0, only baseline and times change, and alignment is kept |
| `TimeCorrection.RollbackResyncs` | Runtime/LockstepSyncHandler.cs:90-95 | the elapsed time at this clock reading is exactly `e`, the simulated time restarts at 0, counters, next turn and lock are kept, and alignment is kept |
| `TimeCorrection.RollbackReplays` | Runtime/LockstepSyncHandler.cs:90-95 | on the monotonic clock, the next open update at the same reading replays from 0 to the least multiple of the step at or past `e`, with the counter carrying on |
| `TimeCorrection.SetElapsedTimeExact` | Runtime/LockstepSyncHandler.cs:111-121 | the elapsed time becomes exactly `a`, forwards or backwards; only the baseline moves, to where `Rollback(a)` would put it; repeating the call changes nothing |
| `TimeCorrection.SkipElapsedTimeSets` | Runtime/LockstepSyncHandler.cs:127-130 | only the observed time changes, it is the skip time past the baseline, and it equals the skip time exactly when the baseline is 0 |
| `TimeCorrection.SkipOverwrittenOnMonotonicClock` | Runtime/LockstepSyncHandler.cs:127-137 | on the monotonic clock, the next open update is the same with or without a preceding `SkipElapsedTime` |

## Left out

- `GetTurn(double)`: floating-point division and a cast from `double`. Only the integer turn computations are modelled.
- `Init`'s `(int)(fixedFrameTime * 1000)`: the step is given directly in whole ms. The `double` step duration that the update callback receives is not recorded in the `Update` event.
- `Time.realtimeSinceStartup` and `Time.deltaTime` with their `double` to `ulong` conversions: these become the ms parameters `clock` and `frameDelta`.
- `Debug.Log` calls in `SetElapsedTime`: logging only.
- The delegates: the update callback becomes an `Update` event, and the turn callback becomes a flag plus an `UpdateTurn` event. A null update callback, which throws, is not modelled. The callbacks cannot re-enter the handler in the model.
- The `UpdateCallCount` and `UseRealTimeSince` getters: plain field reads, available through `State()`.
- The Runtime copy's `int` turn time is cast to `ulong` before every division, so the model keeps it as a `ulong`. A negative turn time, which the cast turns into a huge divisor, is not modelled.
- `LockstepSync.LockstepSyncHandler.SkipFrame`: requires a positive turn time, a positive step, and an observed time at least one step below 2^64. Otherwise the source divides by zero, loops forever (a zero step) or may wrap `currentTime` and never leave the loop. `UpdateHandler` and `DrainBacklog` carry the same requirement.
- `LockstepSync.LockstepSyncHandler.GetCurrentTurn`: has no contract of its own. Its meaning is stated by `FramePump.TurnOfBounds`.
- `DrainProperties.DrainBoundaries`: stated only while `nextTurn` cannot pass `uint.MaxValue` within the drain.
- `DrainProperties.DrainTurnDeltaBound`: stated only while the observed and simulated turns stay below 2^31, where the `int` lag cannot wrap.
- `DrainProperties.DrainTurnDeltasOrdered`: stated under the same bound as `DrainTurnDeltaBound`.
- `DrainProperties.DrainTurnsConsecutive`: stated only for a step no longer than a turn and turn numbers below `uint.MaxValue`. A longer step can skip turns.
- `DrainProperties.DrainNextTurn`: stated under the same bounds as `DrainTurnsConsecutive`.
- `UpdateProperties.UpdateTurnsConsecutive`: stated under the same bounds as `DrainTurnsConsecutive`.
- `Init` also replaces the update callback. The model has a single event log, so a new update callback registered through `Init` is not visible in it.
- `DrainProperties.StepTurnDelta`: stated only while the observed and simulated turns stay below 2^31, as for `DrainTurnDeltaBound`.
- `DrainProperties.StepAligned`: stated only for a step no longer than a turn and turn numbers below `uint.MaxValue`, as for `DrainTurnsConsecutive`.
- `LockstepSync/Assets/SampleScene.cs` and `LockstepSync/Assets/Setting.cs` are not part of this model. They are usage examples around the handler.
- Concurrency: the handler is single-threaded and polled, so there is nothing to model.
