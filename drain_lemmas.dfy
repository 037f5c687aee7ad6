/**
  What the drain loop of `SkipFrame` guarantees: where it stops, how the
  update counter and the callbacks advance, how turn boundaries are detected,
  and how the lock gate behaves across updates.
 */
module DrainProperties {
  import opened Unchecked
  import opened FramePump

  /** The `Update` events of a log, in order. */
  function Updates(evs: seq<Event>): (r: seq<Event>)
    ensures |r| <= |evs|
    ensures forall i :: 0 <= i < |r| ==> r[i].Update?
  {
    if evs == [] then []
    else (if evs[0].Update? then [evs[0]] else []) + Updates(evs[1..])
  }

  /** The turn numbers passed to the turn callback, in order. */
  function Turns(evs: seq<Event>): (r: seq<int>)
    ensures |r| <= |evs|
  {
    if evs == [] then []
    else (if evs[0].UpdateTurn? then [evs[0].turnCount as int] else []) + Turns(evs[1..])
  }

  /** The consecutive integers `lo, lo + 1, ..., hi - 1`. */
  function Range(lo: int, hi: int): (r: seq<int>)
    ensures |r| == if lo < hi then hi - lo else 0
    decreases hi - lo
  {
    if lo >= hi then [] else [lo] + Range(lo + 1, hi)
  }

  lemma {:induction false} UpdatesAppend(a: seq<Event>, b: seq<Event>)
    ensures Updates(a + b) == Updates(a) + Updates(b)
  {
    if a != [] {
      assert (a + b)[1..] == a[1..] + b;
      UpdatesAppend(a[1..], b);
    } else {
      assert a + b == b;
    }
  }

  lemma {:induction false} TurnsAppend(a: seq<Event>, b: seq<Event>)
    ensures Turns(a + b) == Turns(a) + Turns(b)
  {
    if a != [] {
      assert (a + b)[1..] == a[1..] + b;
      TurnsAppend(a[1..], b);
    } else {
      assert a + b == b;
    }
  }

  /** Integer division by a positive divisor is monotone. */
  lemma DivMonotone(x: nat, y: nat, t: nat)
    requires x <= y && t > 0
    ensures x / t <= y / t
  {
    var a, b := x / t, y / t;
    assert a * t <= x && y < b * t + t;
    MulLessCancel(a, b + 1, t);
  }

  lemma MulLessCancel(a: int, b: int, t: int)
    requires t > 0 && a * t < b * t
    ensures a < b
  {
    assert (b - a) * t > 0;
  }

  /** Adding at most one turn's worth of time moves the turn on by at most one. */
  lemma DivStep(x: nat, s: nat, t: nat)
    requires 0 < s <= t
    ensures x / t <= (x + s) / t <= x / t + 1
  {
    DivMonotone(x, x + s, t);
    var a, b := x / t, (x + s) / t;
    assert b * t <= x + s < a * t + t + t;
    assert a * t + t + t == (a + 2) * t;
    MulLessCancel(b, a + 2, t);
  }

  /** `n + 1` increments are one increment followed by `n` more. */
  lemma {:induction false} AdvanceShift(x: i32, n: nat)
    ensures Advance32(Inc32(x), n) == Advance32(x, n + 1)
  {
    if n > 0 {
      AdvanceShift(x, n - 1);
    }
  }

  /** What one iteration does, in the terms the lemmas below need. */
  lemma StepOnceSummary(p: Pump, elapsedTurn: u32)
    requires DrainReady(p) && p.currentTime < p.elapsedTime
    ensures var (q, first) := StepOnce(p, elapsedTurn);
      var crossed := q.currentTurnCount >= p.nextTurn;
      && q == p.(currentTime := p.currentTime + p.fixedDeltaMillisecond,
                 currentTurnCount := TurnOf(p.currentTime + p.fixedDeltaMillisecond, p.turnTime),
                 updateCallCount := Inc32(p.updateCallCount),
                 nextTurn := q.nextTurn, isLockStep := q.isLockStep)
      && first[0] == Update(AsInt32(Sub32(elapsedTurn, q.currentTurnCount)), p.updateCallCount)
      && Updates(first) == [first[0]]
      && (crossed ==> q.nextTurn == IncU32(p.nextTurn) && q.isLockStep)
      && (!crossed ==> q.nextTurn == p.nextTurn && q.isLockStep == p.isLockStep)
      && Turns(first) == (if crossed && p.hasTurnCallback then [q.currentTurnCount as int] else [])
      && (|first| == 1 || (|first| == 2 && first[1].UpdateTurn? && p.hasTurnCallback))
  {
    var (q, first) := StepOnce(p, elapsedTurn);
    if |first| == 2 {
      assert first == [first[0]] + [first[1]];
      TurnsAppend([first[0]], [first[1]]);
    }
  }

  /** `c + s` followed by `m` more steps of `s` is `m + 1` steps of `s`. */
  lemma StepMul(c: int, m: nat, s: int)
    ensures c + s + m * s == c + (m + 1) * s
  {
  }

  /** The drain changes only the simulated time, the counters, the next turn and the lock flag. */
  predicate DrainFrame(p: Pump, r: Pump)
  {
    r == p.(currentTime := r.currentTime, currentTurnCount := r.currentTurnCount,
            updateCallCount := r.updateCallCount, nextTurn := r.nextTurn, isLockStep := r.isLockStep)
  }

  lemma {:induction false} DrainKeeps(p: Pump, elapsedTurn: u32)
    requires DrainReady(p)
    ensures DrainFrame(p, Drain(p, elapsedTurn).0)
    decreases p.elapsedTime - p.currentTime
  {
    if p.currentTime < p.elapsedTime {
      DrainUnfold(p, elapsedTurn);
      StepOnceSummary(p, elapsedTurn);
      DrainKeeps(StepOnce(p, elapsedTurn).0, elapsedTurn);
    }
  }

  /**
    The loop stops at the first `currentTime + n * step` that is not below the
    observed elapsed time: a ceiling, not a floor.  It runs zero times exactly
    when the simulated time has already caught up, and emits one `Update` per
    iteration.
   */
  lemma {:induction false} DrainStops(p: Pump, elapsedTurn: u32)
    requires DrainReady(p)
    ensures var r := Drain(p, elapsedTurn).0;
      var n := |Updates(Drain(p, elapsedTurn).1)|;
      && r.currentTime == p.currentTime + n * p.fixedDeltaMillisecond
      && r.currentTime >= p.elapsedTime
      && (n == 0 <==> p.currentTime >= p.elapsedTime)
      && (n > 0 ==> r.currentTime - p.fixedDeltaMillisecond < p.elapsedTime)
    decreases p.elapsedTime - p.currentTime
  {
    if p.currentTime < p.elapsedTime {
      var (q, first) := StepOnce(p, elapsedTurn);
      var rest := Drain(q, elapsedTurn).1;
      DrainUnfold(p, elapsedTurn);
      StepOnceSummary(p, elapsedTurn);
      DrainStops(q, elapsedTurn);
      UpdatesAppend(first, rest);
      StepMul(p.currentTime, |Updates(rest)|, p.fixedDeltaMillisecond);
    }
  }

  /** The arithmetic behind `DrainEndsAtCeiling`. */
  lemma CeilingArith(c: int, e: int, s: int, k: nat, n: nat, r: int)
    requires s > 0 && c == k * s && c <= e
    requires r == c + n * s && r >= e && (n == 0 <==> c >= e) && (n > 0 ==> r - s < e)
    ensures r == (k + n) * s && e <= r < e + s
  {
    assert k * s + n * s == (k + n) * s;
  }

  /**
    Started at the `k`-th multiple of the step, not above the observed time,
    the loop ends at the least multiple of the step that is not below it.
   */
  lemma DrainEndsAtCeiling(p: Pump, elapsedTurn: u32, k: nat)
    requires DrainReady(p)
    requires p.currentTime == k * p.fixedDeltaMillisecond <= p.elapsedTime
    ensures var r := Drain(p, elapsedTurn).0;
      && r.currentTime == (k + |Updates(Drain(p, elapsedTurn).1)|) * p.fixedDeltaMillisecond
      && p.elapsedTime <= r.currentTime < p.elapsedTime + p.fixedDeltaMillisecond
  {
    DrainStops(p, elapsedTurn);
    CeilingArith(p.currentTime, p.elapsedTime, p.fixedDeltaMillisecond, k,
                 |Updates(Drain(p, elapsedTurn).1)|, Drain(p, elapsedTurn).0.currentTime);
  }

  /** The counter grows by one increment per iteration. */
  lemma {:induction false} DrainCounter(p: Pump, elapsedTurn: u32)
    requires DrainReady(p)
    ensures Drain(p, elapsedTurn).0.updateCallCount
         == Advance32(p.updateCallCount, |Updates(Drain(p, elapsedTurn).1)|)
    decreases p.elapsedTime - p.currentTime
  {
    if p.currentTime < p.elapsedTime {
      var (q, first) := StepOnce(p, elapsedTurn);
      var rest := Drain(q, elapsedTurn).1;
      DrainUnfold(p, elapsedTurn);
      StepOnceSummary(p, elapsedTurn);
      DrainCounter(q, elapsedTurn);
      UpdatesAppend(first, rest);
      AdvanceShift(p.updateCallCount, |Updates(rest)|);
    }
  }

  /** The `k`-th `Update` of one drain carries the counter value after `k` increments. */
  lemma {:induction false} DrainUpdateCounts(p: Pump, elapsedTurn: u32)
    requires DrainReady(p)
    ensures var u := Updates(Drain(p, elapsedTurn).1);
      forall k :: 0 <= k < |u| ==> u[k].updateCount == Advance32(p.updateCallCount, k)
    decreases p.elapsedTime - p.currentTime
  {
    if p.currentTime < p.elapsedTime {
      var (q, first) := StepOnce(p, elapsedTurn);
      var rest := Drain(q, elapsedTurn).1;
      DrainUnfold(p, elapsedTurn);
      StepOnceSummary(p, elapsedTurn);
      DrainUpdateCounts(q, elapsedTurn);
      UpdatesAppend(first, rest);
      var u := Updates(first + rest);
      assert u == [first[0]] + Updates(rest);
      forall k | 0 <= k < |u|
        ensures u[k].updateCount == Advance32(p.updateCallCount, k)
      {
        if k > 0 {
          assert u[k] == Updates(rest)[k - 1];
          AdvanceShift(p.updateCallCount, k - 1);
        }
      }
    }
  }

  /**
    Every iteration first reports its `Update`, then checks the turn boundary,
    so a drain's log starts with an `Update`, each `UpdateTurn` directly follows
    an `Update` (at most one boundary per step), and without a registered turn
    callback the log holds `Update`s only.  The lock flag, once set, is never
    cleared by the drain, and a drain that moved `nextTurn` leaves it set.
   */
  lemma {:induction false} DrainShape(p: Pump, elapsedTurn: u32)
    requires DrainReady(p)
    ensures var (r, evs) := Drain(p, elapsedTurn);
      && (evs != [] ==> evs[0].Update?)
      && (forall i :: 0 <= i < |evs| && evs[i].UpdateTurn? ==> 0 < i && evs[i - 1].Update?)
      && (!p.hasTurnCallback ==> forall i :: 0 <= i < |evs| ==> evs[i].Update?)
      && (p.isLockStep ==> r.isLockStep)
      && (r.nextTurn != p.nextTurn ==> r.isLockStep)
    decreases p.elapsedTime - p.currentTime
  {
    if p.currentTime < p.elapsedTime {
      var (q, first) := StepOnce(p, elapsedTurn);
      DrainUnfold(p, elapsedTurn);
      StepOnceSummary(p, elapsedTurn);
      DrainShape(q, elapsedTurn);
      var rest := Drain(q, elapsedTurn).1;
      var evs := first + rest;
      forall i | 0 <= i < |evs| && evs[i].UpdateTurn?
        ensures 0 < i && evs[i - 1].Update?
      {
        if i >= |first| {
          assert evs[i] == rest[i - |first|];
          if i > |first| {
            assert evs[i - 1] == rest[i - 1 - |first|];
          }
        }
      }
      if !p.hasTurnCallback {
        forall i | 0 <= i < |evs|
          ensures evs[i].Update?
        {
          if i >= |first| {
            assert evs[i] == rest[i - |first|];
          }
        }
      }
    }
  }

  /**
    Each step crosses at most one boundary; each crossing raises `nextTurn` by
    exactly one and latches the lock, whether or not the gate is in use, and
    reaches the turn callback once when one is registered.  (Stated while
    `nextTurn` cannot pass `uint.MaxValue` within the drain.)
   */
  lemma {:induction false} DrainBoundaries(p: Pump, elapsedTurn: u32)
    requires DrainReady(p)
    requires p.nextTurn + |Updates(Drain(p, elapsedTurn).1)| < TWO_32
    ensures var (r, evs) := Drain(p, elapsedTurn);
      && p.nextTurn <= r.nextTurn <= p.nextTurn + |Updates(evs)|
      && r.isLockStep == (p.isLockStep || r.nextTurn > p.nextTurn)
      && (p.hasTurnCallback ==> |Turns(evs)| == r.nextTurn - p.nextTurn)
    decreases p.elapsedTime - p.currentTime
  {
    if p.currentTime < p.elapsedTime {
      var (q, first) := StepOnce(p, elapsedTurn);
      var rest := Drain(q, elapsedTurn).1;
      DrainUnfold(p, elapsedTurn);
      StepOnceSummary(p, elapsedTurn);
      UpdatesAppend(first, rest);
      TurnsAppend(first, rest);
      DrainBoundaries(q, elapsedTurn);
    }
  }

  /** One step's turn delta, while the turns stay below 2^31. */
  lemma StepTurnDelta(p: Pump, elapsedTurn: u32)
    requires DrainReady(p) && p.currentTime < p.elapsedTime
    requires elapsedTurn < TWO_31
    requires (p.elapsedTime + p.fixedDeltaMillisecond) / p.turnTime < TWO_31
    ensures var (q, first) := StepOnce(p, elapsedTurn);
      && Updates(first) == [first[0]]
      && first[0].turnDelta == elapsedTurn - q.currentTime / p.turnTime
      && p.currentTime / p.turnTime <= q.currentTime / p.turnTime
      && q.elapsedTime == p.elapsedTime && q.turnTime == p.turnTime
      && q.fixedDeltaMillisecond == p.fixedDeltaMillisecond
  {
    StepOnceSummary(p, elapsedTurn);
    var q := StepOnce(p, elapsedTurn).0;
    var t := p.turnTime;
    DivMonotone(q.currentTime, p.elapsedTime + p.fixedDeltaMillisecond, t);
    DivMonotone(p.currentTime, q.currentTime, t);
    SignedDifference(elapsedTurn, q.currentTurnCount);
  }

  /**
    With the observed and simulated turns below 2^31, each `Update`'s turn delta
    is the observed turn minus the turn of that step, so none exceeds the
    observed turn minus the turn the drain started in.
   */
  lemma {:induction false} DrainTurnDeltaBound(p: Pump, elapsedTurn: u32)
    requires DrainReady(p)
    requires elapsedTurn < TWO_31
    requires (p.elapsedTime + p.fixedDeltaMillisecond) / p.turnTime < TWO_31
    ensures var u := Updates(Drain(p, elapsedTurn).1);
      forall k :: 0 <= k < |u| ==> u[k].turnDelta <= elapsedTurn - p.currentTime / p.turnTime
    decreases p.elapsedTime - p.currentTime
  {
    if p.currentTime < p.elapsedTime {
      var (q, first) := StepOnce(p, elapsedTurn);
      var rest := Drain(q, elapsedTurn).1;
      DrainUnfold(p, elapsedTurn);
      StepTurnDelta(p, elapsedTurn);
      DrainTurnDeltaBound(q, elapsedTurn);
      UpdatesAppend(first, rest);
      var u := Updates(first + rest);
      var v := Updates(rest);
      assert u == [first[0]] + v;
      forall k | 0 <= k < |u|
        ensures u[k].turnDelta <= elapsedTurn - p.currentTime / p.turnTime
      {
        if k > 0 {
          assert u[k] == v[k - 1];
        }
      }
    }
  }

  /** Prepending an update whose lag bounds every later lag keeps the lags non-increasing. */
  lemma ConsOrdered(x: Event, v: seq<Event>)
    requires x.Update? && forall k :: 0 <= k < |v| ==> v[k].Update?
    requires forall k :: 0 <= k < |v| ==> v[k].turnDelta <= x.turnDelta
    requires forall i, j :: 0 <= i < j < |v| ==> v[i].turnDelta >= v[j].turnDelta
    ensures var u := [x] + v;
      forall i, j :: 0 <= i < j < |u| ==> u[i].turnDelta >= u[j].turnDelta
  {
    var u := [x] + v;
    forall i, j | 0 <= i < j < |u|
      ensures u[i].turnDelta >= u[j].turnDelta
    {
      assert u[j] == v[j - 1];
      if i > 0 {
        assert u[i] == v[i - 1];
      }
    }
  }

  /** Under the same bounds, the turn deltas of one drain never increase. */
  lemma {:induction false} DrainTurnDeltasOrdered(p: Pump, elapsedTurn: u32)
    requires DrainReady(p)
    requires elapsedTurn < TWO_31
    requires (p.elapsedTime + p.fixedDeltaMillisecond) / p.turnTime < TWO_31
    ensures var u := Updates(Drain(p, elapsedTurn).1);
      forall i, j :: 0 <= i < j < |u| ==> u[i].turnDelta >= u[j].turnDelta
    decreases p.elapsedTime - p.currentTime
  {
    if p.currentTime < p.elapsedTime {
      var (q, first) := StepOnce(p, elapsedTurn);
      var rest := Drain(q, elapsedTurn).1;
      DrainUnfold(p, elapsedTurn);
      StepTurnDelta(p, elapsedTurn);
      DrainTurnDeltaBound(q, elapsedTurn);
      DrainTurnDeltasOrdered(q, elapsedTurn);
      UpdatesAppend(first, rest);
      ConsOrdered(first[0], Updates(rest));
    }
  }

  /** The simulated turn is behind the next turn to report. */
  predicate Aligned(p: Pump)
    requires p.turnTime > 0
  {
    p.currentTime / p.turnTime < p.nextTurn
  }

  /**
    One step from an aligned state, with a step no longer than a turn: the new
    turn is the true quotient, a boundary crossed is exactly `nextTurn`, and
    alignment is kept.
   */
  lemma StepAligned(p: Pump, elapsedTurn: u32)
    requires DrainReady(p) && p.currentTime < p.elapsedTime && Aligned(p)
    requires p.fixedDeltaMillisecond <= p.turnTime
    requires (p.elapsedTime + p.fixedDeltaMillisecond) / p.turnTime < TWO_32 - 1
    ensures var q := StepOnce(p, elapsedTurn).0;
      && q.turnTime == p.turnTime && Aligned(q)
      && q.currentTurnCount == q.currentTime / p.turnTime
      && (q.currentTurnCount >= p.nextTurn ==> q.currentTurnCount == p.nextTurn && q.nextTurn == p.nextTurn + 1)
      && (q.currentTurnCount < p.nextTurn ==> q.nextTurn == p.nextTurn)
  {
    StepOnceSummary(p, elapsedTurn);
    var t, c := p.turnTime, p.currentTime + p.fixedDeltaMillisecond;
    DivMonotone(c, p.elapsedTime + p.fixedDeltaMillisecond, t);
    DivStep(p.currentTime, p.fixedDeltaMillisecond, t);
  }

  /**
    With a step no longer than a turn, starting aligned, the drain ends aligned
    with `nextTurn` one past the turn it ends in, or unchanged if no boundary
    was reached.  (Stated while turn numbers stay below `uint.MaxValue`.)
   */
  lemma {:induction false} DrainNextTurn(p: Pump, elapsedTurn: u32)
    requires DrainReady(p) && Aligned(p)
    requires p.fixedDeltaMillisecond <= p.turnTime
    requires (p.elapsedTime + p.fixedDeltaMillisecond) / p.turnTime < TWO_32 - 1
    ensures var r := Drain(p, elapsedTurn).0;
      var last := r.currentTime / p.turnTime;
      && r.turnTime == p.turnTime && Aligned(r)
      && r.nextTurn == (if p.nextTurn <= last then last + 1 else p.nextTurn)
    decreases p.elapsedTime - p.currentTime
  {
    DrainKeeps(p, elapsedTurn);
    if p.currentTime < p.elapsedTime {
      var q := StepOnce(p, elapsedTurn).0;
      var r := Drain(q, elapsedTurn).0;
      DrainUnfold(p, elapsedTurn);
      StepAligned(p, elapsedTurn);
      DrainStops(q, elapsedTurn);
      DivMonotone(q.currentTime, r.currentTime, p.turnTime);
      DrainNextTurn(q, elapsedTurn);
    }
  }

  /** One aligned step reports, at most, the turn `nextTurn`, and then moves `nextTurn` on by one. */
  lemma StepTurns(p: Pump, elapsedTurn: u32)
    requires DrainReady(p) && p.currentTime < p.elapsedTime && Aligned(p)
    requires p.fixedDeltaMillisecond <= p.turnTime
    requires (p.elapsedTime + p.fixedDeltaMillisecond) / p.turnTime < TWO_32 - 1
    ensures var (q, first) := StepOnce(p, elapsedTurn);
      && DrainReady(q) && Aligned(q) && q.hasTurnCallback == p.hasTurnCallback
      && q.fixedDeltaMillisecond == p.fixedDeltaMillisecond && q.turnTime == p.turnTime
      && q.elapsedTime == p.elapsedTime
      && (q.nextTurn == p.nextTurn || q.nextTurn == p.nextTurn + 1)
      && Turns(first) == (if q.nextTurn != p.nextTurn && p.hasTurnCallback then [p.nextTurn as int] else [])
  {
    StepOnceSummary(p, elapsedTurn);
    StepAligned(p, elapsedTurn);
  }

  /**
    Under the same conditions the turn callback gets the consecutive turns
    `nextTurn, nextTurn + 1, ...` up to the turn the drain ends in, with no
    skip and no repeat.
   */
  lemma {:induction false} DrainTurnsConsecutive(p: Pump, elapsedTurn: u32)
    requires DrainReady(p) && Aligned(p)
    requires p.fixedDeltaMillisecond <= p.turnTime
    requires (p.elapsedTime + p.fixedDeltaMillisecond) / p.turnTime < TWO_32 - 1
    ensures var (r, evs) := Drain(p, elapsedTurn);
      Turns(evs) == (if p.hasTurnCallback then Range(p.nextTurn, r.nextTurn) else [])
    decreases p.elapsedTime - p.currentTime
  {
    if p.currentTime < p.elapsedTime {
      var (q, first) := StepOnce(p, elapsedTurn);
      var (r, rest) := Drain(q, elapsedTurn);
      DrainUnfold(p, elapsedTurn);
      StepTurns(p, elapsedTurn);
      DrainNextTurn(q, elapsedTurn);
      DrainTurnsConsecutive(q, elapsedTurn);
      TurnsAppend(first, rest);
      assert Drain(p, elapsedTurn) == (r, first + rest);
      if !p.hasTurnCallback || q.nextTurn == p.nextTurn {
        assert Turns(first) == [];
        assert Turns(first + rest) == Turns(rest);
      } else {
        assert p.nextTurn < r.nextTurn;
        assert Range(p.nextTurn, r.nextTurn) == [p.nextTurn as int] + Range(q.nextTurn, r.nextTurn);
      }
    } else {
      assert Drain(p, elapsedTurn) == (p, []);
    }
  }
}
