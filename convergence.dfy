/** The staleness test of the main loop: `last_best_value`, the counter
    `num_stale_steps`, and when the loop stops. The counter is never reset,
    so it counts every stale step of the run, not consecutive ones. */
module Convergence {
  import opened Wrappers
  import opened Floats
  import opened PointSet

  /** `last_best_value` and `num_stale_steps`. */
  datatype Tracker = Tracker(lastBest: Ext, numStale: nat)

  /** The state before the first step: `-inf` when minimising, `inf` when
      maximising, and no stale step yet. */
  function InitialTracker(m: Mode): (t: Tracker)
    ensures t.numStale == 0 && !t.lastBest.Fin?
    ensures t.lastBest == NegInf <==> m == Min
  {
    Tracker(if m == Min then NegInf else PosInf, 0)
  }

  /** `abs(best - last_best_value) <= stale_threshold`, a false comparison
      when the difference is NaN. */
  predicate IsStale(best: Ext, last: Ext, threshold: real)
  {
    var d := AbsDiff(best, last);
    d.Some? && Le(d.value, Fin(threshold))
  }

  /** A step is stale exactly when both values are finite and within the
      threshold of each other: an infinite difference and the NaN of
      `inf - inf` both fail the comparison. */
  lemma IsStaleIff(best: Ext, last: Ext, threshold: real)
    ensures IsStale(best, last, threshold) <==>
      best.Fin? && last.Fin? && (if best.r >= last.r then best.r - last.r else last.r - best.r) <= threshold
  {
  }

  /** The first step is never stale, whatever its best value: the starting
      `last_best_value` is infinite. */
  lemma FirstStepNeverStale(m: Mode, best: Ext, threshold: real)
    ensures !IsStale(best, InitialTracker(m).lastBest, threshold)
  {
    IsStaleIff(best, InitialTracker(m).lastBest, threshold);
  }

  /** The result of one staleness test: the new tracker, and whether the loop
      stops here. */
  datatype Observation = Observation(next: Tracker, halted: bool)

  /** `pyrandomsearch.py` lines 266-274: count a stale step, stop once the count reaches
      `stale_count` (keeping `last_best_value`), else remember the best. */
  function Observe(t: Tracker, best: Ext, threshold: real, staleCount: nat): (o: Observation)
    ensures o.next.numStale == t.numStale || o.next.numStale == t.numStale + 1
    ensures o.next.numStale == t.numStale + 1 <==> IsStale(best, t.lastBest, threshold)
    ensures o.halted <==> o.next.numStale >= staleCount
    ensures o.next.lastBest == (if o.halted then t.lastBest else best)
  {
    var n := t.numStale + (if IsStale(best, t.lastBest, threshold) then 1 else 0);
    if n >= staleCount then Observation(Tracker(t.lastBest, n), true)
    else Observation(Tracker(best, n), false)
  }

  /** The value that step `j` of a run of best values is compared with:
      `first` for the first step, the previous best value after that. */
  function Previous(first: Ext, bests: seq<Ext>, j: nat): Ext
    requires j < |bests|
  {
    if j == 0 then first else bests[j - 1]
  }

  /** The number of stale steps among the first `n` steps of a run. */
  function StaleSteps(first: Ext, bests: seq<Ext>, threshold: real, n: nat): nat
    requires n <= |bests|
    decreases n
  {
    if n == 0 then 0
    else StaleSteps(first, bests, threshold, n - 1)
         + (if IsStale(bests[n - 1], Previous(first, bests, n - 1), threshold) then 1 else 0)
  }

  lemma {:induction false} StaleStepsShift(first: Ext, bests: seq<Ext>, threshold: real, n: nat)
    requires n < |bests|
    ensures StaleSteps(first, bests, threshold, n + 1)
         == StaleSteps(first, bests, threshold, 1) + StaleSteps(bests[0], bests[1..], threshold, n)
    decreases n
  {
    if n > 0 {
      StaleStepsShift(first, bests, threshold, n - 1);
      assert Previous(first, bests, n) == Previous(bests[0], bests[1..], n - 1);
    }
  }

  /** The result of feeding a run of best values to the tracker. */
  datatype Outcome = Outcome(final: Tracker, haltedAt: Option<nat>)

  /** Observes the best values of successive steps until the loop stops. */
  function Track(t: Tracker, bests: seq<Ext>, threshold: real, staleCount: nat): Outcome
    decreases |bests|
  {
    if bests == [] then Outcome(t, None)
    else
      var o := Observe(t, bests[0], threshold, staleCount);
      if o.halted then Outcome(o.next, Some(0))
      else
        var rest := Track(o.next, bests[1..], threshold, staleCount);
        Outcome(rest.final, if rest.haltedAt.Some? then Some(rest.haltedAt.value + 1) else None)
  }

  /** Feeding one more best value to a tracker that has not stopped is one
      more observation. */
  lemma {:induction false} TrackSnoc(t: Tracker, bests: seq<Ext>, b: Ext, threshold: real, staleCount: nat)
    requires Track(t, bests, threshold, staleCount).haltedAt.None?
    ensures var o := Observe(Track(t, bests, threshold, staleCount).final, b, threshold, staleCount);
      Track(t, bests + [b], threshold, staleCount)
        == Outcome(o.next, if o.halted then Some(|bests|) else None)
    decreases |bests|
  {
    if bests == [] {
      assert bests + [b] == [b];
    } else {
      var o := Observe(t, bests[0], threshold, staleCount);
      assert (bests + [b])[0] == bests[0];
      assert (bests + [b])[1..] == bests[1..] + [b];
      TrackSnoc(o.next, bests[1..], b, threshold, staleCount);
    }
  }

  /** The loop stops at the first step at which the TOTAL number of stale
      steps so far reaches `stale_count` (stale steps need not be
      consecutive), keeping the `last_best_value` that step was compared
      with; if it has not stopped, the counter holds that total and
      `last_best_value` the last best value. */
  lemma {:induction false} TrackCountsAllStaleSteps(t: Tracker, bests: seq<Ext>, threshold: real, staleCount: nat)
    ensures var r := Track(t, bests, threshold, staleCount);
      r.haltedAt.Some? ==>
        var k := r.haltedAt.value;
        && k < |bests|
        && t.numStale + StaleSteps(t.lastBest, bests, threshold, k + 1) >= staleCount
        && (forall n :: 1 <= n <= k ==> t.numStale + StaleSteps(t.lastBest, bests, threshold, n) < staleCount)
        && r.final.numStale == t.numStale + StaleSteps(t.lastBest, bests, threshold, k + 1)
        && r.final.lastBest == Previous(t.lastBest, bests, k)
    ensures var r := Track(t, bests, threshold, staleCount);
      r.haltedAt.None? ==>
        && (forall n :: 1 <= n <= |bests| ==> t.numStale + StaleSteps(t.lastBest, bests, threshold, n) < staleCount)
        && r.final.numStale == t.numStale + StaleSteps(t.lastBest, bests, threshold, |bests|)
        && r.final.lastBest == (if bests == [] then t.lastBest else bests[|bests| - 1])
    decreases |bests|
  {
    if bests != [] {
      var o := Observe(t, bests[0], threshold, staleCount);
      if !o.halted {
        var rest := bests[1..];
        TrackCountsAllStaleSteps(o.next, rest, threshold, staleCount);
        forall n | 1 <= n <= |bests|
          ensures t.numStale + StaleSteps(t.lastBest, bests, threshold, n)
               == o.next.numStale + StaleSteps(bests[0], rest, threshold, n - 1)
        {
          StaleStepsShift(t.lastBest, bests, threshold, n - 1);
        }
        var r := Track(t, bests, threshold, staleCount);
        if r.haltedAt.Some? {
          var k := r.haltedAt.value;
          assert Previous(t.lastBest, bests, k) == Previous(bests[0], rest, k - 1);
        }
      }
    }
  }

  /** The counter is not reset by a step that is not stale: when maximising
      with a threshold of 0 and a stale count of 2, the best values 1, 1, 2, 2
      (a run the loop can produce, since the best value never worsens) stop
      the loop at the fourth step, although no two stale steps are
      consecutive. */
  lemma StaleStepsNeedNotBeConsecutive()
    ensures Track(InitialTracker(Max), [Fin(1.0), Fin(1.0), Fin(2.0), Fin(2.0)], 0.0, 2).haltedAt == Some(3)
  {
  }
}
