/** The sweeps of iLQR and SLQ over the partitions of the solver, shared by parallel workers. */
module PartitionedSweeps {
  import opened Interpolation
  import opened IlqrRiccati
  import opened NumericTraits
  import opened ParallelSweep
  import opened PartitionIntervals

  // ----- what the workers of the two solvers write

  /** What an iLQR worker computes for node k of its partition: from the node above, or from the final value. */
  ghost function FromAbove<D, E, V, G>(ops: Operators<D, E, V, G>, s: Sweep<D, E, V>, k: nat, memory: seq<V>): V
    requires s.Valid() && s.first <= k < s.second <= |memory|
  {
    var above := if k + 1 == s.second then s.finalValue else memory[k+1];
    if s.MetAt(k + 1) then ops.jump(s.eventData[s.EventNumber(k + 1)], above) else ops.apply(s.modelData[k], above).0
  }

  /** iLQR: nodes from the last to the first, each from the one above. Off the partition a worker computes nothing. */
  ghost function IlqrJob<D, E, V(!new), G>(ops: Operators<D, E, V, G>, intervals: seq<Interval>,
                                           sweeps: seq<Sweep<D, E, V>>, end: nat, nothing: V): Job<V> {
    Job(Down, intervals, end,
        (t: nat, k: nat, memory: seq<V>) =>
          if t < |sweeps| && sweeps[t].Valid() && sweeps[t].first <= k < sweeps[t].second <= |memory|
          then FromAbove(ops, sweeps[t], k, memory) else nothing,
        (t: nat, k: nat) => if t < |sweeps| && sweeps[t].Valid() && k <= sweeps[t].second then Value(ops, sweeps[t], k)
            else nothing)
  }

  lemma ValueStep<D, E, V, G>(ops: Operators<D, E, V, G>, s: Sweep<D, E, V>, k: nat)
    requires s.Valid() && k < s.second
    ensures Value(ops, s, k) == var above := Value(ops, s, k + 1);
      if s.MetAt(k + 1) then ops.jump(s.eventData[s.EventNumber(k + 1)], above) else ops.apply(s.modelData[k], above).0
    ensures Value(ops, s, s.second) == s.finalValue
  {
  }

  lemma IlqrJobValid<D, E, V(!new), G>(ops: Operators<D, E, V, G>, intervals: seq<Interval>,
                                       sweeps: seq<Sweep<D, E, V>>, end: nat, postEvents: seq<nat>, nothing: V)
    requires Tiles(intervals, end) && SweepsOf(sweeps, intervals, postEvents)
    ensures IlqrJob(ops, intervals, sweeps, end, nothing).Valid()
  {
    hide Value, Sweep.MetAt, Sweep.EventNumber;
    var job := IlqrJob(ops, intervals, sweeps, end, nothing);
    forall t: nat, i: nat, memory: seq<V>
      ensures job.Computes(t, i, memory)
    {
      if t < |intervals| && i < job.Size(t) && 0 <= job.NodeAt(t, i) && |memory| == end + 1 && job.Holds(t, i, memory) {
        assert SweepAt(sweeps, intervals, postEvents, t);
        Inside(job, t);
        var k: nat := job.NodeAt(t, i);
        if i > 0 {
          assert job.NodeAt(t, i - 1) == k + 1;
        }
        ValueStep(ops, sweeps[t], k);
      }
    }
  }

  /** In every interleaving of the iLQR workers each node ends up with the value its own sweep computes alone. */
  lemma IlqrWorkers<D, E, V(!new), G>(ops: Operators<D, E, V, G>, intervals: seq<Interval>, sweeps: seq<Sweep<D, E, V>>,
                                      end: nat, postEvents: seq<nat>, nothing: V, run: seq<State<V>>, i: nat,
                                      k: nat) returns (t: nat)
    requires Tiles(intervals, end) && SweepsOf(sweeps, intervals, postEvents)
    requires Run(IlqrJob(ops, intervals, sweeps, end, nothing), run) && i < |run| && k < end
    requires forall w: nat | w < |run[i].workers| :: run[i].workers[w].Done?
    ensures t < |sweeps| && sweeps[t].Valid() && sweeps[t].first <= k < sweeps[t].second
    ensures k < |run[i].writes| == |run[i].memory| && run[i].writes[k] == 1
    ensures run[i].memory[k] == Value(ops, sweeps[t], k)
  {
    hide Value;
    IlqrJobValid(ops, intervals, sweeps, end, postEvents, nothing);
    t := AllWrittenOnce(IlqrJob(ops, intervals, sweeps, end, nothing), run, i, k);
    assert SweepAt(sweeps, intervals, postEvents, t);
  }

  /** SLQ: nodes from the first to the last, after the integration of the partition has given all of them. */
  ghost function SlqJob<V(!new)>(intervals: seq<Interval>, end: nat, observed: (nat, nat) -> V): Job<V> {
    Job(Up, intervals, end, (t: nat, k: nat, memory: seq<V>) => observed(t, k), observed)
  }

  /** In every interleaving of the SLQ workers each node is written once, with what its own integration observed. */
  lemma SlqWorkers<V(!new)>(intervals: seq<Interval>, end: nat, observed: (nat, nat) -> V, run: seq<State<V>>, i: nat,
                            k: nat)
    returns (t: nat)
    requires Tiles(intervals, end) && Run(SlqJob(intervals, end, observed), run) && i < |run| && k < end
    requires forall w: nat | w < |run[i].workers| :: run[i].workers[w].Done?
    ensures t < |intervals| && intervals[t].first <= k < intervals[t].second
    ensures k < |run[i].writes| == |run[i].memory| && run[i].writes[k] == 1 && run[i].memory[k] == observed(t, k)
  {
    t := AllWrittenOnce(SlqJob(intervals, end, observed), run, i, k);
  }

  // ----- the partitions the solver makes

  /** One sweep of the same trajectory for each of the intervals. */
  ghost predicate SweepsOf<D, E, V>(sweeps: seq<Sweep<D, E, V>>, intervals: seq<Interval>, postEvents: seq<nat>) {
    && |sweeps| == |intervals|
    && forall t | 0 <= t < |sweeps| :: SweepAt(sweeps, intervals, postEvents, t)
  }

  ghost predicate SweepAt<D, E, V>(sweeps: seq<Sweep<D, E, V>>, intervals: seq<Interval>, postEvents: seq<nat>, t: nat)
    requires t < |sweeps| == |intervals|
  {
    var s := sweeps[t];
    s.Valid() && s.first == intervals[t].first && s.second == intervals[t].second && s.postEvents == postEvents
  }

  ghost predicate AllWellSpaced<D, E, V>(sweeps: seq<Sweep<D, E, V>>) {
    forall t | 0 <= t < |sweeps| :: sweeps[t].Valid() && WellSpaced(sweeps[t])
  }

  /** There is a node between any two events, and no event at the last sample. */
  ghost predicate EventsApart(postEvents: seq<nat>, size: nat) {
    && (forall e | 0 <= e < |postEvents| - 1 :: postEvents[e] + 2 <= postEvents[e+1])
    && size - 1 !in postEvents
  }

  /** Some desired point but the first lies in the pair of samples around the event p, before its post-event sample. */
  ghost predicate PointInPair(times: seq<real>, points: seq<real>, p: nat)
    requires 0 < p < |times|
  {
    exists j: nat :: 1 <= j < |points| && times[p-1] <= points[j] < times[p]
  }

  ghost predicate NoPointInPair(times: seq<real>, points: seq<real>, postEvents: seq<nat>) {
    forall p | p in postEvents && 0 < p < |times| :: !PointInPair(times, points, p)
  }

  lemma PairIsBoundary(times: seq<real>, points: seq<real>, p: nat)
    requires Nondecreasing(times) && 0 < p < |times| - 1
    ensures PointInPair(times, points, p) <==> AtDesired(times, points, |points|, p)
  {
    hide EndPosition, Nondecreasing;
    forall j: nat | 1 <= j < |points|
      ensures EndPosition(times, points[j]) == p <==> times[p-1] <= points[j] < times[p]
    {
      EndPositionIs(times, points[j], p);
    }
  }

  /** An event that ends an interval is missed by the sweep of that interval. */
  lemma EventAtBoundary<D, E, V>(sweeps: seq<Sweep<D, E, V>>, intervals: seq<Interval>, postEvents: seq<nat>, p: nat)
    requires SweepsOf(sweeps, intervals, postEvents) && IsBoundary(intervals, p) && p in postEvents
    requires forall t | 0 <= t < |intervals| :: intervals[t].first < intervals[t].second
    ensures !AllWellSpaced(sweeps)
  {
    var t: nat :| t < |intervals| && intervals[t].second == p;
    assert SweepAt(sweeps, intervals, postEvents, t);
    var e :| 0 <= e < |postEvents| && postEvents[e] == p;
    EventNumbers(sweeps[t], e);
  }

  /** Two events next to each other spoil the sweep of some interval. */
  lemma AdjacentEvents<D, E, V>(sweeps: seq<Sweep<D, E, V>>, intervals: seq<Interval>, postEvents: seq<nat>, end: nat,
                                e: nat)
    requires SweepsOf(sweeps, intervals, postEvents) && Tiles(intervals, end) && Increasing(postEvents)
    requires e + 1 < |postEvents| && 0 < postEvents[e] && postEvents[e+1] <= end && postEvents[e] + 2 > postEvents[e+1]
    ensures !AllWellSpaced(sweeps)
  {
    var p := postEvents[e];
    var t := CoveredOnce(intervals, end, p - 1);
    assert SweepAt(sweeps, intervals, postEvents, t);
    EventNumbers(sweeps[t], e);
    EventNumbers(sweeps[t], e + 1);
  }

  /** Without events at boundaries or next to each other every sweep is well spaced. */
  lemma SpacedSweep<D, E, V>(s: Sweep<D, E, V>, size: nat)
    requires s.Valid() && EventsApart(s.postEvents, size) && s.second !in s.postEvents
    ensures WellSpaced(s)
  {
    forall e, f | s.FirstEvent() <= e < f < s.LastEvent()
      ensures s.postEvents[e] + 2 <= s.postEvents[f]
    {
      assert s.postEvents[e+1] <= s.postEvents[f];
    }
  }

  /**
   * The partitions of the solver are all well spaced if and only if no two events are next to each other, none is at
   * the last sample, and no desired point falls into the pair of samples around an event. Pairs at one time have no
   * room for a point; those of a rollout, which goes on a little after the event, do.
   */
  lemma PartitionsWellSpaced<D, E, V>(times: seq<real>, points: seq<real>, intervals: seq<Interval>,
                                      postEvents: seq<nat>, sweeps: seq<Sweep<D, E, V>>)
    requires |times| >= 2 && Nondecreasing(times) && Tiles(intervals, |times| - 1)
    requires forall b: nat | b > 0 :: IsBoundary(intervals, b) <==> AtDesired(times, points, |points|, b)
    requires SweepsOf(sweeps, intervals, postEvents)
    requires Increasing(postEvents) && forall p | p in postEvents :: 0 < p < |times|
    ensures AllWellSpaced(sweeps) <==> EventsApart(postEvents, |times|) && NoPointInPair(times, points, postEvents)
  {
    hide WellSpaced, AtDesired, PointInPair, Nondecreasing;
    assert IsBoundary(intervals, |times| - 1) by {
      assert intervals[|intervals|-1].second == |times| - 1;
    }
    if !EventsApart(postEvents, |times|) {
      if |times| - 1 in postEvents {
        EventAtBoundary(sweeps, intervals, postEvents, |times| - 1);
      } else {
        var e :| 0 <= e < |postEvents| - 1 && postEvents[e] + 2 > postEvents[e+1];
        assert postEvents[e] in postEvents && postEvents[e+1] in postEvents;
        AdjacentEvents(sweeps, intervals, postEvents, |times| - 1, e);
      }
    } else if !NoPointInPair(times, points, postEvents) {
      var p :| p in postEvents && 0 < p < |times| && PointInPair(times, points, p);
      PairIsBoundary(times, points, p);
      EventAtBoundary(sweeps, intervals, postEvents, p);
    } else {
      forall t | 0 <= t < |sweeps|
        ensures sweeps[t].Valid() && WellSpaced(sweeps[t])
      {
        assert SweepAt(sweeps, intervals, postEvents, t);
        var b := sweeps[t].second;
        if b in postEvents {
          assert IsBoundary(intervals, b);
          PairIsBoundary(times, points, b);
        }
        SpacedSweep(sweeps[t], |times|);
      }
    }
  }

  /**
   * An event in the middle of a horizon that two workers share, with the gap that a rollout leaves: the desired point
   * is the pre-event time, the first partition ends at the event, and its sweep does not apply the jump.
   */
  lemma EventLostAtBoundary()
    ensures var times, s := MIDDLE_EVENT, Sweep([0, 1, 2, 3, 4, 5], [0], [3], 0, 3, End);
            && Nondecreasing(times) && times[3] - times[2] == WEAK_EPSILON
            && DesiredPoints(times, 2)[1] == times[2] && EndPosition(times, times[2]) == 3
            && s.Valid() && !WellSpaced(s)
            && Value(RECORD, s, 2) == Mapped(2, End) && Recursion(RECORD, s, 2) == Jumped(0, End)
  {
    var times, s := MIDDLE_EVENT, Sweep([0, 1, 2, 3, 4, 5], [0], [3], 0, 3, End);
    EndPositionIs(times, times[2], 3);
    EventNumbers(s, 0);
    assert DesiredPoints(times, 2)[1] == PartitionPoint(0.0, 1.0, 1) == 1.0;
    assert !s.Met(0);
    assert Value(RECORD, s, 3) == Recursion(RECORD, s, 3) == End;
  }

  const MIDDLE_EVENT: seq<real> := [0.0, 0.5, 1.0, 1.0 + WEAK_EPSILON, 1.5, 2.0]
}
