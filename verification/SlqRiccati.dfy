/**
 * The backward pass of SLQ over one partition: Riccati equations integrated in normalised time, with jumps at events.
 */
module SlqRiccati {
  import opened Vectors
  import opened Interpolation
  import opened PartitionIntervals
  import opened NormalizedTime
  import opened Odes
  import opened DormandPrince

  /** The observations of one stretch come from one integration to its times, started at the first of them. */
  ghost predicate Stretch(flow: (real, Vec) -> Vec, invRoot: (real, nat) -> real, times: seq<real>,
                          observed: seq<Observation>, dt: real, tol: Tolerance)
    requires Shaped(flow) && tol.Valid() && times != []
  {
    && |observed| == |times|
    && exists paths: seq<seq<Waypoint>> ::
       TimesRun(flow, invRoot, tol, times, observed, paths, flow(times[0], observed[0].x), dt)
  }

  /** Stretch j of the trajectory, and the state it starts from: the final value, or the jump of the state before it. */
  ghost predicate StretchAt(flow: (real, Vec) -> Vec, invRoot: (real, nat) -> real, jump: (real, Vec) -> Vec,
                            times: seq<real>, intervals: seq<Interval>, all: seq<Observation>, finalValue: Vec,
                            dt: real, tol: Tolerance, j: nat)
    requires Shaped(flow) && tol.Valid() && j < |intervals|
  {
    var a, b := intervals[j].first, intervals[j].second;
    && a < b <= |times| && b <= |all|
    && Stretch(flow, invRoot, times[a..b], all[a..b], dt, tol)
    && all[a].x == (if j == 0 then finalValue else if a == 0 then [] else jump(times[a], all[a-1].x))
  }

  /** The first n stretches are integrated. */
  ghost predicate Integrated(flow: (real, Vec) -> Vec, invRoot: (real, nat) -> real, jump: (real, Vec) -> Vec,
                             times: seq<real>, intervals: seq<Interval>, all: seq<Observation>, finalValue: Vec,
                             dt: real, tol: Tolerance, n: nat)
    requires Shaped(flow) && tol.Valid()
  {
    && n <= |intervals| && |all| <= |times| && |all| == (if n == 0 then 0 else intervals[n-1].second)
    && (forall i: nat | i < |all| :: all[i].t == times[i])
    && (forall j: nat | j < n :: StretchAt(flow, invRoot, jump, times, intervals, all, finalValue, dt, tol, j))
  }

  lemma StretchKept(flow: (real, Vec) -> Vec, invRoot: (real, nat) -> real, jump: (real, Vec) -> Vec, times: seq<real>,
                    intervals: seq<Interval>, all: seq<Observation>, more: seq<Observation>, finalValue: Vec, dt: real,
                    tol: Tolerance, j: nat)
    requires Shaped(flow) && tol.Valid() && j < |intervals|
    requires StretchAt(flow, invRoot, jump, times, intervals, all, finalValue, dt, tol, j)
    ensures StretchAt(flow, invRoot, jump, times, intervals, all + more, finalValue, dt, tol, j)
  {
    hide Stretch;
    var a, b := intervals[j].first, intervals[j].second;
    assert (all + more)[a..b] == all[a..b];
  }

  lemma OneStretchMore(flow: (real, Vec) -> Vec, invRoot: (real, nat) -> real, jump: (real, Vec) -> Vec,
                       times: seq<real>, intervals: seq<Interval>, all: seq<Observation>, more: seq<Observation>,
                       finalValue: Vec, dt: real, tol: Tolerance, n: nat)
    requires Shaped(flow) && tol.Valid() && n < |intervals| && Tiles(intervals, |times|)
    requires Integrated(flow, invRoot, jump, times, intervals, all, finalValue, dt, tol, n)
    requires intervals[n].second <= |times|
    requires Stretch(flow, invRoot, times[intervals[n].first..intervals[n].second], more, dt, tol)
    requires forall i: nat | i < |more| :: more[i].t == times[intervals[n].first..intervals[n].second][i]
    requires more[0].x == if n == 0 then finalValue else if all == [] then []
             else jump(times[intervals[n].first], all[|all|-1].x)
    ensures Integrated(flow, invRoot, jump, times, intervals, all + more, finalValue, dt, tol, n + 1)
  {
    hide Stretch, StretchAt;
    StretchLength(flow, invRoot, times[intervals[n].first..intervals[n].second], more, dt, tol);
    forall j: nat | j < n + 1
      ensures StretchAt(flow, invRoot, jump, times, intervals, all + more, finalValue, dt, tol, j)
    {
      if j < n {
        StretchKept(flow, invRoot, jump, times, intervals, all, more, finalValue, dt, tol, j);
      } else {
        NewStretch(flow, invRoot, jump, times, intervals, all, more, finalValue, dt, tol, n);
      }
    }
  }

  lemma StretchLength(flow: (real, Vec) -> Vec, invRoot: (real, nat) -> real, times: seq<real>,
                      observed: seq<Observation>, dt: real, tol: Tolerance)
    requires Shaped(flow) && tol.Valid() && times != [] && Stretch(flow, invRoot, times, observed, dt, tol)
    ensures |observed| == |times|
  {
  }

  lemma NewStretch(flow: (real, Vec) -> Vec, invRoot: (real, nat) -> real, jump: (real, Vec) -> Vec, times: seq<real>,
                   intervals: seq<Interval>, all: seq<Observation>, more: seq<Observation>, finalValue: Vec, dt: real,
                   tol: Tolerance, n: nat)
    requires Shaped(flow) && tol.Valid() && n < |intervals| && intervals[n].first < intervals[n].second <= |times|
    requires |all| == intervals[n].first && |more| == intervals[n].second - intervals[n].first
    requires Stretch(flow, invRoot, times[intervals[n].first..intervals[n].second], more, dt, tol)
    requires more[0].x == if n == 0 then finalValue else if all == [] then []
             else jump(times[intervals[n].first], all[|all|-1].x)
    ensures StretchAt(flow, invRoot, jump, times, intervals, all + more, finalValue, dt, tol, n)
  {
    hide Stretch;
    assert (all + more)[intervals[n].first..intervals[n].second] == more;
  }

  method IntegrateRiccatiEquationNominalTime(riccati: Ode, jump: (real, Vec) -> Vec, maxNumSteps: nat,
                                             invRoot: (real, nat) -> real, first: nat, second: nat,
                                             nominalTimes: seq<real>, postEvents: seq<nat>, finalValue: Vec, dt: real,
                                             tol: Tolerance)
    returns (outcome: Outcome, all: seq<Observation>, ghost intervals: seq<Interval>)
    requires first <= second < |nominalTimes| && Increasing(postEvents)
    requires Shaped(riccati.flow) && tol.Valid() && IsInverseRoot(invRoot)
    modifies riccati`numFunctionCalls
    ensures outcome.Finished? ==>
      && |all| == second - first + 1
      && Integrated(riccati.flow, invRoot, jump, NormalizedTimes(nominalTimes, first, second), intervals, all,
                    finalValue, dt, tol, |intervals|)
      && |intervals| == |NormalizedEvents(postEvents, first, second)| + 1
      && Tiles(intervals, |all|)
      && forall j | 0 <= j < |intervals| - 1 :: intervals[j].second == NormalizedEvents(postEvents, first, second)[j]
  {
    hide Tiles, Integrated, Stretch, TimesRun, NormalizedTimes, NormalizedEvents;
    var times, events := NormalizedTimes(nominalTimes, first, second), NormalizedEvents(postEvents, first, second);
    NormalizedEventsInside(postEvents, first, second);
    var switching := SwitchingIntervals(events, |times|);
    intervals := switching;
    all := [];
    var start := finalValue;
    NothingIntegrated(riccati.flow, invRoot, jump, times, intervals, finalValue, dt, tol);
    for i := 0 to |events| + 1
      invariant Integrated(riccati.flow, invRoot, jump, times, intervals, all, finalValue, dt, tol, i)
      invariant start == (if i == 0 then finalValue else if i == |events| + 1 || all == [] then start
                          else jump(times[intervals[i].first], all[|all|-1].x))
      invariant i > 0 ==> all != []
    {
      IntervalInside(intervals, |times|, i);
      var begin, end := switching[i].first, switching[i].second;
      var observed;
      ghost var paths;
      outcome, observed, paths := RunIntegrateTimes(riccati, maxNumSteps, invRoot, start, times[begin..end], dt, tol);
      if !outcome.Finished? { return; }
      RunIsStretch(riccati.flow, invRoot, times[begin..end], observed, paths, dt, tol);
      OneStretchMore(riccati.flow, invRoot, jump, times, intervals, all, observed, finalValue, dt, tol, i);
      all := all + observed;
      if i < |events| {
        IntervalInside(intervals, |times|, i + 1);
        start := jump(times[end], all[|all|-1].x);
      }
    }
    AllIntegrated(riccati.flow, invRoot, jump, times, intervals, all, finalValue, dt, tol);
    outcome := Finished;
  }

  lemma NothingIntegrated(flow: (real, Vec) -> Vec, invRoot: (real, nat) -> real, jump: (real, Vec) -> Vec,
                          times: seq<real>, intervals: seq<Interval>, finalValue: Vec, dt: real, tol: Tolerance)
    requires Shaped(flow) && tol.Valid()
    ensures Integrated(flow, invRoot, jump, times, intervals, [], finalValue, dt, tol, 0)
  {
  }

  lemma AllIntegrated(flow: (real, Vec) -> Vec, invRoot: (real, nat) -> real, jump: (real, Vec) -> Vec,
                      times: seq<real>, intervals: seq<Interval>, all: seq<Observation>, finalValue: Vec, dt: real,
                      tol: Tolerance)
    requires Shaped(flow) && tol.Valid() && Tiles(intervals, |times|) && intervals != []
    requires Integrated(flow, invRoot, jump, times, intervals, all, finalValue, dt, tol, |intervals|)
    ensures |all| == |times|
  {
  }

  lemma IntervalInside(intervals: seq<Interval>, end: nat, i: nat)
    requires Tiles(intervals, end) && i < |intervals|
    ensures intervals[i].first < intervals[i].second <= end
    ensures i > 0 ==> intervals[i].first == intervals[i-1].second
    ensures i + 1 < |intervals| ==> intervals[i].second < end
    ensures intervals[0].first == 0
  {
    if i < |intervals| - 1 {
      TilesOrdered(intervals, end, i, |intervals| - 1);
    }
  }

  lemma RunIsStretch(flow: (real, Vec) -> Vec, invRoot: (real, nat) -> real, times: seq<real>,
                     observed: seq<Observation>, paths: seq<seq<Waypoint>>, dt: real, tol: Tolerance)
    requires Shaped(flow) && tol.Valid() && times != [] && |observed| == |times|
    requires TimesRun(flow, invRoot, tol, times, observed, paths, flow(times[0], observed[0].x), dt)
    ensures Stretch(flow, invRoot, times, observed, dt, tol)
  {
  }

  /**
   * Stores at every node of [first, second) the state observed at the negated time of the node, and nothing elsewhere.
   */
  method RiccatiEquationsWorker(riccati: Ode, jump: (real, Vec) -> Vec, maxNumSteps: nat, invRoot: (real, nat) -> real,
                                first: nat, second: nat, nominalTimes: seq<real>, postEvents: seq<nat>, finalValue: Vec,
                                dt: real, tol: Tolerance, values: array<Vec>)
    returns (outcome: Outcome, all: seq<Observation>, ghost intervals: seq<Interval>)
    requires first <= second < |nominalTimes| == values.Length && Increasing(postEvents)
    requires Shaped(riccati.flow) && tol.Valid() && IsInverseRoot(invRoot)
    modifies riccati`numFunctionCalls, values
    ensures outcome.Finished? ==>
      && Integrated(riccati.flow, invRoot, jump, NormalizedTimes(nominalTimes, first, second), intervals, all,
                    finalValue, dt, tol, |intervals|)
      && |all| == second - first + 1
      && Tiles(intervals, |all|)
      && |intervals| == |NormalizedEvents(postEvents, first, second)| + 1
      && forall j | 0 <= j < |intervals| - 1 :: intervals[j].second == NormalizedEvents(postEvents, first, second)[j]
    ensures outcome.Finished? ==>
      forall k | first <= k < second :: all[second-k].t == -nominalTimes[k] && values[k] == all[second-k].x
    ensures forall k | 0 <= k < values.Length && !(first <= k < second) :: values[k] == old(values[k])
    ensures !outcome.Finished? ==> values[..] == old(values[..])
  {
    hide Tiles, Integrated, NormalizedEvents;
    riccati.numFunctionCalls := 0;
    outcome, all, intervals := IntegrateRiccatiEquationNominalTime(riccati, jump, maxNumSteps, invRoot, first, second,
                                                                   nominalTimes, postEvents, finalValue, dt, tol);
    if !outcome.Finished? { return; }
    var outputN := |all|;
    ObservedTimes(riccati.flow, invRoot, jump, nominalTimes, first, second, intervals, all, finalValue, dt, tol);
    for k := first to second
      invariant forall j | first <= j < k :: values[j] == all[second-j].x
      invariant forall j | 0 <= j < values.Length && !(first <= j < k) :: values[j] == old(values[j])
    {
      values[k] := all[outputN-1-k+first].x;
    }
  }

  lemma ObservedTimes(flow: (real, Vec) -> Vec, invRoot: (real, nat) -> real, jump: (real, Vec) -> Vec,
                      nominalTimes: seq<real>, first: nat, second: nat, intervals: seq<Interval>, all: seq<Observation>,
                      finalValue: Vec, dt: real, tol: Tolerance)
    requires Shaped(flow) && tol.Valid() && first <= second < |nominalTimes| && |all| == second - first + 1
    requires Integrated(flow, invRoot, jump, NormalizedTimes(nominalTimes, first, second), intervals, all, finalValue,
                        dt, tol, |intervals|)
    ensures forall k | first <= k <= second :: all[second-k].t == -nominalTimes[k]
  {
    var times := NormalizedTimes(nominalTimes, first, second);
    forall k | first <= k <= second
      ensures all[second-k].t == -nominalTimes[k]
    {
      assert times[second-k] == -nominalTimes[k];
    }
  }

  /**
   * Across an event the stored value of the pre-event node is the jump of the value observed at the post-event node.
   */
  lemma EventIsJump(flow: (real, Vec) -> Vec, invRoot: (real, nat) -> real, jump: (real, Vec) -> Vec,
                    nominalTimes: seq<real>, postEvents: seq<nat>, first: nat, second: nat, intervals: seq<Interval>,
                    all: seq<Observation>, finalValue: Vec, dt: real, tol: Tolerance, p: nat)
    requires Shaped(flow) && tol.Valid() && first < p <= second < |nominalTimes| && Increasing(postEvents)
             && p in postEvents
    requires |all| == second - first + 1 && Tiles(intervals, |all|)
    requires Integrated(flow, invRoot, jump, NormalizedTimes(nominalTimes, first, second), intervals, all, finalValue,
                        dt, tol, |intervals|)
    requires |intervals| == |NormalizedEvents(postEvents, first, second)| + 1
    requires forall j | 0 <= j < |intervals| - 1 ::
             intervals[j].second == NormalizedEvents(postEvents, first, second)[j]
    ensures all[second-(p-1)].x == jump(-nominalTimes[p-1], all[second-p].x)
  {
    hide Stretch, NormalizedTimes, NormalizedEvents, ActiveEvents, Tiles, Increasing;
    ActiveEventsComplete(postEvents, first, second, p);
    var active := ActiveEvents(postEvents, first, second);
    var i :| 0 <= i < |active| && active[i] == p;
    var j := |active| - 1 - i;
    NormalizedEventIsPreEvent(nominalTimes, postEvents, first, second, j);
    IntervalInside(intervals, |all|, j + 1);
    assert StretchAt(flow, invRoot, jump, NormalizedTimes(nominalTimes, first, second), intervals, all, finalValue, dt,
                     tol, j + 1);
  }
}
