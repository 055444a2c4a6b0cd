/** Equal-time partitions of a time trajectory. */
module PartitionIntervals {
  import opened Interpolation
  import opened Vectors
  import opened Norms

  datatype Interval = Interval(first: nat, second: nat)

  /** Nonempty intervals, one after the other, from 0 to end. */
  ghost predicate Tiles(intervals: seq<Interval>, end: nat) {
    && (forall i | 0 <= i < |intervals| :: intervals[i].first < intervals[i].second)
    && (forall i | 0 <= i < |intervals| - 1 :: intervals[i].second == intervals[i+1].first)
    && (if intervals == [] then end == 0 else intervals[0].first == 0 && intervals[|intervals|-1].second == end)
  }

  /** A boundary lies between two different times, or is the last sample. */
  ghost predicate Separates(times: seq<real>, b: nat) {
    0 < b < |times| && (times[b-1] < times[b] || b == |times| - 1)
  }

  function EndPosition(times: seq<real>, t: real): (e: nat)
    requires times != []
    ensures e < |times|
  {
    var u := UpperBound(times, t);
    if u != |times| then u else |times| - 1
  }

  lemma EndPositionMonotone(times: seq<real>, s: real, t: real)
    requires times != [] && Nondecreasing(times) && s <= t
    ensures EndPosition(times, s) <= EndPosition(times, t)
  {
  }

  lemma EndPositionSeparates(times: seq<real>, t: real)
    requires times != [] && EndPosition(times, t) > 0
    ensures Separates(times, EndPosition(times, t))
  {
  }

  function PartitionPoint(front: real, increment: real, i: nat): real {
    front + (i as real) * increment
  }

  lemma NextPoint(front: real, increment: real, i: nat, p: real)
    requires p == PartitionPoint(front, increment, i) && increment >= 0.0
    ensures p <= p + increment == PartitionPoint(front, increment, i + 1)
  {
    Distribute(i as real, 1.0, increment);
  }

  lemma PointBelowEnd(front: real, back: real, increment: real, i: nat, n: nat)
    requires front <= back && n > 0 && increment == (back - front) / (n as real) && i <= n
    ensures increment >= 0.0 && PartitionPoint(front, increment, i) <= back
  {
    var m := n as real;
    assert increment * m == back - front;
    if increment < 0.0 {
      NonnegativeProduct(-increment, m);
    } else {
      Monotone(i as real, m, increment);
    }
  }

  lemma LastPoint(front: real, back: real, increment: real, n: nat)
    requires n > 0 && increment == (back - front) / (n as real)
    ensures PartitionPoint(front, increment, n) == back
  {
    assert increment * (n as real) == back - front;
  }

  /** n + 1 equally spaced points from the first to the last time. */
  function DesiredPoints(times: seq<real>, n: nat): (points: seq<real>)
    requires times != [] && n >= 1
    ensures |points| == n + 1
  {
    var increment := (times[|times|-1] - times[0]) / (n as real);
    seq(n + 1, i requires 0 <= i <= n => PartitionPoint(times[0], increment, i))
  }

  lemma DesiredPointsSpan(times: seq<real>, n: nat)
    requires times != [] && Nondecreasing(times) && n >= 1
    ensures var points := DesiredPoints(times, n);
            Nondecreasing(points) && points[0] == times[0] && points[n] == times[|times|-1]
  {
    var front, back, points := times[0], times[|times|-1], DesiredPoints(times, n);
    var increment := (back - front) / (n as real);
    PointBelowEnd(front, back, increment, 0, n);
    LastPoint(front, back, increment, n);
    forall j, k | 0 <= j <= k <= n
      ensures points[j] <= points[k]
    {
      Monotone(j as real, k as real, increment);
    }
  }

  lemma Division(a: real, b: real)
    requires b != 0.0
    ensures (a / b) * b == a
  {
  }

  /** Neighbouring points are all the same distance apart. */
  lemma DesiredPointsSpaced(times: seq<real>, n: nat, j: nat)
    requires times != [] && Nondecreasing(times) && n >= 1 && j < n
    ensures var points := DesiredPoints(times, n);
            (points[j+1] - points[j]) * (n as real) == times[|times|-1] - times[0]
  {
    hide PartitionPoint;
    var front, back, points := times[0], times[|times|-1], DesiredPoints(times, n);
    var increment := (back - front) / (n as real);
    PointBelowEnd(front, back, increment, j, n);
    NextPoint(front, increment, j, points[j]);
    Division(back - front, n as real);
    assert points[j+1] - points[j] == increment;
  }

  /** The points at which the partitions are meant to begin and end. */
  method DesiredPartitionPoints(times: seq<real>, numWorkers: nat) returns (points: seq<real>)
    requires times != [] && Nondecreasing(times) && numWorkers >= 1
    ensures points == DesiredPoints(times, numWorkers) && Nondecreasing(points)
    ensures points[0] == times[0] && points[numWorkers] == times[|times|-1]
  {
    var front, back := times[0], times[|times|-1];
    var increment := (back - front) / (numWorkers as real);
    var desired := new real[numWorkers + 1](_ => 0.0);
    PointBelowEnd(front, back, increment, 0, numWorkers);
    desired[0] := front;
    for i := 1 to numWorkers
      invariant forall j | 0 <= j < i :: desired[j] == PartitionPoint(front, increment, j)
    {
      NextPoint(front, increment, i - 1, desired[i-1]);
      desired[i] := desired[i-1] + increment;
    }
    desired[numWorkers] := back;
    LastPoint(front, back, increment, numWorkers);
    points := desired[..];
    assert points == DesiredPoints(times, numWorkers);
    DesiredPointsSpan(times, numWorkers);
  }

  /** The end of one of the intervals. */
  ghost predicate IsBoundary(intervals: seq<Interval>, b: nat) {
    exists i: nat :: i < |intervals| && intervals[i].second == b
  }

  /** Where one of the desired points before number n falls, not counting the first. */
  ghost predicate AtDesired(times: seq<real>, points: seq<real>, n: nat, b: nat)
    requires times != [] && n <= |points|
  {
    exists j: nat :: 1 <= j < n && EndPosition(times, points[j]) == b
  }

  method ComputePartitionIntervals(times: seq<real>, numWorkers: nat) returns (intervals: seq<Interval>)
    requires times != [] && Nondecreasing(times) && numWorkers >= 1
    ensures Tiles(intervals, |times| - 1) && |intervals| <= numWorkers
    ensures intervals == [] <==> |times| == 1
    ensures forall i | 0 <= i < |intervals| :: Separates(times, intervals[i].second)
    ensures forall b: nat | b > 0 ::
              IsBoundary(intervals, b) <==> AtDesired(times, DesiredPoints(times, numWorkers), numWorkers + 1, b)
  {
    hide Tiles, EndPosition, Separates, IsBoundary, AtDesired, DesiredPoints, Nondecreasing;
    var desired := DesiredPartitionPoints(times, numWorkers);
    intervals := [];
    NoTiles();
    NoBoundaries(times, desired);
    var startPos: nat := 0;
    for i := 1 to |desired|
      invariant startPos < |times| && Tiles(intervals, startPos) && |intervals| < i
      invariant i > 1 ==> startPos == EndPosition(times, desired[i-1])
      invariant i == 1 ==> startPos == 0
      invariant forall j | 0 <= j < |intervals| :: Separates(times, intervals[j].second)
      invariant startPos > 0 ==> IsBoundary(intervals, startPos)
      invariant forall b: nat | b > 0 :: IsBoundary(intervals, b) <==> AtDesired(times, desired, i, b)
    {
      var endPos := EndPosition(times, desired[i]);
      if i > 1 {
        PointsOrdered(desired, i);
        EndPositionMonotone(times, desired[i-1], desired[i]);
      }
      NextDesired(times, desired, i);
      if endPos != startPos {
        EndPositionSeparates(times, desired[i]);
        TilesGrow(intervals, startPos, endPos);
        NextBoundary(intervals, Interval(startPos, endPos));
        intervals := intervals + [Interval(startPos, endPos)];
        startPos := endPos;
      }
    }
    EndOfTimes(times);
    TilesEnd(intervals, startPos);
  }

  lemma NoBoundaries(times: seq<real>, points: seq<real>)
    requires times != [] && points != []
    ensures forall b: nat :: !IsBoundary([], b) && !AtDesired(times, points, 1, b)
  {
  }

  lemma PointsOrdered(points: seq<real>, i: nat)
    requires Nondecreasing(points) && 0 < i < |points|
    ensures points[i-1] <= points[i]
  {
  }

  lemma NextDesired(times: seq<real>, points: seq<real>, i: nat)
    requires times != [] && 1 <= i < |points|
    ensures forall b: nat ::
              AtDesired(times, points, i + 1, b)
              <==> AtDesired(times, points, i, b) || b == EndPosition(times, points[i])
  {
    hide EndPosition;
    assert AtDesired(times, points, i + 1, EndPosition(times, points[i]));
  }

  lemma NextBoundary(intervals: seq<Interval>, interval: Interval)
    ensures forall b: nat ::
              IsBoundary(intervals + [interval], b) <==> IsBoundary(intervals, b) || b == interval.second
  {
    var more := intervals + [interval];
    assert more[|intervals|] == interval;
    forall b: nat | IsBoundary(intervals, b)
      ensures IsBoundary(more, b)
    {
      var i: nat :| i < |intervals| && intervals[i].second == b;
      assert more[i] == intervals[i];
    }
  }

  /**
   * A point ends its partition at p when it falls from the sample before p to just before p, or past the last sample.
   */
  lemma EndPositionIs(times: seq<real>, d: real, p: nat)
    requires Nondecreasing(times) && 0 < p < |times|
    ensures EndPosition(times, d) == p <==> times[p-1] <= d && (p < |times| - 1 ==> d < times[p])
  {
  }

  lemma NoTiles()
    ensures Tiles([], 0)
  {
  }

  lemma TilesGrow(intervals: seq<Interval>, end: nat, e: nat)
    requires Tiles(intervals, end) && end < e
    ensures Tiles(intervals + [Interval(end, e)], e)
  {
  }

  lemma TilesEnd(intervals: seq<Interval>, end: nat)
    requires Tiles(intervals, end)
    ensures intervals == [] <==> end == 0
  {
  }

  lemma EndOfTimes(times: seq<real>)
    requires times != [] && Nondecreasing(times)
    ensures EndPosition(times, times[|times|-1]) == |times| - 1
  {
  }

  // ----- which interval an index belongs to

  lemma {:induction false} TilesOrdered(intervals: seq<Interval>, end: nat, i: nat, j: nat)
    requires Tiles(intervals, end) && i < j < |intervals|
    ensures intervals[i].second <= intervals[j].first
    decreases j - i
  {
    if i + 1 < j {
      TilesOrdered(intervals, end, i + 1, j);
    }
  }

  /** The intervals cover every index below the end, and no index twice. */
  lemma CoveredOnce(intervals: seq<Interval>, end: nat, k: nat) returns (i: nat)
    requires Tiles(intervals, end) && k < end
    ensures i < |intervals| && intervals[i].first <= k < intervals[i].second
    ensures forall j: nat | j < |intervals| && intervals[j].first <= k < intervals[j].second :: j == i
  {
    i := 0;
    while intervals[i].second <= k
      invariant i < |intervals| && intervals[i].first <= k
      decreases |intervals| - i
    {
      i := i + 1;
    }
    forall j: nat | j < |intervals| && intervals[j].first <= k < intervals[j].second
      ensures j == i
    {
      if j < i {
        TilesOrdered(intervals, end, j, i);
      } else if i < j {
        TilesOrdered(intervals, end, i, j);
      }
    }
  }

  /** A node and its predecessor at exactly the same time are never separated by an interior boundary. */
  lemma NoEventAtBoundary(times: seq<real>, intervals: seq<Interval>, i: nat, p: nat)
    requires times != [] && Tiles(intervals, |times| - 1) && i < |intervals| && Separates(times, intervals[i].second)
    requires 0 < p < |times| && times[p-1] == times[p] && intervals[i].second == p
    ensures i == |intervals| - 1 && p == |times| - 1
  {
    if i + 1 < |intervals| {
      TilesOrdered(intervals, |times| - 1, i, |intervals| - 1);
    }
  }
}
