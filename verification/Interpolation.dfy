/** Lookup in time arrays and linear interpolation between samples. */
module Interpolation {
  import opened Vectors
  import opened NumericTraits

  ghost predicate Nondecreasing(times: seq<real>) {
    forall i, j | 0 <= i <= j < |times| :: times[i] <= times[j]
  }

  /** First index at or after i whose time is not below t. */
  function LowerBoundFrom(times: seq<real>, t: real, i: nat): (r: nat)
    requires i <= |times|
    ensures i <= r <= |times|
    ensures forall j | i <= j < r :: times[j] < t
    ensures r < |times| ==> t <= times[r]
    decreases |times| - i
  {
    if i < |times| && times[i] < t then LowerBoundFrom(times, t, i + 1) else i
  }

  function LowerBound(times: seq<real>, t: real): (r: nat)
    ensures r <= |times|
    ensures forall j | 0 <= j < r :: times[j] < t
    ensures r < |times| ==> t <= times[r]
  {
    LowerBoundFrom(times, t, 0)
  }

  /** First index at or after i whose time is above t. */
  function UpperBoundFrom(times: seq<real>, t: real, i: nat): (r: nat)
    requires i <= |times|
    ensures i <= r <= |times|
    ensures forall j | i <= j < r :: times[j] <= t
    ensures r < |times| ==> t < times[r]
    decreases |times| - i
  {
    if i < |times| && times[i] <= t then UpperBoundFrom(times, t, i + 1) else i
  }

  function UpperBound(times: seq<real>, t: real): (r: nat)
    ensures r <= |times|
    ensures forall j | 0 <= j < r :: times[j] <= t
    ensures r < |times| ==> t < times[r]
  {
    UpperBoundFrom(times, t, 0)
  }

  /** Number of leading indices at or below v in a sorted index array. */
  function IndexUpperBoundFrom(indices: seq<nat>, v: int, i: nat): (r: nat)
    requires i <= |indices|
    ensures i <= r <= |indices|
    ensures forall j | i <= j < r :: indices[j] <= v
    ensures r < |indices| ==> v < indices[r]
    decreases |indices| - i
  {
    if i < |indices| && indices[i] <= v then IndexUpperBoundFrom(indices, v, i + 1) else i
  }

  function IndexUpperBound(indices: seq<nat>, v: int): (r: nat)
    ensures r <= |indices|
    ensures forall j | 0 <= j < r :: indices[j] <= v
    ensures r < |indices| ==> v < indices[r]
  {
    IndexUpperBoundFrom(indices, v, 0)
  }

  ghost predicate Increasing(indices: seq<nat>) {
    forall i, j | 0 <= i < j < |indices| :: indices[i] < indices[j]
  }

  datatype Segment = Segment(index: nat, alpha: real)

  /** Interval that contains t and the weight of its left end, clamped at both ends of the array. */
  function TimeSegment(t: real, times: seq<real>): (s: Segment)
    ensures if 2 <= |times| then s.index + 1 < |times| else s.index == 0
    ensures Nondecreasing(times) ==> 0.0 <= s.alpha <= 1.0
  {
    if |times| <= 1 then
      Segment(0, 1.0)
    else
      var index, lastInterval := LowerBound(times, t) - 1, |times| - 1;
      if index < 0 then
        Segment(0, 1.0)
      else if index < lastInterval then
        var intervalLength, timeTillNext := times[index+1] - times[index], times[index+1] - t;
        if intervalLength > 2.0 * WEAK_EPSILON then
          WeightInRange(timeTillNext, intervalLength);
          Segment(index, timeTillNext / intervalLength)
        else if timeTillNext < 0.5 * intervalLength then
          Segment(index, 0.0)
        else
          Segment(index, 1.0)
      else
        Segment(lastInterval - 1, 0.0)
  }

  lemma WeightInRange(a: real, b: real)
    requires b > 0.0
    ensures 0.0 <= a <= b ==> 0.0 <= a / b <= 1.0
  {
    if 0.0 <= a <= b {
      var q := a / b;
      assert q * b == a;
      assert (1.0 - q) * b == b - a;
      NonnegativeFactor(q, b);
      NonnegativeFactor(1.0 - q, b);
    }
  }

  /** Weighted mean of neighbouring samples of equal size; otherwise the sample with the larger weight. */
  function InterpolateVec(s: Segment, data: seq<Vec>): (r: Vec)
    requires |data| > 0 && (1 < |data| ==> s.index + 1 < |data|)
  {
    if |data| == 1 then data[0] else
      var lhs, rhs := data[s.index], data[s.index+1];
      if |lhs| == |rhs| then Add(Scale(s.alpha, lhs), Scale(1.0 - s.alpha, rhs))
      else if s.alpha > 0.5 then lhs else rhs
  }

  function InterpolateMat(s: Segment, data: seq<Mat>): (r: Mat)
    requires |data| > 0 && (1 < |data| ==> s.index + 1 < |data|)
  {
    if |data| == 1 then data[0] else
      var lhs, rhs := data[s.index], data[s.index+1];
      if SameShape(lhs, rhs) then MAdd(MScale(s.alpha, lhs), MScale(1.0 - s.alpha, rhs))
      else if s.alpha > 0.5 then lhs else rhs
  }

  function InterpolateReal(s: Segment, data: seq<real>): (r: real)
    requires |data| > 0 && (1 < |data| ==> s.index + 1 < |data|)
  {
    if |data| == 1 then data[0] else s.alpha * data[s.index] + (1.0 - s.alpha) * data[s.index+1]
  }

  // ----- what interpolation returns

  lemma ScaleOneZero(a: Vec, b: Vec)
    requires |a| == |b|
    ensures Add(Scale(1.0, a), Scale(0.0, b)) == a
    ensures Add(Scale(0.0, a), Scale(1.0, b)) == b
  {
  }

  lemma MScaleOneZero(a: Mat, b: Mat)
    requires SameShape(a, b)
    ensures MAdd(MScale(1.0, a), MScale(0.0, b)) == a
    ensures MAdd(MScale(0.0, a), MScale(1.0, b)) == b
  {
    forall i | 0 <= i < |a.rows|
      ensures MAdd(MScale(1.0, a), MScale(0.0, b)).rows[i] == a.rows[i]
      ensures MAdd(MScale(0.0, a), MScale(1.0, b)).rows[i] == b.rows[i]
    {
      ScaleOneZero(a.rows[i], b.rows[i]);
    }
    assert MAdd(MScale(1.0, a), MScale(0.0, b)).rows == a.rows;
    assert MAdd(MScale(0.0, a), MScale(1.0, b)).rows == b.rows;
  }

  /** At weight one the left sample, at weight zero the right one. */
  lemma AtTheEnds(s: Segment, vecs: seq<Vec>, mats: seq<Mat>)
    requires s.index + 1 < |vecs| == |mats|
    ensures s.alpha == 1.0 ==> InterpolateVec(s, vecs) == vecs[s.index] && InterpolateMat(s, mats) == mats[s.index]
    ensures s.alpha == 0.0 ==> InterpolateVec(s, vecs) == vecs[s.index+1] && InterpolateMat(s, mats) == mats[s.index+1]
  {
    if |vecs[s.index]| == |vecs[s.index+1]| {
      ScaleOneZero(vecs[s.index], vecs[s.index+1]);
    }
    if SameShape(mats[s.index], mats[s.index+1]) {
      MScaleOneZero(mats[s.index], mats[s.index+1]);
    }
  }

  /**
   * Outside the times the first or the last sample counts. Between two samples the weights are proportional to the
   * distances if they are far enough apart, and otherwise the nearer one counts, the earlier one if both are as near.
   */
  lemma SegmentMeans(t: real, times: seq<real>)
    requires Nondecreasing(times) && 2 <= |times|
    ensures t <= times[0] ==> TimeSegment(t, times) == Segment(0, 1.0)
    ensures t > times[|times|-1] ==> TimeSegment(t, times) == Segment(|times| - 2, 0.0)
    ensures times[0] < t <= times[|times|-1] ==>
              var s := TimeSegment(t, times);
              var a, b := times[s.index], times[s.index+1];
              && a < t <= b
              && if b - a > 2.0 * WEAK_EPSILON then s.alpha * (b - a) == b - t
                 else s.alpha == if b - t < t - a then 0.0 else 1.0
  {
    var lb := LowerBound(times, t);
    if times[0] < t <= times[|times|-1] {
      assert 0 < lb < |times|;
      var a, b := times[lb-1], times[lb];
      if b - a > 2.0 * WEAK_EPSILON {
        assert (b - t) / (b - a) * (b - a) == b - t;
      }
    }
  }

  /** The segment of the time of a sample, if it is the first one at its time. */
  lemma SegmentAtSample(times: seq<real>, k: nat)
    requires Nondecreasing(times) && k < |times| && (k > 0 ==> times[k-1] < times[k])
    ensures TimeSegment(times[k], times) == if k == 0 then Segment(0, 1.0) else Segment(k - 1, 0.0)
  {
    if k > 0 {
      assert LowerBound(times, times[k]) == k;
    }
  }

  /** The first sample at its time is returned as it is. */
  lemma SampleReturned(times: seq<real>, vecs: seq<Vec>, mats: seq<Mat>, k: nat)
    requires Nondecreasing(times) && k < |times| == |vecs| == |mats| && (k > 0 ==> times[k-1] < times[k])
    ensures InterpolateVec(TimeSegment(times[k], times), vecs) == vecs[k]
    ensures InterpolateMat(TimeSegment(times[k], times), mats) == mats[k]
  {
    hide TimeSegment;
    SegmentAtSample(times, k);
    if |times| > 1 {
      AtTheEnds(TimeSegment(times[k], times), vecs, mats);
    }
  }

  /** On an interval that is long enough the times themselves interpolate to the query. */
  lemma TimesInterpolateToQuery(t: real, times: seq<real>)
    requires Nondecreasing(times) && 2 <= |times| && times[0] < t <= times[|times|-1]
    ensures var s := TimeSegment(t, times);
            times[s.index+1] - times[s.index] > 2.0 * WEAK_EPSILON ==>
              times[s.index] < t <= times[s.index+1] && InterpolateReal(s, times) == t
  {
    hide TimeSegment;
    SegmentMeans(t, times);
    var s := TimeSegment(t, times);
    var a, b := times[s.index], times[s.index+1];
    assert s.alpha * a + (1.0 - s.alpha) * b == b - s.alpha * (b - a);
  }

  lemma WeightedLine(w: real, a: real, b: real, t: real, c: real, d: real)
    requires w * a + (1.0 - w) * b == t
    ensures w * (c + a * d) + (1.0 - w) * (c + b * d) == c + t * d
  {
    assert w * (a * d) == (w * a) * d && (1.0 - w) * (b * d) == ((1.0 - w) * b) * d;
  }

  lemma LineEntries(w: real, a: real, b: real, t: real, c: Vec, d: Vec)
    requires |c| == |d| && w * a + (1.0 - w) * b == t
    ensures Add(Scale(w, Add(c, Scale(a, d))), Scale(1.0 - w, Add(c, Scale(b, d)))) == Add(c, Scale(t, d))
  {
    var l, r := Add(Scale(w, Add(c, Scale(a, d))), Scale(1.0 - w, Add(c, Scale(b, d)))), Add(c, Scale(t, d));
    forall i | 0 <= i < |c|
      ensures l[i] == r[i]
    {
      WeightedLine(w, a, b, t, c[i], d[i]);
    }
  }

  /**
   * Samples on a line in time interpolate to the point of the line at the query, on an interval that is long enough.
   */
  lemma LinesInterpolateToQuery(t: real, times: seq<real>, vecs: seq<Vec>, mats: seq<Mat>, c: Vec, d: Vec, m: Mat,
                                n: Mat)
    requires Nondecreasing(times) && 2 <= |times| == |vecs| == |mats| && times[0] < t <= times[|times|-1]
    requires |c| == |d| && SameShape(m, n)
    requires forall k | 0 <= k < |times| ::
               vecs[k] == Add(c, Scale(times[k], d)) && mats[k] == MAdd(m, MScale(times[k], n))
    ensures var s := TimeSegment(t, times);
            times[s.index+1] - times[s.index] > 2.0 * WEAK_EPSILON ==>
              InterpolateVec(s, vecs) == Add(c, Scale(t, d)) && InterpolateMat(s, mats) == MAdd(m, MScale(t, n))
  {
    hide TimeSegment;
    var s := TimeSegment(t, times);
    var a, b := times[s.index], times[s.index+1];
    if b - a > 2.0 * WEAK_EPSILON {
      TimesInterpolateToQuery(t, times);
      LineEntries(s.alpha, a, b, t, c, d);
      forall i | 0 <= i < |m.rows|
        ensures InterpolateMat(s, mats).rows[i] == MAdd(m, MScale(t, n)).rows[i]
      {
        LineEntries(s.alpha, a, b, t, m.rows[i], n.rows[i]);
      }
      assert InterpolateMat(s, mats).rows == MAdd(m, MScale(t, n)).rows;
    }
  }
}
