/** Time-varying affine controllers u = bias(t) + gain(t) x, and their event times. */
module Controllers {
  import opened Vectors
  import opened NumericTraits
  import opened Types
  import opened Interpolation

  /** The control law stored in a controller. */
  datatype Law = Law(timeStamp: seq<real>, bias: seq<Vec>, gain: seq<Mat>) {
    ghost predicate Consistent() {
      && |timeStamp| == |bias| == |gain| > 0
      && forall k | 0 <= k < |bias| :: |bias[k]| == |gain[k].rows|
    }

    /** The interpolated gain can be applied to x. */
    ghost predicate Accepts(t: real, x: Vec) {
      && Consistent()
      && var s := TimeSegment(t, timeStamp);
         && |InterpolateVec(s, bias)| == |InterpolateMat(s, gain).rows|
         && InterpolateMat(s, gain).cols == |x|
    }

    function Input(t: real, x: Vec): Vec
      requires Accepts(t, x)
    {
      var s := TimeSegment(t, timeStamp);
      Add(InterpolateVec(s, bias), MulV(InterpolateMat(s, gain), x))
    }

    /** What sample k alone asks for. */
    function SampleInput(k: nat, x: Vec): Vec
      requires k < |bias| == |gain| && |bias[k]| == |gain[k].rows| && gain[k].cols == |x|
    {
      Add(bias[k], MulV(gain[k], x))
    }

    function Prefix(n: nat): Law
      requires n <= |timeStamp| == |bias| == |gain|
    {
      Law(timeStamp[..n], bias[..n], gain[..n])
    }
  }

  /** At the time of a sample, the first one at that time, the law is that of the sample. */
  lemma InputAtSample(law: Law, k: nat, x: Vec)
    requires law.Consistent() && Nondecreasing(law.timeStamp) && k < |law.timeStamp| && law.gain[k].cols == |x|
    requires k > 0 ==> law.timeStamp[k-1] < law.timeStamp[k]
    ensures law.Accepts(law.timeStamp[k], x) && law.Input(law.timeStamp[k], x) == law.SampleInput(k, x)
  {
    hide InterpolateVec, InterpolateMat, TimeSegment, MulV;
    SampleReturned(law.timeStamp, law.bias, law.gain, k);
  }

  /** Before the first sample and after the last one their laws go on. */
  lemma InputOutside(law: Law, t: real, x: Vec)
    requires law.Consistent() && Nondecreasing(law.timeStamp)
    ensures t <= law.timeStamp[0] && law.gain[0].cols == |x| ==>
              law.Accepts(t, x) && law.Input(t, x) == law.SampleInput(0, x)
    ensures var n := |law.timeStamp| - 1; t > law.timeStamp[n] && law.gain[n].cols == |x| ==>
              law.Accepts(t, x) && law.Input(t, x) == law.SampleInput(n, x)
  {
    hide TimeSegment, MulV;
    if |law.timeStamp| > 1 {
      SegmentMeans(t, law.timeStamp);
      AtTheEnds(TimeSegment(t, law.timeStamp), law.bias, law.gain);
    }
  }

  lemma MeanOfLaws(w: real, b: Vec, c: Vec, g: Mat, h: Mat, x: Vec)
    requires |b| == |c| == |g.rows| && SameShape(g, h) && g.cols == |x|
    ensures Add(Add(Scale(w, b), Scale(1.0 - w, c)), MulV(MAdd(MScale(w, g), MScale(1.0 - w, h)), x))
            == Add(Scale(w, Add(b, MulV(g, x))), Scale(1.0 - w, Add(c, MulV(h, x))))
  {
    hide MulV;
    MAddMulV(MScale(w, g), MScale(1.0 - w, h), x);
    MScaleMulV(w, g, x);
    MScaleMulV(1.0 - w, h, x);
    ScaleSum(w, b, MulV(g, x));
    ScaleSum(1.0 - w, c, MulV(h, x));
  }

  lemma ScaleSum(w: real, a: Vec, b: Vec)
    requires |a| == |b|
    ensures Scale(w, Add(a, b)) == Add(Scale(w, a), Scale(w, b))
  {
    forall i | 0 <= i < |a|
      ensures Scale(w, Add(a, b))[i] == Add(Scale(w, a), Scale(w, b))[i]
    {
      assert w * (a[i] + b[i]) == w * a[i] + w * b[i];
    }
  }

  /**
   * Between two samples the input is the mean of what they ask for, the nearer one counting more: the weight w of the
   * earlier one is in proportion to the time left. Between samples close in time it is what the nearer one asks for.
   */
  lemma InputBetween(law: Law, t: real, x: Vec, i: nat, w: real)
    requires law.Consistent() && Nondecreasing(law.timeStamp) && i + 1 < |law.timeStamp|
    requires law.timeStamp[i] < t <= law.timeStamp[i+1]
    requires SameShape(law.gain[i], law.gain[i+1]) && law.gain[i].cols == |x|
    requires w * (law.timeStamp[i+1] - law.timeStamp[i]) == law.timeStamp[i+1] - t
    ensures law.Accepts(t, x)
    ensures law.Input(t, x)
            == if law.timeStamp[i+1] - law.timeStamp[i] > 2.0 * WEAK_EPSILON
               then Add(Scale(w, law.SampleInput(i, x)), Scale(1.0 - w, law.SampleInput(i + 1, x)))
               else if law.timeStamp[i+1] - t < t - law.timeStamp[i] then law.SampleInput(i + 1, x)
               else law.SampleInput(i, x)
  {
    hide TimeSegment, MulV, LowerBound;
    var s := TimeSegment(t, law.timeStamp);
    SegmentMeans(t, law.timeStamp);
    assert s.index == i;
    var a, b := law.timeStamp[i], law.timeStamp[i+1];
    if b - a > 2.0 * WEAK_EPSILON {
      if s.alpha != w {
        ZeroProduct(s.alpha - w, b - a);
      }
      MeanOfLaws(w, law.bias[i], law.bias[i+1], law.gain[i], law.gain[i+1], x);
    } else {
      AtTheEnds(s, law.bias, law.gain);
    }
  }

  class LinearController {
    var timeStamp: seq<real>
    var biasArray: seq<Vec>
    var deltaBiasArray: seq<Vec>
    var gainArray: seq<Mat>

    constructor ()
      ensures CurrentLaw() == Law([], [], []) && deltaBiasArray == []
    {
      timeStamp, biasArray, deltaBiasArray, gainArray := [], [], [], [];
    }

    ghost function CurrentLaw(): Law
      reads this
    {
      Law(timeStamp, biasArray, gainArray)
    }

    method ComputeInput(t: real, x: Vec) returns (u: Vec)
      requires CurrentLaw().Accepts(t, x)
      ensures u == CurrentLaw().Input(t, x)
    {
      var indexAlpha := TimeSegment(t, timeStamp);
      var uff := InterpolateVec(indexAlpha, biasArray);
      var k := InterpolateMat(indexAlpha, gainArray);
      u := Add(uff, MulV(k, x));
    }

    method Clear()
      modifies this
      ensures CurrentLaw() == Law([], [], []) && deltaBiasArray == []
    {
      timeStamp, biasArray, deltaBiasArray, gainArray := [], [], [], [];
    }

    /** Appends samples [index, index + length) of a controller that starts no earlier than this one ends. */
    method Concatenate(next: LinearController, index: nat, length: nat) returns (r: Result<()>)
      requires next != this
      requires index + length <= |next.timeStamp| == |next.biasArray| == |next.gainArray|
      requires timeStamp != [] ==> next.timeStamp != []
      modifies this
      ensures r.Err? <==> old(timeStamp) != [] && old(timeStamp)[|old(timeStamp)|-1] > next.timeStamp[0]
      ensures r.Err? ==> CurrentLaw() == old(CurrentLaw()) && deltaBiasArray == old(deltaBiasArray)
      ensures r.Ok? ==>
                && timeStamp == old(timeStamp) + next.timeStamp[index..index + length]
                && biasArray == old(biasArray) + next.biasArray[index..index + length]
                && gainArray == old(gainArray) + next.gainArray[index..index + length]
                && deltaBiasArray == if index + length < |next.deltaBiasArray|
                                     then old(deltaBiasArray) + next.deltaBiasArray[index..index + length] else []
    {
      if timeStamp != [] && timeStamp[|timeStamp|-1] > next.timeStamp[0] {
        return Err("Concatenate requires that the nextController comes later in time.");
      }
      var last := index + length;
      timeStamp := timeStamp + next.timeStamp[index..last];
      biasArray := biasArray + next.biasArray[index..last];
      gainArray := gainArray + next.gainArray[index..last];
      if last < |next.deltaBiasArray| {
        deltaBiasArray := deltaBiasArray + next.deltaBiasArray[index..last];
      } else {
        deltaBiasArray := [];
      }
      return Ok(());
    }

    /** Times at which consecutive stamps nearly coincide; close detections are merged into the last of them. */
    method ControllerEventTimes() returns (eventTimes: seq<real>)
      ensures |timeStamp| < 2 ==> eventTimes == []
      ensures 2 <= |timeStamp| && Nondecreasing(timeStamp) && timeStamp[0] >= 0.0 ==> AreEvents(eventTimes, timeStamp)
    {
      hide OpenEvent, LeadsTo, AreEvents, Nondecreasing;
      if |timeStamp| < 2 {
        return [];
      }
      eventTimes := [0.0];
      var lastEvent := timeStamp[0];
      ghost var sorted := Nondecreasing(timeStamp) && timeStamp[0] >= 0.0;
      ghost var at := 0;
      StartScan(timeStamp);
      for i := 0 to |timeStamp| - 1
        invariant eventTimes != []
        invariant sorted ==> OpenEvent(eventTimes, timeStamp, lastEvent, at, i) && LeadsTo(eventTimes, timeStamp, i)
      {
        var eventDetected := timeStamp[i+1] - timeStamp[i] < 2.0 * WEAK_EPSILON;
        var sufficientTimeSinceEvent := timeStamp[i] - lastEvent > 2.0 * WEAK_EPSILON;
        if eventDetected && sufficientTimeSinceEvent {
          if sorted {
            PushEvent(eventTimes, timeStamp, lastEvent, at, i);
            PushLeads(eventTimes, timeStamp, lastEvent, at, i);
          }
          eventTimes := eventTimes + [timeStamp[i]];
          lastEvent := eventTimes[|eventTimes|-1];
          at := i;
        } else if eventDetected {
          if sorted {
            ReplaceEvent(eventTimes, timeStamp, lastEvent, at, i);
            ReplaceLeads(eventTimes, timeStamp, lastEvent, at, i);
          }
          eventTimes := eventTimes[|eventTimes|-1 := timeStamp[i]];
          lastEvent := eventTimes[|eventTimes|-1];
          at := i;
        } else if sorted {
          KeepScanning(eventTimes, timeStamp, lastEvent, at, i);
          KeepLeads(eventTimes, timeStamp, i);
        }
      }
      if sorted {
        EndScan(eventTimes, timeStamp, lastEvent, at);
      }
    }
  }

  // ----- event times

  predicate Short(times: seq<real>, i: nat)
    requires i + 1 < |times|
  {
    times[i+1] - times[i] < 2.0 * WEAK_EPSILON
  }

  /** A short interval that no further short interval follows within two tolerances. */
  ghost predicate EventSample(times: seq<real>, i: nat) {
    && i + 1 < |times| && Short(times, i)
    && forall j | i < j && j + 1 < |times| && Short(times, j) :: times[j] - times[i] > 2.0 * WEAK_EPSILON
  }

  ghost predicate IsEvent(times: seq<real>, e: real) {
    exists i: nat :: EventSample(times, i) && times[i] == e
  }

  ghost predicate Spaced(events: seq<real>) {
    forall m, n | 0 <= m < n < |events| :: events[n] - events[m] > 2.0 * WEAK_EPSILON
  }

  /** No short interval among the first n begins within two tolerances of the first time. */
  predicate ZeroKept(times: seq<real>, n: nat)
    requires n < |times|
  {
    forall k | 0 <= k < n && Short(times, k) :: times[k] - times[0] > 2.0 * WEAK_EPSILON
  }

  /** Strictly more than two tolerances apart; exactly the event samples, and the leading zero just when it is kept. */
  ghost predicate AreEvents(events: seq<real>, times: seq<real>) {
    && events != [] && |times| > 0
    && (if ZeroKept(times, |times| - 1) then events[0] == 0.0 else IsEvent(times, events[0]))
    && Spaced(events)
    && (forall m | 0 <= m < |events| :: (m == 0 && events[0] == 0.0) || IsEvent(times, events[m]))
    && (forall i: nat | EventSample(times, i) :: times[i] in events)
  }

  ghost predicate ClosedEvents(events: seq<real>, times: seq<real>) {
    forall m | 0 <= m < |events| - 1 :: (m == 0 && events[0] == 0.0) || IsEvent(times, events[m])
  }

  /** Every short interval before i is an event or was superseded by a later one close by. */
  ghost predicate Covered(events: seq<real>, times: seq<real>, i: nat)
    requires i < |times|
  {
    forall k | 0 <= k < i && Short(times, k) :: times[k] in events || Superseded(times, k, i)
  }

  ghost predicate Superseded(times: seq<real>, k: nat, i: nat)
    requires k < i < |times|
  {
    exists j :: k < j < i && Short(times, j) && times[j] - times[k] <= 2.0 * WEAK_EPSILON
  }

  /** State of the scan before sample i: the last event sits at sample `at`, or nothing was detected yet. */
  ghost predicate OpenEvent(events: seq<real>, times: seq<real>, lastEvent: real, at: nat, i: nat) {
    && events != [] && i < |times|
    && Spaced(events) && ClosedEvents(events, times) && Covered(events, times, i)
    && if events == [0.0] && lastEvent == times[0] && (forall j | 0 <= j < i :: !Short(times, j)) then true
       else
         && at < i && times[at] == lastEvent == events[|events|-1] && Short(times, at)
         && (forall j | at < j < i :: !Short(times, j))
  }

  /** What is known of the first entry before sample i: the zero, or an event unless that one is still open. */
  ghost predicate LeadsTo(events: seq<real>, times: seq<real>, i: nat) {
    && events != [] && i < |times|
    && if ZeroKept(times, i) then events[0] == 0.0 && (|events| == 1 ==> forall j | 0 <= j < i :: !Short(times, j))
       else |events| > 1 ==> IsEvent(times, events[0])
  }

  lemma PushLeads(events: seq<real>, times: seq<real>, lastEvent: real, at: nat, i: nat)
    requires Nondecreasing(times) && |times| > 0 && times[0] >= 0.0 && i + 1 < |times|
    requires OpenEvent(events, times, lastEvent, at, i) && LeadsTo(events, times, i)
    requires Short(times, i) && times[i] - lastEvent > 2.0 * WEAK_EPSILON
    ensures LeadsTo(events + [times[i]], times, i + 1)
  {
    hide Covered, Spaced, ClosedEvents, IsEvent, EventSample;
    assert times[0] <= lastEvent;
    if !ZeroKept(times, i) && |events| == 1 {
      OpenIsEvent(times, at, i);
    }
  }

  lemma ReplaceLeads(events: seq<real>, times: seq<real>, lastEvent: real, at: nat, i: nat)
    requires Nondecreasing(times) && |times| > 0 && times[0] >= 0.0 && i + 1 < |times|
    requires OpenEvent(events, times, lastEvent, at, i) && LeadsTo(events, times, i)
    requires Short(times, i) && times[i] - lastEvent <= 2.0 * WEAK_EPSILON
    ensures LeadsTo(events[|events|-1 := times[i]], times, i + 1)
  {
    hide Covered, Spaced, ClosedEvents, IsEvent, EventSample;
    if ZeroKept(times, i) && |events| > 1 {
      assert times[at] - times[0] > 2.0 * WEAK_EPSILON;
    }
  }

  lemma KeepLeads(events: seq<real>, times: seq<real>, i: nat)
    requires i + 1 < |times| && LeadsTo(events, times, i) && !Short(times, i)
    ensures LeadsTo(events, times, i + 1)
  {
    hide IsEvent;
  }

  lemma StartScan(times: seq<real>)
    requires |times| > 0
    ensures OpenEvent([0.0], times, times[0], 0, 0) && LeadsTo([0.0], times, 0)
  {
  }

  lemma StillSuperseded(times: seq<real>, k: nat, i: nat)
    requires k < i < |times| - 1 && Superseded(times, k, i)
    ensures Superseded(times, k, i + 1)
  {
  }

  lemma KeepScanning(events: seq<real>, times: seq<real>, lastEvent: real, at: nat, i: nat)
    requires OpenEvent(events, times, lastEvent, at, i) && i + 1 < |times| && !Short(times, i)
    ensures OpenEvent(events, times, lastEvent, at, i + 1)
  {
    hide Superseded, Spaced, ClosedEvents;
    forall k | 0 <= k < i + 1 && Short(times, k) && times[k] !in events
      ensures Superseded(times, k, i + 1)
    {
      StillSuperseded(times, k, i);
    }
  }

  lemma PushSpaced(events: seq<real>, e: real)
    requires Spaced(events) && events != [] && e - events[|events|-1] > 2.0 * WEAK_EPSILON
    ensures Spaced(events + [e])
  {
    forall m, n | 0 <= m < n < |events + [e]|
      ensures (events + [e])[n] - (events + [e])[m] > 2.0 * WEAK_EPSILON
    {
      assert m < |events| && (m < |events| - 1 ==> events[|events|-1] - events[m] > 2.0 * WEAK_EPSILON);
    }
  }

  lemma PushCovered(events: seq<real>, times: seq<real>, i: nat)
    requires i + 1 < |times| && Covered(events, times, i)
    ensures Covered(events + [times[i]], times, i + 1)
  {
    hide Superseded;
    var more := events + [times[i]];
    assert more[|events|] == times[i];
    forall k | 0 <= k < i && Short(times, k) && times[k] !in more
      ensures Superseded(times, k, i + 1)
    {
      StillSuperseded(times, k, i);
    }
  }

  lemma PushEvent(events: seq<real>, times: seq<real>, lastEvent: real, at: nat, i: nat)
    requires Nondecreasing(times) && |times| > 0 && times[0] >= 0.0 && i + 1 < |times|
    requires OpenEvent(events, times, lastEvent, at, i)
    requires Short(times, i) && times[i] - lastEvent > 2.0 * WEAK_EPSILON
    ensures OpenEvent(events + [times[i]], times, times[i], i, i + 1)
  {
    hide Covered, Spaced, ClosedEvents, IsEvent, EventSample;
    PushSpaced(events, times[i]);
    PushCovered(events, times, i);
    if !(|events| == 1 && events[0] == 0.0) {
      OpenIsEvent(times, at, i);
    }
    PushClosed(events, times, times[i]);
  }

  lemma PushClosed(events: seq<real>, times: seq<real>, e: real)
    requires events != [] && ClosedEvents(events, times)
    requires (|events| == 1 && events[0] == 0.0) || IsEvent(times, events[|events|-1])
    ensures ClosedEvents(events + [e], times)
  {
    hide IsEvent;
    var more := events + [e];
    assert forall m | 0 <= m < |events| :: more[m] == events[m];
  }

  /** The open event is final once the next short interval is far enough away. */
  lemma OpenIsEvent(times: seq<real>, at: nat, i: nat)
    requires Nondecreasing(times) && at < i < |times| && Short(times, at)
    requires forall j | at < j < i :: !Short(times, j)
    requires i + 1 < |times| ==> times[i] - times[at] > 2.0 * WEAK_EPSILON
    ensures EventSample(times, at) && IsEvent(times, times[at])
  {
  }

  lemma ReplaceSpaced(events: seq<real>, e: real)
    requires Spaced(events) && events != [] && e >= events[|events|-1]
    ensures Spaced(events[|events|-1 := e])
  {
  }

  lemma ReplaceCovered(events: seq<real>, times: seq<real>, i: nat)
    requires i + 1 < |times| && events != [] && Covered(events, times, i) && Short(times, i)
    requires (forall k | 0 <= k < i :: !Short(times, k)) || times[i] - events[|events|-1] <= 2.0 * WEAK_EPSILON
    ensures Covered(events[|events|-1 := times[i]], times, i + 1)
  {
    var last, more := |events| - 1, events[|events|-1 := times[i]];
    assert more[last] == times[i];
    forall k | 0 <= k < i && Short(times, k) && times[k] !in more
      ensures Superseded(times, k, i + 1)
    {
      assert forall m | 0 <= m < last :: more[m] == events[m];
      if times[k] in events {
        assert times[k] == events[last];
      } else {
        StillSuperseded(times, k, i);
      }
    }
  }

  lemma ReplaceEvent(events: seq<real>, times: seq<real>, lastEvent: real, at: nat, i: nat)
    requires Nondecreasing(times) && |times| > 0 && times[0] >= 0.0 && i + 1 < |times|
    requires OpenEvent(events, times, lastEvent, at, i)
    requires Short(times, i) && times[i] - lastEvent <= 2.0 * WEAK_EPSILON
    ensures OpenEvent(events[|events|-1 := times[i]], times, times[i], i, i + 1)
  {
    hide Covered, Spaced;
    ReplaceSpaced(events, times[i]);
    ReplaceCovered(events, times, i);
    var last, more := |events| - 1, events[|events|-1 := times[i]];
    assert forall m | 0 <= m < last :: more[m] == events[m];
  }

  lemma EventNotSuperseded(times: seq<real>, k: nat)
    requires EventSample(times, k)
    ensures k < |times| - 1 && Short(times, k) && !Superseded(times, k, |times| - 1)
  {
  }

  lemma EventsCovered(events: seq<real>, times: seq<real>)
    requires |times| > 0 && Covered(events, times, |times| - 1)
    ensures forall k: nat | EventSample(times, k) :: times[k] in events
  {
    hide Superseded;
    forall k: nat | EventSample(times, k)
      ensures times[k] in events
    {
      EventNotSuperseded(times, k);
    }
  }

  lemma EndScan(events: seq<real>, times: seq<real>, lastEvent: real, at: nat)
    requires Nondecreasing(times) && |times| > 0
    requires OpenEvent(events, times, lastEvent, at, |times| - 1) && LeadsTo(events, times, |times| - 1)
    ensures AreEvents(events, times)
  {
    hide Spaced, EventSample, Covered, IsEvent;
    if exists j: nat :: j + 1 < |times| && Short(times, j) {
      OpenIsEvent(times, at, |times| - 1);
    }
    EventsCovered(events, times);
  }

  // ----- the events in closed form

  /** Times of the event samples before sample n, in order. */
  ghost function EventTimes(times: seq<real>, n: nat): seq<real>
    requires n <= |times|
  {
    if n == 0 then [] else EventTimes(times, n - 1) + (if EventSample(times, n - 1) then [times[n-1]] else [])
  }

  ghost predicate Rising(a: seq<real>) {
    forall m, n | 0 <= m < n < |a| :: a[m] < a[n]
  }

  ghost predicate SampleBefore(times: seq<real>, n: nat, e: real) {
    exists i: nat :: i < n && EventSample(times, i) && times[i] == e
  }

  lemma {:induction false} ListedSample(times: seq<real>, n: nat, e: real)
    requires n <= |times|
    ensures e in EventTimes(times, n) <==> SampleBefore(times, n, e)
  {
    if n > 0 {
      ListedSample(times, n - 1, e);
      hide EventTimes;
      assert SampleBefore(times, n, e)
             <==> SampleBefore(times, n - 1, e) || (EventSample(times, n - 1) && times[n-1] == e);
    }
  }

  lemma {:induction false} EventTimesRise(times: seq<real>, n: nat)
    requires n <= |times|
    ensures Rising(EventTimes(times, n))
  {
    if n > 0 {
      EventTimesRise(times, n - 1);
      if EventSample(times, n - 1) {
        var before := EventTimes(times, n - 1);
        forall m | 0 <= m < |before|
          ensures before[m] < times[n-1]
        {
          ListedSample(times, n - 1, before[m]);
          SampleEarlier(times, n - 1, before[m]);
        }
      }
    }
  }

  lemma SampleEarlier(times: seq<real>, n: nat, e: real)
    requires SampleBefore(times, n, e) && EventSample(times, n)
    ensures e < times[n]
  {
    var i: nat :| i < n && EventSample(times, i) && times[i] == e;
    assert Short(times, n);
  }

  /** A rising sequence is determined by its elements. */
  lemma {:induction false} SameRising(a: seq<real>, b: seq<real>)
    requires Rising(a) && Rising(b) && forall e :: e in a <==> e in b
    ensures a == b
  {
    assert (a != [] ==> a[0] in a) && (b != [] ==> b[0] in b);
    if a != [] && b != [] {
      var p, q := a[..|a|-1], b[..|b|-1];
      var last := a[|a|-1];
      assert last in b && b[|b|-1] in a;
      assert b[|b|-1] == last;
      forall e
        ensures e in p <==> e in q
      {
        assert e in p <==> e in a && e != last;
        assert e in q <==> e in b && e != last;
      }
      SameRising(p, q);
    }
  }

  /** The zero, when it is kept, and the event times. */
  ghost function Listed(times: seq<real>): seq<real>
    requires |times| > 0
  {
    (if ZeroKept(times, |times| - 1) then [0.0] else []) + EventTimes(times, |times|)
  }

  lemma ListedRises(times: seq<real>)
    requires |times| > 0 && times[0] >= 0.0
    ensures Rising(Listed(times)) && (ZeroKept(times, |times| - 1) ==> 0.0 !in EventTimes(times, |times|))
  {
    var listed := EventTimes(times, |times|);
    EventTimesRise(times, |times|);
    if ZeroKept(times, |times| - 1) {
      forall m | 0 <= m < |listed|
        ensures listed[m] > 0.0
      {
        ListedSample(times, |times|, listed[m]);
        var i: nat :| i < |times| && EventSample(times, i) && times[i] == listed[m];
        assert Short(times, i);
      }
    }
  }

  lemma SameEvents(events: seq<real>, times: seq<real>, e: real)
    requires |times| > 0 && AreEvents(events, times)
    ensures e in events <==> e in Listed(times)
  {
    hide Spaced;
    var listed, kept := EventTimes(times, |times|), ZeroKept(times, |times| - 1);
    ListedSample(times, |times|, e);
    if e in events && !(kept && e == 0.0) {
      assert IsEvent(times, e);
    }
    assert kept ==> Listed(times)[0] == 0.0 && events[0] == 0.0;
    assert e in Listed(times) <==> (kept && e == 0.0) || e in listed;
  }

  /**
   * The event times are those of the event samples in order, after a zero unless the first short interval begins within
   * two tolerances of the first time. So without the zero every mode is looked up one event later.
   */
  lemma EventsAreListed(events: seq<real>, times: seq<real>)
    requires |times| > 0 && times[0] >= 0.0 && Nondecreasing(times) && AreEvents(events, times)
    ensures var listed := EventTimes(times, |times|);
            if ZeroKept(times, |times| - 1) then events == [0.0] + listed && 0.0 !in listed else events == listed
  {
    hide EventSample, EventTimes;
    ListedRises(times);
    forall e
      ensures e in events <==> e in Listed(times)
    {
      SameEvents(events, times, e);
    }
    assert Rising(events) by {
      assert Spaced(events);
    }
    SameRising(events, Listed(times));
  }

  // ----- controllers indexed by mode

  class StateBasedLinearController {
    var ctrl: LinearController?
    var ctrlEventTimes: seq<real>

    constructor ()
      ensures ctrl == null
    {
      ctrl, ctrlEventTimes := null, [];
    }

    method SetController(controller: LinearController?) returns (r: Result<()>)
      modifies this
      ensures r.Err? <==> controller == null
      ensures r.Ok? ==> ctrl == controller
      ensures r.Ok? && 2 <= |controller.timeStamp| && Nondecreasing(controller.timeStamp)
              && controller.timeStamp[0] >= 0.0
              ==> AreEvents(ctrlEventTimes, controller.timeStamp)
      ensures r.Ok? && |controller.timeStamp| < 2 ==> ctrlEventTimes == []
    {
      if controller == null {
        return Err("The controller pointer is null!");
      }
      ctrl := controller;
      ctrlEventTimes := controller.ControllerEventTimes();
      return Ok(());
    }

    method ComputeInput(t: real, x: Vec) returns (u: Vec)
      requires ctrl != null && |x| > 0 && x[|x|-1] >= 0.0
      requires ctrl.CurrentLaw().Accepts(SpreadQuery(t, x[|x|-1].Floor, ctrlEventTimes), x)
      ensures u == ctrl.CurrentLaw().Input(SpreadQuery(t, x[|x|-1].Floor, ctrlEventTimes), x)
    {
      u := ctrl.ComputeInput(SpreadQuery(t, x[|x|-1].Floor, ctrlEventTimes), x);
    }
  }

  function EventAt(events: seq<real>, m: nat): real
    requires events != []
  {
    if m < |events| then events[m] else events[|events|-1]
  }

  /** The time at which the controller is asked for an input, given the mode carried by the state. */
  function SpreadQuery(t: real, mode: nat, events: seq<real>): real {
    if events == [] then t else
      var tauMinus, tau := EventAt(events, mode), EventAt(events, mode + 1);
      if mode >= |events| - 1 && t > tauMinus then t
      else if t < tauMinus then tauMinus + 2.0 * WEAK_EPSILON
      else if t > tau then tau - WEAK_EPSILON
      else t
  }

  /**
   * In every mode but the last the query stays inside the mode: at most two tolerances after its start when the mode is
   * ahead of time, at most one before its end when the next event is late. In the last mode it does not precede the
   * mode. A time inside the mode is not moved.
   */
  lemma QueryStaysInMode(t: real, mode: nat, events: seq<real>)
    requires events != [] && Spaced(events)
    ensures var q := SpreadQuery(t, mode, events);
            if mode + 1 < |events| then
              && events[mode] <= q <= events[mode+1]
              && (t < events[mode] ==> events[mode] < q <= events[mode] + 2.0 * WEAK_EPSILON)
              && (t > events[mode+1] ==> events[mode+1] - WEAK_EPSILON <= q < events[mode+1])
              && (events[mode] <= t <= events[mode+1] ==> q == t)
            else
              var last := events[|events|-1];
              && (t < last ==> last < q <= last + 2.0 * WEAK_EPSILON)
              && (last <= t ==> q == t)
  {
    if mode + 1 < |events| {
      assert events[mode+1] - events[mode] > 2.0 * WEAK_EPSILON;
    }
  }

  /**
   * When the query is moved into a mode between two events, only samples of that mode contribute: none at or before the
   * pre-event sample i of its first event, none after the pre-event sample j of its second. Ahead of time the segment
   * begins with the post-event sample i + 1; late it ends with the first sample within a tolerance of the second event,
   * which is j unless the sample before j is that close.
   */
  lemma MovedQueryUsesModeSamples(t: real, mode: nat, times: seq<real>, events: seq<real>, i: nat, j: nat)
    requires Nondecreasing(times) && Spaced(events) && mode + 1 < |events|
    requires EventSample(times, i) && times[i] == events[mode]
    requires EventSample(times, j) && times[j] == events[mode+1]
    ensures var s := TimeSegment(SpreadQuery(t, mode, events), times);
            && (t < events[mode] || events[mode+1] < t ==> i < s.index < j)
            && (t < events[mode] ==> s.index == i + 1)
            && (events[mode+1] < t ==>
                  && s.index + 1 < |times| && times[s.index] < times[j] - WEAK_EPSILON <= times[s.index+1]
                  && (s.index + 1 == j <==> times[j-1] < times[j] - WEAK_EPSILON))
  {
    hide TimeSegment, EventSample;
    assert events[mode+1] - events[mode] > 2.0 * WEAK_EPSILON;
    var query := SpreadQuery(t, mode, events);
    ModeSamples(times, i, j);
    if t < events[mode] {
      SegmentBetween(times, query, i + 1, i + 2);
      SegmentBetween(times, query, i + 1, j);
    } else if events[mode+1] < t {
      SegmentBetween(times, query, i + 1, j);
      SegmentMeans(query, times);
    }
  }

  /** Two events in a row: the post-event sample of the first is well before the pre-event sample of the second. */
  lemma ModeSamples(times: seq<real>, i: nat, j: nat)
    requires Nondecreasing(times) && EventSample(times, i) && EventSample(times, j)
    requires times[j] - times[i] > 2.0 * WEAK_EPSILON
    ensures i + 2 <= j < |times| && times[i] + 2.0 * WEAK_EPSILON <= times[i+2]
    ensures times[i+1] < times[i] + 2.0 * WEAK_EPSILON
    ensures times[i+1] + 2.0 * WEAK_EPSILON <= times[j]
  {
    assert i < j;
    assert i + 1 != j;
    assert !Short(times, i + 1);
    assert times[i+2] <= times[j];
  }

  lemma SegmentBetween(times: seq<real>, query: real, a: nat, b: nat)
    requires Nondecreasing(times) && a < b < |times| && times[a] < query <= times[b]
    ensures a <= TimeSegment(query, times).index < b
  {
    var lb := LowerBound(times, query);
    assert lb <= b;
    assert a < lb;
  }
}
