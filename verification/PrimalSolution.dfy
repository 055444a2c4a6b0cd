/**
 * Trajectories with events, and the two ways the solver cuts them: truncation at a final time and extraction of a
 * period.
 */
module PrimalSolutions {
  import opened Vectors
  import opened NumericTraits
  import opened Interpolation
  import opened Controllers

  datatype ModeSchedule = ModeSchedule(eventTimes: seq<real>, modeSequence: seq<nat>)

  datatype Policy =
    | NoPolicy
    | Feedback(controller: LinearController)
    | Feedforward(timeStamp: seq<real>, uff: seq<Vec>)

  class PrimalSolution {
    var timeTrajectory: seq<real>
    var stateTrajectory: seq<Vec>
    var inputTrajectory: seq<Vec>
    var postEventIndices: seq<nat>
    var modeSchedule: ModeSchedule
    var policy: Policy

    constructor ()
      ensures timeTrajectory == [] && stateTrajectory == [] && inputTrajectory == [] && postEventIndices == []
      ensures policy == NoPolicy
    {
      timeTrajectory, stateTrajectory, inputTrajectory, postEventIndices := [], [], [], [];
      modeSchedule, policy := ModeSchedule([], []), NoPolicy;
    }

    ghost predicate SameLengths()
      reads this
    {
      |timeTrajectory| == |stateTrajectory| == |inputTrajectory|
    }
  }

  // ----- truncation

  /** Samples up to the given time and one more. */
  function RequestedLength(times: seq<real>, time: real): (r: nat)
    ensures r <= |times|
  {
    var index := UpperBound(times, time);
    index + (if index != |times| then 1 else 0)
  }

  /** The controller up to the given time and one more sample. */
  method TruncatedController(full: LinearController, finalTime: real) returns (controller: LinearController)
    requires |full.timeStamp| == |full.biasArray| == |full.gainArray|
    ensures fresh(controller)
    ensures controller.CurrentLaw() == full.CurrentLaw().Prefix(RequestedLength(full.timeStamp, finalTime))
  {
    hide RequestedLength;
    controller := new LinearController();
    var length := RequestedLength(full.timeStamp, finalTime);
    var result := controller.Concatenate(full, 0, length);
    assert result.Ok?;
  }

  method GetPrimalSolution(optimized: PrimalSolution, finalTime: real, useFeedbackPolicy: bool, dst: PrimalSolution)
    requires dst != optimized && optimized.SameLengths()
    requires useFeedbackPolicy ==> optimized.policy.Feedback?
    requires useFeedbackPolicy ==>
               var c := optimized.policy.controller; |c.timeStamp| == |c.biasArray| == |c.gainArray|
    modifies dst
    ensures var n := RequestedLength(optimized.timeTrajectory, finalTime);
            && dst.timeTrajectory == optimized.timeTrajectory[..n]
            && dst.stateTrajectory == optimized.stateTrajectory[..n]
            && dst.inputTrajectory == optimized.inputTrajectory[..n]
            && dst.postEventIndices == optimized.postEventIndices[..IndexUpperBound(optimized.postEventIndices, n - 1)]
            && (!useFeedbackPolicy ==>
                  dst.policy == Feedforward(optimized.timeTrajectory[..n], optimized.inputTrajectory[..n]))
    ensures dst.modeSchedule == optimized.modeSchedule
    ensures useFeedbackPolicy ==>
              && dst.policy.Feedback? && fresh(dst.policy.controller)
              && var full := optimized.policy.controller.CurrentLaw();
                 dst.policy.controller.CurrentLaw() == full.Prefix(RequestedLength(full.timeStamp, finalTime))
  {
    hide RequestedLength, IndexUpperBound, Law.Prefix;
    var length: int := RequestedLength(optimized.timeTrajectory, finalTime);
    var eventLength := IndexUpperBound(optimized.postEventIndices, length - 1);
    dst.timeTrajectory := optimized.timeTrajectory[..length];
    dst.stateTrajectory := optimized.stateTrajectory[..length];
    dst.inputTrajectory := optimized.inputTrajectory[..length];
    dst.postEventIndices := optimized.postEventIndices[..eventLength];
    if useFeedbackPolicy {
      var controller := TruncatedController(optimized.policy.controller, finalTime);
      dst.policy := Feedback(controller);
    } else {
      dst.policy := Feedforward(dst.timeTrajectory, dst.inputTrajectory);
    }
    dst.modeSchedule := optimized.modeSchedule;
  }

  /** Truncated event indices are in range, and no in-range event is lost. */
  lemma TruncatedEvents(events: seq<nat>, n: nat)
    requires Increasing(events)
    ensures var kept := events[..IndexUpperBound(events, n - 1)];
            && (forall e | e in kept :: e < n)
            && (forall e | e in events && e < n :: e in kept)
  {
    var r := IndexUpperBound(events, n - 1);
    forall e | e in events && e < n
      ensures e in events[..r]
    {
      var j :| 0 <= j < |events| && events[j] == e;
      assert j < r;
      assert e == events[..r][j];
    }
  }

  lemma LowerBoundOfPrefix(times: seq<real>, t: real, n: nat)
    requires n <= |times| && LowerBound(times, t) < n
    ensures LowerBound(times[..n], t) == LowerBound(times, t)
  {
    var l := LowerBound(times, t);
    var r := LowerBound(times[..n], t);
    assert l < |times[..n]| ==> times[..n][l] == times[l];
    assert r < |times[..n]| ==> times[..n][r] == times[r];
  }

  /** Up to the final time the truncated time array selects the same interval with the same weight. */
  lemma SegmentOfPrefix(times: seq<real>, finalTime: real, t: real)
    requires Nondecreasing(times) && |times| > 0 && t <= finalTime
    ensures var n := RequestedLength(times, finalTime);
            n > 0 && (n == 1 || TimeSegment(t, times[..n]) == TimeSegment(t, times))
    ensures RequestedLength(times, finalTime) == 1 && 1 < |times| ==> TimeSegment(t, times) == Segment(0, 1.0)
  {
    var ub, n := UpperBound(times, finalTime), RequestedLength(times, finalTime);
    if n == |times| {
      assert times[..n] == times;
    } else {
      assert t < times[ub];
      assert LowerBound(times, t) <= ub;
      LowerBoundOfPrefix(times, t, n);
    }
  }

  /** The truncated feedback policy gives every state the input of the full one, up to the final time. */
  lemma TruncatedPolicyAgrees(law: Law, finalTime: real, t: real, x: Vec)
    requires Nondecreasing(law.timeStamp) && law.Accepts(t, x) && t <= finalTime
    ensures var n := RequestedLength(law.timeStamp, finalTime);
            law.Prefix(n).Accepts(t, x) && law.Prefix(n).Input(t, x) == law.Input(t, x)
  {
    var n, s := RequestedLength(law.timeStamp, finalTime), TimeSegment(t, law.timeStamp);
    SegmentOfPrefix(law.timeStamp, finalTime, t);
    if n == 1 < |law.timeStamp| {
      AtTheEnds(s, law.bias, law.gain);
    }
  }

  /** In feedforward mode the policy gives the input of the untruncated trajectory, up to the final time. */
  lemma TruncatedInputAgrees(times: seq<real>, inputs: seq<Vec>, finalTime: real, t: real)
    requires Nondecreasing(times) && |times| == |inputs| > 0 && t <= finalTime
    ensures var n := RequestedLength(times, finalTime);
            && n > 0
            && InterpolateVec(TimeSegment(t, times[..n]), inputs[..n]) == InterpolateVec(TimeSegment(t, times), inputs)
  {
    var n, s := RequestedLength(times, finalTime), TimeSegment(t, times);
    SegmentOfPrefix(times, finalTime, t);
    if n == 1 < |times| && |inputs[0]| == |inputs[1]| {
      ScaleOneZero(inputs[0], inputs[1]);
    }
  }

  // ----- extraction of a time period

  /** Start of the copied segment: never a pre-event sample. */
  function StartSegment(start: real, times: seq<real>, postEvents: seq<nat>): (s: Segment) {
    var lower := TimeSegment(start, times);
    var upper := if lower.alpha == 0.0 then Segment(lower.index + 1, 1.0) else lower;
    if upper.index + 1 in postEvents then Segment(upper.index + 1, 1.0) else upper
  }

  /**
   * The samples strictly inside the two segments, between the two interpolated ones; a single sample is the last one.
   */
  function Copied<T>(i0: nat, i1: nat, front: T, back: T, data: seq<T>): seq<T>
    requires i0 <= i1 + 2 && i1 < |data|
  {
    if i0 == i1 + 2 then [] else if i0 == i1 + 1 then [back] else [front] + data[i0+1..i1+1] + [back]
  }

  method CopySegment<T(0)>(i0: nat, i1: nat, front: T, back: T, data: seq<T>) returns (output: seq<T>)
    requires i0 <= i1 + 2 && i1 < |data|
    ensures output == Copied(i0, i1, front, back, data)
  {
    var buffer := new T[2 + i1 - i0];
    if buffer.Length > 0 {
      buffer[0] := front;
      if i1 >= i0 {
        forall k | i0 + 1 <= k < i1 + 1 {
          buffer[k - i0] := data[k];
        }
      }
      buffer[buffer.Length-1] := back;
    }
    output := buffer[..];
  }

  /** Kept events among the first k, relative to the start of the segment. */
  function KeptUpTo(postEvents: seq<nat>, times: seq<real>, i0: nat, final: real, k: nat): seq<nat>
    requires k <= |postEvents| && forall p | p in postEvents :: p <= |times|
  {
    if k == 0 then [] else
      assert postEvents[k-1] in postEvents;
      var p := postEvents[k-1];
      KeptUpTo(postEvents, times, i0, final, k - 1) + (if p > i0 && times[p-1] <= final then [p - i0] else [])
  }

  function Kept(postEvents: seq<nat>, times: seq<real>, i0: nat, final: real): seq<nat>
    requires forall p | p in postEvents :: p <= |times|
  {
    KeptUpTo(postEvents, times, i0, final, |postEvents|)
  }

  method KeepEvents(postEvents: seq<nat>, times: seq<real>, i0: nat, final: real) returns (events: seq<nat>)
    requires forall p | p in postEvents :: p <= |times|
    ensures events == Kept(postEvents, times, i0, final)
  {
    events := [];
    for k := 0 to |postEvents|
      invariant events == KeptUpTo(postEvents, times, i0, final, k)
    {
      assert postEvents[k] in postEvents;
      var postIndex := postEvents[k];
      if postIndex > i0 && times[postIndex-1] <= final {
        events := events + [postIndex - i0];
      }
    }
  }

  /** The last kept event is at the very end and misses its post-event sample. */
  predicate MissesPair(kept: seq<nat>, i0: nat, i1: nat)
    requires i0 <= i1 + 2
  {
    kept != [] && kept[|kept|-1] == 2 + i1 - i0
  }

  /** What the extraction reads is in range. */
  ghost predicate Extractable(start: real, final: real, times: seq<real>, postEvents: seq<nat>) {
    && |times| > 0
    && (forall p | p in postEvents :: p <= |times|)
    && (|times| > 1 ==> StartSegment(start, times, postEvents).index + 1 < |times|)
    && StartSegment(start, times, postEvents).index <= TimeSegment(final, times).index + 2
  }

  function ExtractedVec(start: real, final: real, times: seq<real>, postEvents: seq<nat>, data: seq<Vec>): seq<Vec>
    requires Extractable(start, final, times, postEvents) && |data| == |times|
  {
    var s0, s1 := StartSegment(start, times, postEvents), TimeSegment(final, times);
    var kept := Kept(postEvents, times, s0.index, final);
    Copied(s0.index, s1.index, InterpolateVec(s0, data), InterpolateVec(s1, data), data)
    + (if MissesPair(kept, s0.index, s1.index) then [InterpolateVec(TimeSegment(final + WEAK_EPSILON, times), data)]
       else [])
  }

  function ExtractedTimes(start: real, final: real, times: seq<real>, postEvents: seq<nat>): seq<real>
    requires Extractable(start, final, times, postEvents)
  {
    var s0, s1 := StartSegment(start, times, postEvents), TimeSegment(final, times);
    var kept := Kept(postEvents, times, s0.index, final);
    Copied(s0.index, s1.index, InterpolateReal(s0, times), InterpolateReal(s1, times), times)
    + (if MissesPair(kept, s0.index, s1.index) then [final] else [])
  }

  method ExtractPrimalSolution(start: real, final: real, input: PrimalSolution, output: PrimalSolution)
    requires input != output && input.SameLengths()
    requires Extractable(start, final, input.timeTrajectory, input.postEventIndices)
    requires output.policy.Feedback? ==> output.policy.controller !in {input as object, output}
    modifies output, if output.policy.Feedback? then {output.policy.controller} else {}
    ensures output.modeSchedule == input.modeSchedule && output.policy == old(output.policy)
    ensures output.policy.Feedback? ==> output.policy.controller.CurrentLaw() == Law([], [], [])
    ensures output.timeTrajectory == ExtractedTimes(start, final, input.timeTrajectory, input.postEventIndices)
    ensures output.stateTrajectory
            == ExtractedVec(start, final, input.timeTrajectory, input.postEventIndices, input.stateTrajectory)
    ensures output.inputTrajectory
            == ExtractedVec(start, final, input.timeTrajectory, input.postEventIndices, input.inputTrajectory)
    ensures output.postEventIndices
            == Kept(input.postEventIndices, input.timeTrajectory,
                    StartSegment(start, input.timeTrajectory, input.postEventIndices).index, final)
    ensures output.SameLengths()
  {
    hide TimeSegment, StartSegment, InterpolateVec, InterpolateReal, Kept, Copied;
    if output.policy.Feedback? {
      output.policy.controller.Clear();
    }
    output.modeSchedule := input.modeSchedule;
    var times, states, inputs := input.timeTrajectory, input.stateTrajectory, input.inputTrajectory;
    var s0 := StartSegment(start, times, input.postEventIndices);
    var s1 := TimeSegment(final, times);
    output.timeTrajectory := CopySegment(s0.index, s1.index, InterpolateReal(s0, times), InterpolateReal(s1, times),
                                         times);
    output.stateTrajectory := CopySegment(s0.index, s1.index, InterpolateVec(s0, states), InterpolateVec(s1, states),
                                          states);
    output.inputTrajectory := CopySegment(s0.index, s1.index, InterpolateVec(s0, inputs), InterpolateVec(s1, inputs),
                                          inputs);
    output.postEventIndices := KeepEvents(input.postEventIndices, times, s0.index, final);
    CopiedLength(s0.index, s1.index, InterpolateReal(s0, times), InterpolateReal(s1, times), times);
    CopiedLength(s0.index, s1.index, InterpolateVec(s0, states), InterpolateVec(s1, states), states);
    CopiedLength(s0.index, s1.index, InterpolateVec(s0, inputs), InterpolateVec(s1, inputs), inputs);
    var events := output.postEventIndices;
    if events != [] && events[|events|-1] == |output.timeTrajectory| {
      var s2 := TimeSegment(final + WEAK_EPSILON, times);
      output.timeTrajectory := output.timeTrajectory
        + [if final + WEAK_EPSILON < final then final + WEAK_EPSILON else final];
      output.stateTrajectory := output.stateTrajectory + [InterpolateVec(s2, states)];
      output.inputTrajectory := output.inputTrajectory + [InterpolateVec(s2, inputs)];
    }
  }

  lemma CopiedLength<T>(i0: nat, i1: nat, front: T, back: T, data: seq<T>)
    requires i0 <= i1 + 2 && i1 < |data|
    ensures |Copied(i0, i1, front, back, data)| == 2 + i1 - i0
  {
  }

  // ----- what an extraction contains

  /** Events are isolated pairs of (nearly) coinciding samples; all other intervals are long. */
  ghost predicate EventPairs(times: seq<real>, postEvents: seq<nat>) {
    && Nondecreasing(times) && |times| >= 2
    && (forall p | p in postEvents :: 0 < p < |times| && times[p] - times[p-1] <= WEAK_EPSILON && p + 1 !in postEvents)
    && (forall k | 0 <= k < |times| - 1 && k + 1 !in postEvents :: times[k+1] - times[k] > 2.0 * WEAK_EPSILON)
  }

  /** A period that ends no earlier than it starts, and not between the two samples of an event. */
  ghost predicate ProperPeriod(start: real, final: real, times: seq<real>, postEvents: seq<nat>)
    requires EventPairs(times, postEvents)
  {
    && start <= final && Extractable(start, final, times, postEvents)
    && forall p | p in postEvents :: !(times[p-1] < final < times[p])
  }

  /** The nearest time within the trajectory. */
  function Clamp(t: real, times: seq<real>): real
    requires |times| > 0
  {
    if t < times[0] then times[0] else if times[|times|-1] < t then times[|times|-1] else t
  }

  lemma OutsideSegment(t: real, times: seq<real>)
    requires Nondecreasing(times) && |times| >= 2
    ensures t <= times[0] ==> TimeSegment(t, times) == Segment(0, 1.0)
    ensures times[|times|-1] < t ==> TimeSegment(t, times) == Segment(|times| - 2, 0.0)
  {
    assert t <= times[0] ==> LowerBound(times, t) == 0;
    assert times[|times|-1] < t ==> LowerBound(times, t) == |times|;
  }

  lemma LocateInside(t: real, times: seq<real>)
    requires Nondecreasing(times) && |times| >= 2 && times[0] < t <= times[|times|-1]
    ensures var i := TimeSegment(t, times).index; times[i] < t <= times[i+1] && LowerBound(times, t) == i + 1
  {
  }

  /**
   * The interpolated end is the final time, or the end of the trajectory next to it; a pair is ended by its later
   * sample.
   */
  lemma EndSegment(start: real, final: real, times: seq<real>, postEvents: seq<nat>)
    requires EventPairs(times, postEvents) && ProperPeriod(start, final, times, postEvents)
    ensures var s := TimeSegment(final, times);
            && times[s.index] <= Clamp(final, times) <= times[s.index+1]
            && InterpolateReal(s, times) == Clamp(final, times)
            && (times[0] < final && s.index + 1 in postEvents
                ==> s.alpha == 0.0 && Clamp(final, times) == times[s.index+1])
  {
    OutsideSegment(final, times);
    var s := TimeSegment(final, times);
    if times[0] < final <= times[|times|-1] {
      LocateInside(final, times);
      if s.index + 1 !in postEvents {
        TimesInterpolateToQuery(final, times);
      }
    }
  }

  lemma StartAtBegin(times: seq<real>, postEvents: seq<nat>)
    requires EventPairs(times, postEvents)
    ensures StartSegment(times[0], times, postEvents) == Segment(if 1 in postEvents then 1 else 0, 1.0)
  {
    assert LowerBound(times, times[0]) == 0;
  }

  lemma FullWeight(s: Segment, data: seq<real>)
    requires s.index + 1 < |data| && s.alpha == 1.0
    ensures InterpolateReal(s, data) == data[s.index]
  {
  }

  /**
   * The start segment: at a post-event sample whose pair holds the start, or else interpolating to the start itself.
   */
  ghost predicate StartsWell(start: real, s: Segment, times: seq<real>, postEvents: seq<nat>) {
    && s.index + 1 !in postEvents && s.index < |times|
    && (|| (s.index in postEvents && 0 < s.index && s.alpha == 1.0 && times[s.index-1] <= start <= times[s.index])
        || (s.index + 1 < |times| && InterpolateReal(s, times) == start))
  }

  lemma StartFacts(start: real, times: seq<real>, postEvents: seq<nat>)
    requires EventPairs(times, postEvents) && times[0] <= start < times[|times|-1]
    ensures StartsWell(start, StartSegment(start, times, postEvents), times, postEvents)
  {
    hide TimeSegment, StartSegment, InterpolateReal;
    var s := StartSegment(start, times, postEvents);
    if start == times[0] {
      StartAtBegin(times, postEvents);
      if 1 !in postEvents {
        FullWeight(s, times);
      }
    } else {
      LocateInside(start, times);
      StartInside(start, times, postEvents);
      if s.index + 1 < |times| && s.alpha == 1.0 {
        FullWeight(s, times);
      }
    }
  }

  /** A start that can be extracted lies before the end of the trajectory, and may as well be moved into it. */
  lemma StartIsInside(start: real, final: real, times: seq<real>, postEvents: seq<nat>)
    requires EventPairs(times, postEvents) && Extractable(start, final, times, postEvents)
    ensures times[0] <= Clamp(start, times) < times[|times|-1]
    ensures StartSegment(start, times, postEvents) == StartSegment(Clamp(start, times), times, postEvents)
  {
    hide TimeSegment;
    OutsideSegment(start, times);
    OutsideSegment(times[0], times);
    StartAtLast(times, postEvents);
    if times[|times|-1] < start {
      StartPastLast(start, times, postEvents);
    }
  }

  lemma StartPastLast(start: real, times: seq<real>, postEvents: seq<nat>)
    requires Nondecreasing(times) && |times| >= 2 && times[|times|-1] < start
    ensures StartSegment(start, times, postEvents).index >= |times| - 1
  {
    hide TimeSegment;
    OutsideSegment(start, times);
  }

  lemma NoWeight(a: real, b: real)
    requires a == 0.0 && b > 0.0
    ensures a / b == 0.0
  {
  }

  /** The last time is found in an interval that ends with it, without weight on the left. */
  lemma LastSegment(times: seq<real>)
    requires Nondecreasing(times) && |times| >= 2 && times[0] < times[|times|-1]
    ensures var s := TimeSegment(times[|times|-1], times);
            && s.alpha == 0.0
            && times[s.index] < times[s.index+1] == times[|times|-1]
  {
    var last := times[|times|-1];
    LocateInside(last, times);
    var s := TimeSegment(last, times);
    var gap, len := times[s.index+1] - last, times[s.index+1] - times[s.index];
    assert gap == 0.0;
    NoWeight(gap, len);
  }

  /** Only an event at the end has two samples at the last time. */
  lemma SamplesAtLast(times: seq<real>, postEvents: seq<nat>, k: nat)
    requires EventPairs(times, postEvents) && k < |times| && times[k] == times[|times|-1]
    ensures k == |times| - 1 || (k == |times| - 2 && k + 1 in postEvents)
  {
    if k < |times| - 1 {
      assert times[k+1] == times[k];
      assert k + 1 in postEvents && k + 2 !in postEvents;
    }
  }

  /** A start at the last time has no segment to be interpolated in. */
  lemma StartAtLast(times: seq<real>, postEvents: seq<nat>)
    requires EventPairs(times, postEvents)
    ensures StartSegment(times[|times|-1], times, postEvents).index == |times| - 1
  {
    hide TimeSegment, InterpolateReal;
    if times[0] < times[|times|-1] {
      LastSegment(times);
      SamplesAtLast(times, postEvents, TimeSegment(times[|times|-1], times).index + 1);
    } else {
      SamplesAtLast(times, postEvents, 0);
      StartAtBegin(times, postEvents);
    }
  }

  lemma StartInside(start: real, times: seq<real>, postEvents: seq<nat>)
    requires EventPairs(times, postEvents) && times[0] < start < times[|times|-1]
    ensures var l, s0 := TimeSegment(start, times), StartSegment(start, times, postEvents);
            if l.index + 1 in postEvents then s0 == Segment(l.index + 1, 1.0)
            else if start < times[l.index+1] then s0 == l && InterpolateReal(s0, times) == start
            else s0 == Segment(if l.index + 2 in postEvents then l.index + 2 else l.index + 1, 1.0)
                 && times[l.index+1] == start && l.index + 2 < |times|
  {
    hide TimeSegment, InterpolateReal;
    LocateInside(start, times);
    var l := TimeSegment(start, times);
    if l.index + 1 in postEvents {
      WeightInPair(start, times, postEvents);
    } else {
      WeightOutsidePairs(start, times, postEvents);
    }
  }

  /** In an event pair the nearer sample takes all the weight. */
  lemma WeightInPair(start: real, times: seq<real>, postEvents: seq<nat>)
    requires EventPairs(times, postEvents) && times[0] < start < times[|times|-1]
    requires TimeSegment(start, times).index + 1 in postEvents
    ensures var l := TimeSegment(start, times); (l.alpha == 0.0 || l.alpha == 1.0) && l.index + 2 !in postEvents
  {
    LocateInside(start, times);
    var l := TimeSegment(start, times);
    assert 0 < LowerBound(times, start) < |times|;
  }

  /** Outside of pairs the weights recover the start, and vanish on the left only at a sample. */
  lemma WeightOutsidePairs(start: real, times: seq<real>, postEvents: seq<nat>)
    requires EventPairs(times, postEvents) && times[0] < start < times[|times|-1]
    requires TimeSegment(start, times).index + 1 !in postEvents
    ensures var l := TimeSegment(start, times);
            && l.index + 1 < |times| && InterpolateReal(l, times) == start
            && (l.alpha == 0.0 <==> start == times[l.index+1])
  {
    hide TimeSegment;
    LocateInside(start, times);
    TimesInterpolateToQuery(start, times);
    var l := TimeSegment(start, times);
    var len := times[l.index+1] - times[l.index];
    assert l.alpha * len == times[l.index+1] - start;
    if start == times[l.index+1] {
      ZeroProduct(l.alpha, len);
    }
  }

  lemma {:induction false} KeptAmong(postEvents: seq<nat>, times: seq<real>, i0: nat, final: real, k: nat, q: nat)
    requires k <= |postEvents| && forall p | p in postEvents :: p <= |times|
    ensures q in KeptUpTo(postEvents, times, i0, final, k)
            <==> q > 0 && q + i0 in postEvents[..k] && q + i0 <= |times| && times[q+i0-1] <= final
  {
    if k > 0 {
      KeptAmong(postEvents, times, i0, final, k - 1, q);
      assert postEvents[..k] == postEvents[..k-1] + [postEvents[k-1]];
      assert postEvents[k-1] in postEvents;
    }
  }

  /** An event is kept exactly when it comes after the start segment and its pre-event time is not past the end. */
  lemma KeptExactly(postEvents: seq<nat>, times: seq<real>, i0: nat, final: real, q: nat)
    requires forall p | p in postEvents :: p <= |times|
    ensures q in Kept(postEvents, times, i0, final) <==> q > 0 && q + i0 in postEvents && times[q+i0-1] <= final
  {
    KeptAmong(postEvents, times, i0, final, |postEvents|, q);
    assert postEvents[..|postEvents|] == postEvents;
  }

  lemma {:induction false} KeptIncreasing(postEvents: seq<nat>, times: seq<real>, i0: nat, final: real, k: nat)
    requires k <= |postEvents| && Increasing(postEvents) && forall p | p in postEvents :: p <= |times|
    ensures Increasing(KeptUpTo(postEvents, times, i0, final, k))
    ensures forall q | q in KeptUpTo(postEvents, times, i0, final, k) ::
              exists j :: 0 <= j < k && postEvents[j] == q + i0
  {
    if k > 0 {
      KeptIncreasing(postEvents, times, i0, final, k - 1);
      var before := KeptUpTo(postEvents, times, i0, final, k - 1);
      forall l | 0 <= l < |before|
        ensures before[l] + i0 < postEvents[k-1]
      {
        assert before[l] in before;
      }
    }
  }

  /** Between an earlier sample and the pre-event sample of p there is a long interval. */
  lemma LongBeforeEvent(times: seq<real>, postEvents: seq<nat>, p: nat, i: nat)
    requires EventPairs(times, postEvents) && p in postEvents && i + 1 < p
    ensures times[i] + 2.0 * WEAK_EPSILON < times[p-1]
  {
    assert p - 1 !in postEvents;
    assert times[i] <= times[p-2];
  }

  /** A kept event is at most two samples past the end segment, and then its pre-event time is the final time. */
  lemma KeptEventNearEnd(start: real, final: real, times: seq<real>, postEvents: seq<nat>, p: nat)
    requires EventPairs(times, postEvents) && ProperPeriod(start, final, times, postEvents)
    requires p in postEvents && times[p-1] <= final && p > StartSegment(start, times, postEvents).index
    ensures var i1 := TimeSegment(final, times).index;
            && times[0] < final && p <= i1 + 2
            && (p == i1 + 2 ==> times[p-1] == final)
            && (p == i1 + 1 ==> times[p] == Clamp(final, times))
  {
    hide InterpolateReal;
    OutsideSegment(start, times);
    OutsideSegment(final, times);
    var i1 := TimeSegment(final, times).index;
    if final <= times[0] {
      if p > 1 {
        LongBeforeEvent(times, postEvents, p, 0);
      }
      assert false;
    } else if final <= times[|times|-1] {
      LocateInside(final, times);
      if p > i1 + 2 {
        LongBeforeEvent(times, postEvents, p, i1 + 1);
      }
    }
  }

  lemma CopiedAt<T>(i0: nat, i1: nat, front: T, back: T, data: seq<T>, q: nat)
    requires i0 <= i1 + 1 && i1 < |data| && q < 2 + i1 - i0
    ensures Copied(i0, i1, front, back, data)[q]
            == if q == 1 + i1 - i0 then back else if q == 0 then front else data[i0 + q]
  {
  }

  /** Just after the pre-event time of an event only its post-event samples have weight. */
  lemma JustAfterEvent(times: seq<real>, postEvents: seq<nat>, p: nat)
    requires EventPairs(times, postEvents) && p in postEvents
    ensures var s := TimeSegment(times[p-1] + WEAK_EPSILON, times);
            s.index == p || (s.index + 1 == p && s.alpha == 0.0)
  {
    var t := times[p-1] + WEAK_EPSILON;
    var lb := LowerBound(times, t);
    assert times[p-1] < t && times[p] <= t;
    assert p <= lb;
    if p + 1 < |times| {
      assert times[p+1] - times[p] > 2.0 * WEAK_EPSILON;
      assert lb <= p + 1;
    }
  }

  ghost predicate PostEventOnly(s: Segment, p: nat) {
    s.index == p || (s.index + 1 == p && s.alpha == 0.0)
  }

  /**
   * Every kept event index points at the post-event sample it had in the input, or, for an event at the final time, at
   * the appended sample, which is interpolated from post-event samples only.
   */
  lemma EventsKeepTheirSamples(start: real, final: real, times: seq<real>, postEvents: seq<nat>, data: seq<Vec>, q: nat)
    requires EventPairs(times, postEvents) && ProperPeriod(start, final, times, postEvents) && Increasing(postEvents)
    requires |data| == |times| && q in Kept(postEvents, times, StartSegment(start, times, postEvents).index, final)
    requires forall k | 0 <= k < |data| - 1 && k + 1 in postEvents :: |data[k]| == |data[k+1]|
    ensures var p, out := q + StartSegment(start, times, postEvents).index,
            ExtractedVec(start, final, times, postEvents, data);
            && p in postEvents && q < |out|
            && if p <= TimeSegment(final, times).index + 1 then out[q] == data[p]
               else
                 && times[p-1] == final && q == |out| - 1
                 && out[q] == InterpolateVec(TimeSegment(final + WEAK_EPSILON, times), data)
                 && PostEventOnly(TimeSegment(final + WEAK_EPSILON, times), p)
  {
    hide StartSegment, TimeSegment, KeptUpTo, Copied;
    var s0, s1 := StartSegment(start, times, postEvents), TimeSegment(final, times);
    KeptExactly(postEvents, times, s0.index, final, q);
    var p := q + s0.index;
    KeptEventNearEnd(start, final, times, postEvents, p);
    var front, back := InterpolateVec(s0, data), InterpolateVec(s1, data);
    CopiedLength(s0.index, s1.index, front, back, data);
    if p <= s1.index + 1 {
      CopiedAt(s0.index, s1.index, front, back, data, q);
      if p == s1.index + 1 {
        EndSegment(start, final, times, postEvents);
        ScaleOneZero(data[p-1], data[p]);
      }
    } else {
      AtTheEnd(start, final, times, postEvents, q);
      JustAfterEvent(times, postEvents, p);
    }
  }

  /** An event past the copied samples is the last one kept, so the missing sample is appended. */
  lemma AtTheEnd(start: real, final: real, times: seq<real>, postEvents: seq<nat>, q: nat)
    requires EventPairs(times, postEvents) && ProperPeriod(start, final, times, postEvents) && Increasing(postEvents)
    requires q in Kept(postEvents, times, StartSegment(start, times, postEvents).index, final)
    requires q + StartSegment(start, times, postEvents).index == TimeSegment(final, times).index + 2
    ensures MissesPair(Kept(postEvents, times, StartSegment(start, times, postEvents).index, final),
                       StartSegment(start, times, postEvents).index, TimeSegment(final, times).index)
  {
    hide StartSegment, TimeSegment;
    var i0, i1 := StartSegment(start, times, postEvents).index, TimeSegment(final, times).index;
    var kept := Kept(postEvents, times, i0, final);
    KeptIncreasing(postEvents, times, i0, final, |postEvents|);
    var last := kept[|kept|-1];
    assert last in kept;
    KeptExactly(postEvents, times, i0, final, last);
    KeptEventNearEnd(start, final, times, postEvents, last + i0);
  }

  /** Where the last sample is appended there is another one before it. */
  lemma MissingNeedsSample(start: real, final: real, times: seq<real>, postEvents: seq<nat>)
    requires EventPairs(times, postEvents) && ProperPeriod(start, final, times, postEvents)
    ensures var i0, i1 := StartSegment(start, times, postEvents).index, TimeSegment(final, times).index;
            MissesPair(Kept(postEvents, times, i0, final), i0, i1) ==> i0 <= i1 + 1 && Clamp(final, times) == final
  {
    hide StartSegment, TimeSegment, KeptUpTo;
    var i0, i1 := StartSegment(start, times, postEvents).index, TimeSegment(final, times).index;
    var kept := Kept(postEvents, times, i0, final);
    if MissesPair(kept, i0, i1) {
      var last := kept[|kept|-1];
      assert last in kept;
      KeptExactly(postEvents, times, i0, final, last);
      KeptEventNearEnd(start, final, times, postEvents, last + i0);
    }
  }

  lemma Between(s: Segment, data: seq<real>)
    requires s.index + 1 < |data| && 0.0 <= s.alpha <= 1.0 && data[s.index] <= data[s.index+1]
    ensures data[s.index] <= InterpolateReal(s, data) <= data[s.index+1]
  {
    var d := data[s.index+1] - data[s.index];
    assert InterpolateReal(s, data) == data[s.index+1] - s.alpha * d;
    NonnegativeProduct(s.alpha, d);
    NonnegativeProduct(1.0 - s.alpha, d);
    assert (1.0 - s.alpha) * d == d - s.alpha * d;
  }

  /** The extraction begins at the start, or at the later sample of an event pair that holds it. */
  ghost predicate BeginsWell(first: real, start: real, times: seq<real>, postEvents: seq<nat>)
    requires EventPairs(times, postEvents)
  {
    || first == Clamp(start, times)
    || exists p :: p in postEvents && times[p-1] <= Clamp(start, times) <= times[p] && first == times[p]
  }

  /** The interpolated start time, and where it lies. */
  lemma FrontTime(start: real, final: real, times: seq<real>, postEvents: seq<nat>)
    requires EventPairs(times, postEvents) && ProperPeriod(start, final, times, postEvents)
    ensures var s0 := StartSegment(start, times, postEvents);
            var front := InterpolateReal(s0, times);
            && times[s0.index] <= front <= times[s0.index+1]
            && (front == Clamp(start, times)
                || (s0.index in postEvents && front == times[s0.index]
                    && times[s0.index-1] <= Clamp(start, times) <= times[s0.index]))
  {
    hide TimeSegment, StartSegment;
    StartIsInside(start, final, times, postEvents);
    StartFacts(Clamp(start, times), times, postEvents);
    var s0 := StartSegment(start, times, postEvents);
    WeightOfStart(start, times, postEvents);
    if s0.alpha == 1.0 {
      FullWeight(s0, times);
    }
    Between(s0, times);
  }

  lemma WeightOfStart(start: real, times: seq<real>, postEvents: seq<nat>)
    requires Nondecreasing(times)
    ensures 0.0 <= StartSegment(start, times, postEvents).alpha <= 1.0
  {
  }

  /** A single copied sample is the end, which then is where the extraction has to begin. */
  lemma SingleSample(start: real, final: real, times: seq<real>, postEvents: seq<nat>)
    requires EventPairs(times, postEvents) && ProperPeriod(start, final, times, postEvents)
    requires StartSegment(start, times, postEvents).index == TimeSegment(final, times).index + 1
    ensures BeginsWell(Clamp(final, times), start, times, postEvents)
  {
    hide TimeSegment, StartSegment, InterpolateReal;
    FrontTime(start, final, times, postEvents);
    EndSegment(start, final, times, postEvents);
  }

  lemma CopiedNondecreasing(times: seq<real>, i0: nat, i1: nat, front: real, back: real)
    requires Nondecreasing(times) && i0 <= i1 + 1 < |times|
    requires i0 <= i1 ==> front <= back && front <= times[i0+1] && times[i1] <= back
    ensures Nondecreasing(Copied(i0, i1, front, back, times))
  {
    hide Copied;
    CopiedLength(i0, i1, front, back, times);
    var out := Copied(i0, i1, front, back, times);
    forall a, b | 0 <= a < b < |out|
      ensures out[a] <= out[b]
    {
      CopiedAt(i0, i1, front, back, times, a);
      CopiedAt(i0, i1, front, back, times, b);
    }
  }

  lemma AppendNondecreasing(times: seq<real>, final: real)
    requires Nondecreasing(times) && |times| > 0 && times[|times|-1] == final
    ensures Nondecreasing(times + [final])
  {
  }

  /**
   * The extracted times never decrease. There are none exactly when the adjusted start is two samples past the end
   * segment; otherwise they begin at the start (or in the event pair around it) and end at the final time, both moved
   * into the trajectory.
   */
  lemma ExtractedTimesSpanPeriod(start: real, final: real, times: seq<real>, postEvents: seq<nat>)
    requires EventPairs(times, postEvents) && ProperPeriod(start, final, times, postEvents)
    ensures var out := ExtractedTimes(start, final, times, postEvents);
            && Nondecreasing(out)
            && (out == [] <==> StartSegment(start, times, postEvents).index == TimeSegment(final, times).index + 2)
            && (out != [] ==> out[|out|-1] == Clamp(final, times) && BeginsWell(out[0], start, times, postEvents))
  {
    hide StartSegment, TimeSegment, InterpolateReal, Kept, Copied, Nondecreasing, EventPairs, BeginsWell;
    var s0, s1 := StartSegment(start, times, postEvents), TimeSegment(final, times);
    var i0, i1, front, back := s0.index, s1.index, InterpolateReal(s0, times), InterpolateReal(s1, times);
    var copied := Copied(i0, i1, front, back, times);
    CopiedLength(i0, i1, front, back, times);
    MissingNeedsSample(start, final, times, postEvents);
    var out := ExtractedTimes(start, final, times, postEvents);
    if i0 == i1 + 2 {
      assert out == [];
      NothingDecreases();
    } else {
      CopiedEnds(start, final, times, postEvents);
      assert out == copied || out == copied + [final];
      if out != copied {
        AppendNondecreasing(copied, final);
      }
      assert out[0] == copied[0];
    }
  }

  lemma NothingDecreases()
    ensures Nondecreasing([])
  {
  }

  /** The copied times before the last post-event sample is appended. */
  lemma CopiedEnds(start: real, final: real, times: seq<real>, postEvents: seq<nat>)
    requires EventPairs(times, postEvents) && ProperPeriod(start, final, times, postEvents)
    requires StartSegment(start, times, postEvents).index <= TimeSegment(final, times).index + 1
    ensures var s0, s1 := StartSegment(start, times, postEvents), TimeSegment(final, times);
            var copied := Copied(s0.index, s1.index, InterpolateReal(s0, times), InterpolateReal(s1, times), times);
            && Nondecreasing(copied) && |copied| > 0 && copied[|copied|-1] == Clamp(final, times)
            && BeginsWell(copied[0], start, times, postEvents)
  {
    hide StartSegment, TimeSegment, InterpolateReal, Kept, Copied;
    var s0, s1 := StartSegment(start, times, postEvents), TimeSegment(final, times);
    var i0, i1, front, back := s0.index, s1.index, InterpolateReal(s0, times), InterpolateReal(s1, times);
    FrontTime(start, final, times, postEvents);
    EndSegment(start, final, times, postEvents);
    assert i0 <= i1 ==> times[i0] <= times[i1];
    assert i0 < i1 ==> times[i0+1] <= times[i1];
    CopiedLength(i0, i1, front, back, times);
    CopiedAt(i0, i1, front, back, times, 1 + i1 - i0);
    CopiedAt(i0, i1, front, back, times, 0);
    CopiedNondecreasing(times, i0, i1, front, back);
    if i0 == i1 + 1 {
      SingleSample(start, final, times, postEvents);
    }
  }

  /** Data on a line in time interpolate to the point of the line at the interpolated time, whatever the weights. */
  lemma LineAtSegment(s: Segment, times: seq<real>, data: seq<Vec>, c: Vec, d: Vec)
    requires 0 < |times| == |data| && |c| == |d| && (1 < |data| ==> s.index + 1 < |data|)
    requires forall k | 0 <= k < |times| :: data[k] == Add(c, Scale(times[k], d))
    ensures InterpolateVec(s, data) == Add(c, Scale(InterpolateReal(s, times), d))
  {
    if 1 < |data| {
      LineEntries(s.alpha, times[s.index], times[s.index+1], InterpolateReal(s, times), c, d);
    }
  }

  /**
   * States and inputs are extracted at the extracted times: data that move on a line in time do so at every sample but
   * one appended at the end, which is taken just after the final time.
   */
  lemma ExtractedOnLine(start: real, final: real, times: seq<real>, postEvents: seq<nat>, data: seq<Vec>, c: Vec,
                        d: Vec, q: nat)
    requires Extractable(start, final, times, postEvents) && |data| == |times| && |c| == |d|
    requires forall k | 0 <= k < |times| :: data[k] == Add(c, Scale(times[k], d))
    ensures var out, t := ExtractedVec(start, final, times, postEvents, data),
            ExtractedTimes(start, final, times, postEvents);
            && |out| == |t|
            && (q < 2 + TimeSegment(final, times).index - StartSegment(start, times, postEvents).index ==>
                  q < |out| && out[q] == Add(c, Scale(t[q], d)))
  {
    hide StartSegment, TimeSegment, InterpolateVec, InterpolateReal, Kept, Copied;
    var s0, s1 := StartSegment(start, times, postEvents), TimeSegment(final, times);
    LineAtSegment(s0, times, data, c, d);
    LineAtSegment(s1, times, data, c, d);
    var front, back := InterpolateVec(s0, data), InterpolateVec(s1, data);
    var t0, t1 := InterpolateReal(s0, times), InterpolateReal(s1, times);
    CopiedLength(s0.index, s1.index, front, back, data);
    CopiedLength(s0.index, s1.index, t0, t1, times);
    if q < 2 + s1.index - s0.index {
      CopiedAt(s0.index, s1.index, front, back, data, q);
      CopiedAt(s0.index, s1.index, t0, t1, times, q);
    }
  }
}
