/** Reversed and negated time of a partition, as the SLQ backward pass integrates in it. */
module NormalizedTime {
  import opened Interpolation
  import opened PartitionIntervals

  /** The nodes first to second, in reverse order, at negated times. */
  function NormalizedTimes(times: seq<real>, first: nat, second: nat): (r: seq<real>)
    requires first <= second < |times|
    ensures |r| == second - first + 1
  {
    seq(second - first + 1, i requires 0 <= i <= second - first => -times[second-i])
  }

  /** Events with indices in (first, second]. */
  function ActiveEvents(postEvents: seq<nat>, first: nat, second: nat): (r: seq<nat>)
    requires first <= second && Increasing(postEvents)
    ensures Increasing(r)
    ensures forall j | 0 <= j < |r| :: first < r[j] <= second
  {
    var lo, hi := IndexUpperBound(postEvents, first), IndexUpperBound(postEvents, second);
    assert forall j | lo <= j < hi :: lo < j ==> postEvents[lo] < postEvents[j];
    postEvents[lo..hi]
  }

  function NormalizedEvents(postEvents: seq<nat>, first: nat, second: nat): (r: seq<nat>)
    requires first <= second && Increasing(postEvents)
    ensures |r| == |ActiveEvents(postEvents, first, second)|
  {
    var active, n := ActiveEvents(postEvents, first, second), second - first + 1;
    seq(|active|, i requires 0 <= i < |active| => n - active[|active|-1-i] + first)
  }

  /** No event of the trajectory in (first, second] is left out. */
  lemma ActiveEventsComplete(postEvents: seq<nat>, first: nat, second: nat, p: nat)
    requires first < p <= second && Increasing(postEvents)
    ensures p in postEvents <==> p in ActiveEvents(postEvents, first, second)
  {
    var lo, hi := IndexUpperBound(postEvents, first), IndexUpperBound(postEvents, second);
    if p in postEvents {
      var j :| 0 <= j < |postEvents| && postEvents[j] == p;
      assert lo <= j < hi;
      assert ActiveEvents(postEvents, first, second)[j-lo] == p;
    }
  }

  /** Normalised event indices increase and lie strictly inside the normalised trajectory. */
  lemma NormalizedEventsInside(postEvents: seq<nat>, first: nat, second: nat)
    requires first <= second && Increasing(postEvents)
    ensures var r := NormalizedEvents(postEvents, first, second);
            Increasing(r) && forall j | 0 <= j < |r| :: 1 <= r[j] <= second - first
  {
  }

  /** A normalised event index is that of the pre-event sample; just before it lies the post-event sample. */
  lemma NormalizedEventIsPreEvent(times: seq<real>, postEvents: seq<nat>, first: nat, second: nat, j: nat)
    requires first <= second < |times| && Increasing(postEvents) && j < |NormalizedEvents(postEvents, first, second)|
    ensures var active := ActiveEvents(postEvents, first, second);
            var q, p := NormalizedEvents(postEvents, first, second)[j], active[|active|-1-j];
            && q == second - (p - 1) && 1 <= q <= second - first
            && NormalizedTimes(times, first, second)[q] == -times[p-1]
            && NormalizedTimes(times, first, second)[q-1] == -times[p]
  {
    NormalizedEventsInside(postEvents, first, second);
  }

  /** Normalising twice gives back the times of the partition, and its events relative to its first node. */
  lemma NormalizeTwice(times: seq<real>, postEvents: seq<nat>, first: nat, second: nat)
    requires first <= second < |times| && Increasing(postEvents)
    ensures NormalizedTimes(NormalizedTimes(times, first, second), 0, second - first) == times[first..second+1]
    ensures var q, active := NormalizedEvents(postEvents, first, second), ActiveEvents(postEvents, first, second);
            Increasing(q) && |NormalizedEvents(q, 0, second - first)| == |active|
            && forall j | 0 <= j < |active| :: NormalizedEvents(q, 0, second - first)[j] == active[j] - first
  {
    hide IndexUpperBound, ActiveEvents;
    NormalizedEventsInside(postEvents, first, second);
    var q := NormalizedEvents(postEvents, first, second);
    AllActive(q, second - first);
  }

  lemma AllActive(q: seq<nat>, n: nat)
    requires Increasing(q) && forall j | 0 <= j < |q| :: 1 <= q[j] <= n
    ensures ActiveEvents(q, 0, n) == q
  {
    assert IndexUpperBound(q, 0) == 0;
    assert IndexUpperBound(q, n) == |q|;
  }

  /** The stretches between events, as pairs of indices: from the start to the first event, and so on to the end. */
  method SwitchingIntervals(events: seq<nat>, size: nat) returns (r: seq<Interval>)
    requires Increasing(events) && size >= 1 && forall j | 0 <= j < |events| :: 1 <= events[j] < size
    ensures Tiles(r, size) && |r| == |events| + 1
    ensures forall j | 0 <= j < |events| :: r[j].second == events[j]
  {
    r := [Interval(0, 0)];
    for j := 0 to |events|
      invariant |r| == j + 1 && r[j].first == r[j].second == if j == 0 then 0 else events[j-1]
      invariant r[0].first == 0
      invariant forall i | 0 <= i < j :: r[i].first < r[i].second == r[i+1].first == events[i]
    {
      var index := events[j];
      r := r[j := r[j].(second := index)];
      r := r + [Interval(index, index)];
    }
    ghost var before := r;
    r := r[|events| := r[|events|].(second := size)];
    assert forall j | 0 <= j < |events| :: r[j] == before[j];
    assert forall j | 0 <= j < |events| :: r[j+1].first == events[j];
  }
}
