/** The backward sweep of iLQR over one partition. */
module IlqrRiccati {
  import opened Interpolation

  /**
   * What the sweep applies: the Riccati map of a node, which also gives its projection and gains; the jump condition of
   * an event; and the projection and gains at a pre-event node.
   */
  datatype Operators<!D, !E, !V, !G> = Operators(apply: (D, V) -> (V, G), jump: (E, V) -> V, preEvent: (D, V) -> G)

  /** The partition [first, second) of a trajectory whose events sit at increasing node indices. */
  datatype Sweep<D, E, V> = Sweep(modelData: seq<D>, eventData: seq<E>, postEvents: seq<nat>, first: nat, second: nat,
                                  finalValue: V) {
    ghost predicate Valid() {
      first <= second < |modelData| && |eventData| == |postEvents| && Increasing(postEvents)
    }

    /** Events with indices in (first, second] are those numbered FirstEvent() to LastEvent() - 1. */
    function FirstEvent(): (lo: nat)
      ensures lo <= |postEvents|
    {
      IndexUpperBound(postEvents, first)
    }

    function LastEvent(): (hi: nat)
      ensures hi <= |postEvents|
    {
      IndexUpperBound(postEvents, second)
    }

    /** Number of the event at node k, if there is one. */
    function EventNumber(k: nat): (e: nat)
      ensures e <= |postEvents|
    {
      IndexUpperBound(postEvents, k as int - 1)
    }

    predicate IsEvent(k: nat) {
      var e := EventNumber(k);
      e < |postEvents| && postEvents[e] == k
    }

    /**
     * The sweep meets event e: it meets all later ones, and e lies at least two nodes before the next, or before the
     * end.
     */
    predicate Met(e: nat)
      decreases |postEvents| - e
    {
      && e < LastEvent() && postEvents[e] < second
      && (e + 1 < LastEvent() ==> postEvents[e] + 2 <= postEvents[e+1] && Met(e + 1))
    }

    predicate MetAt(k: nat) {
      IsEvent(k) && Met(EventNumber(k))
    }
  }

  // ----- what the sweep computes, and the recursion it is meant to compute

  function Value<D, E, V, G>(ops: Operators<D, E, V, G>, s: Sweep<D, E, V>, k: nat): V
    requires s.Valid() && k <= s.second
    decreases s.second - k
  {
    if k == s.second then s.finalValue
    else if s.MetAt(k + 1) then ops.jump(s.eventData[s.EventNumber(k + 1)], Value(ops, s, k + 1))
    else ops.apply(s.modelData[k], Value(ops, s, k + 1)).0
  }

  function Gains<D, E, V, G>(ops: Operators<D, E, V, G>, s: Sweep<D, E, V>, k: nat): G
    requires s.Valid() && k < s.second
  {
    if s.MetAt(k + 1) then ops.preEvent(s.modelData[k], Value(ops, s, k))
    else ops.apply(s.modelData[k], Value(ops, s, k + 1)).1
  }

  /** V(k) = Jump(V(k+1)) when k + 1 is a post-event node, Map(k, V(k+1)) otherwise. */
  function Recursion<D, E, V, G>(ops: Operators<D, E, V, G>, s: Sweep<D, E, V>, k: nat): V
    requires s.Valid() && k <= s.second
    decreases s.second - k
  {
    if k == s.second then s.finalValue
    else if s.IsEvent(k + 1) then ops.jump(s.eventData[s.EventNumber(k + 1)], Recursion(ops, s, k + 1))
    else ops.apply(s.modelData[k], Recursion(ops, s, k + 1)).0
  }

  // ----- the loop

  /** Where the next value is read from: the temporary, or a stored entry. */
  datatype Pointer = Temporary | Stored(index: nat)

  lemma EventNumbers<D, E, V>(s: Sweep<D, E, V>, e: nat)
    requires s.Valid() && e < |s.postEvents|
    ensures s.EventNumber(s.postEvents[e]) == e && s.IsEvent(s.postEvents[e])
    ensures s.FirstEvent() <= e < s.LastEvent() <==> s.first < s.postEvents[e] <= s.second
  {
    var n := s.EventNumber(s.postEvents[e]);
    var lo, hi := s.FirstEvent(), s.LastEvent();
    assert e < lo ==> s.postEvents[e] <= s.first;
    assert lo < e ==> s.postEvents[lo] < s.postEvents[e];
    assert e < hi ==> s.postEvents[e] <= s.second;
    assert hi < e ==> s.postEvents[hi] < s.postEvents[e];
  }

  /** Whoever meets event e meets all later ones, and they lie two nodes further on. */
  lemma {:induction false} MetAbove<D, E, V>(s: Sweep<D, E, V>, e: nat, f: nat)
    requires s.Valid() && s.Met(e) && e < f < s.LastEvent()
    ensures s.Met(f) && s.postEvents[e] + 2 <= s.postEvents[f]
    decreases f - e
  {
    if e + 1 < f {
      MetAbove(s, e + 1, f);
    }
  }

  /**
   * Before node cur: the pending event `next` is still ahead, or missed for good; nothing between cur and later events
   * is met.
   */
  ghost predicate Pending<D, E, V>(s: Sweep<D, E, V>, cur: int, next: int)
    requires s.Valid()
  {
    && s.first as int - 1 <= cur <= s.second as int - 1
    && s.FirstEvent() as int - 1 <= next < s.LastEvent()
    && (next + 1 < s.LastEvent() ==> s.Met(next + 1) && cur + 2 <= s.postEvents[next+1])
    && (s.FirstEvent() <= next && cur < s.postEvents[next] ==> !s.Met(next))
  }

  /** A met event at or below the loop's position is the pending one, or lies before it. */
  lemma PendingIsNext<D, E, V>(s: Sweep<D, E, V>, cur: int, next: int, k: nat)
    requires s.Valid() && Pending(s, cur, next) && s.first < k && s.MetAt(k) && k <= cur + 1
    ensures s.EventNumber(k) <= next && s.FirstEvent() <= next && s.postEvents[next] <= cur
  {
    var e := s.EventNumber(k);
    EventNumbers(s, e);
    if next < e {
      assert false;
    } else if e < next {
      MetAbove(s, e, next);
    }
  }

  lemma StartsPending<D, E, V>(s: Sweep<D, E, V>)
    requires s.Valid() && s.FirstEvent() <= s.LastEvent()
    ensures Pending(s, s.second as int - 1, s.LastEvent() as int - 1)
  {
    if s.FirstEvent() < s.LastEvent() {
      EventNumbers(s, s.LastEvent() - 1);
    }
  }

  /** The pending event at the loop's position is met, and the node before it holds no event that is met. */
  lemma MeetsPending<D, E, V>(s: Sweep<D, E, V>, cur: nat, next: nat, before: nat, cur': int, next': int)
    requires before as int == cur - 1 && cur' == cur - 2 && next' == next - 1
    requires s.Valid() && Pending(s, cur, next) && s.FirstEvent() <= next && s.postEvents[next] == cur
    ensures s.first < cur && s.MetAt(cur) && s.EventNumber(cur) == next
    ensures Pending(s, cur', next') && !s.MetAt(before)
    ensures cur < s.second
  {
    EventNumbers(s, next);
    assert s.Met(next);
    if s.MetAt(before) {
      var e := s.EventNumber(before);
      EventNumbers(s, e);
      assert e < next;
      MetAbove(s, e, next);
    }
    if s.FirstEvent() < next {
      assert s.postEvents[next-1] < s.postEvents[next];
    }
  }

  /** Without a pending event at the loop's position there is no met event there. */
  lemma PassesNode<D, E, V>(s: Sweep<D, E, V>, cur: nat, next: int, cur': int)
    requires cur' == cur - 1
    requires s.Valid() && Pending(s, cur, next) && s.first <= cur
    requires s.FirstEvent() > next || s.postEvents[next] != cur
    ensures Pending(s, cur', next) && (s.first < cur ==> !s.MetAt(cur))
  {
    if s.first < cur && s.MetAt(cur) {
      PendingIsNext(s, cur, next, cur);
      EventNumbers(s, s.EventNumber(cur));
    }
    if s.FirstEvent() <= next && cur - 1 < s.postEvents[next] {
      assert cur < s.postEvents[next];
    }
  }

  /** What is stored for a node: its value function; and its projection, modification and gains. */
  datatype Node<V, G> = Node(value: V, gains: G)

  function NodeOf<D, E, V, G>(ops: Operators<D, E, V, G>, s: Sweep<D, E, V>, k: nat): Node<V, G>
    requires s.Valid() && k < s.second
  {
    Node(Value(ops, s, k), Gains(ops, s, k))
  }

  lemma MappedNode<D, E, V, G>(ops: Operators<D, E, V, G>, s: Sweep<D, E, V>, k: nat, above: nat)
    requires s.Valid() && k < s.second && above == k + 1 && !s.MetAt(above)
    ensures var (v, g) := ops.apply(s.modelData[k], Value(ops, s, above)); NodeOf(ops, s, k) == Node(v, g)
  {
  }

  lemma JumpedNode<D, E, V, G>(ops: Operators<D, E, V, G>, s: Sweep<D, E, V>, k: nat, above: nat, e: nat)
    requires s.Valid() && k + 1 < s.second && above == k + 1 && s.MetAt(above) && e == s.EventNumber(above)
    ensures e < |s.eventData|
    ensures var v := ops.jump(s.eventData[e], Value(ops, s, above));
            NodeOf(ops, s, k) == Node(v, ops.preEvent(s.modelData[k], v))
  {
  }

  /** Writes values and gains of the whole partition and of nothing else. */
  method RiccatiEquationsWorker<D, E, V, G>(ops: Operators<D, E, V, G>, s: Sweep<D, E, V>, nodes: array<Node<V, G>>)
    requires s.Valid() && nodes.Length == |s.modelData|
    modifies nodes
    ensures forall k | s.first <= k < s.second :: nodes[k] == NodeOf(ops, s, k)
    ensures forall k | 0 <= k < nodes.Length && !(s.first <= k < s.second) :: nodes[k] == old(nodes[k])
  {
    hide Pending, NodeOf, Value, Sweep.MetAt, Sweep.Met, Sweep.IsEvent, Sweep.EventNumber;
    var firstEvent, lastEvent := IndexUpperBound(s.postEvents, s.first), IndexUpperBound(s.postEvents, s.second);
    var finalValueTemp := s.finalValue;
    var valueFunctionNext := Temporary;
    var curIndex := s.second as int - 1;
    var nextEvent := lastEvent as int - 1;
    ghost var above: nat := s.second;
    StartsPending(s);
    StartsAtEnd(ops, s);
    while curIndex >= s.first
      invariant s.first as int - 1 <= curIndex < s.second && firstEvent as int - 1 <= nextEvent < lastEvent
                && above == curIndex + 1
      invariant Pending(s, curIndex, nextEvent) && (s.first < above ==> !s.MetAt(above))
      invariant valueFunctionNext.Stored? ==>
                  above < s.second && valueFunctionNext.index == above && nodes[above].value == Value(ops, s, above)
      invariant valueFunctionNext.Temporary? ==> finalValueTemp == Value(ops, s, above)
      invariant forall k | above <= k < s.second :: nodes[k] == NodeOf(ops, s, k)
      invariant forall k | 0 <= k < nodes.Length && !(above <= k < s.second) :: nodes[k] == old(nodes[k])
      decreases curIndex
    {
      var next := if valueFunctionNext.Temporary? then finalValueTemp else nodes[valueFunctionNext.index].value;
      var (value, gain) := ops.apply(s.modelData[curIndex], next);
      nodes[curIndex] := Node(value, gain);
      MappedNode(ops, s, curIndex, above);
      NodeValue(ops, s, curIndex);
      valueFunctionNext := Stored(curIndex);
      if nextEvent - firstEvent >= 0 && curIndex == s.postEvents[nextEvent] {
        MeetsPending(s, curIndex, nextEvent, curIndex - 1, curIndex - 2, nextEvent - 1);
        JumpedNode(ops, s, curIndex - 1, curIndex, nextEvent);
        NodeValue(ops, s, curIndex - 1);
        curIndex := curIndex - 1;
        finalValueTemp := ops.jump(s.eventData[nextEvent], nodes[curIndex+1].value);
        nodes[curIndex] := Node(finalValueTemp, ops.preEvent(s.modelData[curIndex], finalValueTemp));
        valueFunctionNext := Temporary;
        nextEvent := nextEvent - 1;
      } else {
        PassesNode(s, curIndex, nextEvent, curIndex - 1);
      }
      above := curIndex;
      curIndex := curIndex - 1;
    }
  }

  lemma NodeValue<D, E, V, G>(ops: Operators<D, E, V, G>, s: Sweep<D, E, V>, k: nat)
    requires s.Valid() && k < s.second
    ensures NodeOf(ops, s, k).value == Value(ops, s, k)
  {
  }

  lemma StartsAtEnd<D, E, V, G>(ops: Operators<D, E, V, G>, s: Sweep<D, E, V>)
    requires s.Valid()
    ensures Value(ops, s, s.second) == s.finalValue && !s.MetAt(s.second)
  {
  }

  // ----- when the sweep computes the recursion

  /** No event at the end of the partition, and at least one node between two of its events. */
  ghost predicate WellSpaced<D, E, V>(s: Sweep<D, E, V>)
    requires s.Valid()
  {
    && (forall e | s.FirstEvent() <= e < s.LastEvent() :: s.postEvents[e] != s.second)
    && (forall e, f | s.FirstEvent() <= e < f < s.LastEvent() :: s.postEvents[e] + 2 <= s.postEvents[f])
  }

  ghost predicate AllMet<D, E, V>(s: Sweep<D, E, V>)
    requires s.Valid()
  {
    forall e: nat | s.FirstEvent() <= e < s.LastEvent() :: s.Met(e)
  }

  lemma {:induction false} WellSpacedIsMet<D, E, V>(s: Sweep<D, E, V>, e: nat)
    requires s.Valid() && WellSpaced(s) && s.FirstEvent() <= e < s.LastEvent()
    ensures s.Met(e)
    decreases |s.postEvents| - e
  {
    EventNumbers(s, e);
    if e + 1 < s.LastEvent() {
      WellSpacedIsMet(s, e + 1);
    }
  }

  /** All events of the partition are met exactly when they are well spaced. */
  lemma MetIffWellSpaced<D, E, V>(s: Sweep<D, E, V>)
    requires s.Valid()
    ensures WellSpaced(s) <==> AllMet(s)
  {
    if WellSpaced(s) {
      forall e: nat | s.FirstEvent() <= e < s.LastEvent()
        ensures s.Met(e)
      {
        WellSpacedIsMet(s, e);
      }
    }
    if AllMet(s) {
      forall e, f | s.FirstEvent() <= e < f < s.LastEvent()
        ensures s.postEvents[e] + 2 <= s.postEvents[f]
      {
        MetAbove(s, e, f);
      }
      forall e | s.FirstEvent() <= e < s.LastEvent()
        ensures s.postEvents[e] != s.second
      {
        assert s.Met(e);
      }
    }
  }

  lemma EventOfPartition<D, E, V>(s: Sweep<D, E, V>, k: nat)
    requires s.Valid() && s.first < k <= s.second && s.IsEvent(k)
    ensures s.FirstEvent() <= s.EventNumber(k) < s.LastEvent()
  {
    EventNumbers(s, s.EventNumber(k));
  }

  /** Then the sweep computes the recursion, whatever the maps and jumps are. */
  lemma {:induction false} SweepIsRecursion<D, E, V, G>(ops: Operators<D, E, V, G>, s: Sweep<D, E, V>, k: nat)
    requires s.Valid() && WellSpaced(s) && s.first <= k <= s.second
    ensures Value(ops, s, k) == Recursion(ops, s, k)
    decreases s.second - k
  {
    hide WellSpaced, Sweep.FirstEvent, Sweep.LastEvent, Sweep.EventNumber;
    if k < s.second {
      SweepIsRecursion(ops, s, k + 1);
      if s.IsEvent(k + 1) {
        EventOfPartition(s, k + 1);
        WellSpacedIsMet(s, s.EventNumber(k + 1));
      }
    }
  }

  /** A history of maps and jumps: operators that record what was applied. */
  datatype Trace = End | Mapped(node: nat, next: Trace) | Jumped(event: nat, next: Trace)

  const RECORD: Operators<nat, nat, Trace, ()> :=
    Operators((d: nat, v: Trace) => (Mapped(d, v), ()), (e: nat, v: Trace) => Jumped(e, v), (d: nat, v: Trace) => ())

  /**
   * Recording operators tell the two apart exactly when an event is missed: well-spaced events are what the loop needs.
   */
  lemma SweepIsRecursionIff(s: Sweep<nat, nat, Trace>)
    requires s.Valid()
    ensures WellSpaced(s) <==> forall k: nat | s.first <= k <= s.second ::
            Value(RECORD, s, k) == Recursion(RECORD, s, k)
  {
    hide WellSpaced, Sweep.FirstEvent, Sweep.LastEvent, Sweep.EventNumber, Value, Recursion;
    if WellSpaced(s) {
      forall k: nat | s.first <= k <= s.second
        ensures Value(RECORD, s, k) == Recursion(RECORD, s, k)
      {
        SweepIsRecursion(RECORD, s, k);
      }
    } else {
      MetIffWellSpaced(s);
      var e: nat :| s.FirstEvent() <= e < s.LastEvent() && !s.Met(e);
      EventNumbers(s, e);
      MissedEventShows(s, s.postEvents[e] - 1);
    }
  }

  lemma MissedEventShows(s: Sweep<nat, nat, Trace>, k: nat)
    requires s.Valid() && k < s.second && s.IsEvent(k + 1) && !s.MetAt(k + 1)
    ensures Value(RECORD, s, k).Mapped? && Recursion(RECORD, s, k).Jumped?
  {
  }

  /** How often the jump of event e occurs in a history. */
  function Applications(t: Trace, e: nat): nat {
    match t
    case End => 0
    case Mapped(_, next) => Applications(next, e)
    case Jumped(event, next) => Applications(next, e) + if event == e then 1 else 0
  }

  /** Events carry their own number, and nothing was recorded before the sweep. */
  ghost predicate Numbered(s: Sweep<nat, nat, Trace>) {
    s.finalValue == End && forall e | 0 <= e < |s.eventData| :: s.eventData[e] == e
  }

  /** Down to node k an event has been applied once if it is met above k, and otherwise not at all. */
  lemma {:induction false} AppliedAbove(s: Sweep<nat, nat, Trace>, k: nat, e: nat)
    requires s.Valid() && Numbered(s) && k <= s.second && e < |s.postEvents|
    ensures Applications(Value(RECORD, s, k), e) == if k < s.postEvents[e] <= s.second && s.Met(e) then 1 else 0
    decreases s.second - k
  {
    hide Sweep.FirstEvent, Sweep.LastEvent, Sweep.EventNumber, Sweep.Met;
    if k < s.second {
      AppliedAbove(s, k + 1, e);
      EventNumbers(s, e);
      if s.MetAt(k + 1) {
        var n := s.EventNumber(k + 1);
        assert n != e ==> s.postEvents[n] != s.postEvents[e];
      }
    }
  }

  /** The sweep applies every event of its partition exactly once if and only if they are well spaced. */
  lemma AppliedOnceIff(s: Sweep<nat, nat, Trace>)
    requires s.Valid() && Numbered(s)
    ensures WellSpaced(s) <==>
            forall e: nat | s.FirstEvent() <= e < s.LastEvent() :: Applications(Value(RECORD, s, s.first), e) == 1
    ensures forall e: nat | e < |s.postEvents| :: Applications(Value(RECORD, s, s.first), e) <= 1
    ensures forall e: nat | e < |s.postEvents| && !(s.FirstEvent() <= e < s.LastEvent()) ::
              Applications(Value(RECORD, s, s.first), e) == 0
  {
    hide WellSpaced, Sweep.FirstEvent, Sweep.LastEvent, Sweep.EventNumber, Sweep.Met, Value, Applications;
    MetIffWellSpaced(s);
    forall e: nat | e < |s.postEvents|
      ensures Applications(Value(RECORD, s, s.first), e)
              == if s.FirstEvent() <= e < s.LastEvent() && s.Met(e) then 1 else 0
    {
      AppliedAbove(s, s.first, e);
      EventNumbers(s, e);
    }
    forall e: nat | s.FirstEvent() <= e < s.LastEvent()
      ensures s.Met(e) <==> Applications(Value(RECORD, s, s.first), e) == 1
    {
      assert e < |s.postEvents|;
    }
    if WellSpaced(s) {
      assert AllMet(s);
    } else {
      var e: nat :| s.FirstEvent() <= e < s.LastEvent() && !s.Met(e);
      assert Applications(Value(RECORD, s, s.first), e) != 1;
    }
  }

  /** An event at the end of the partition hides every event before it: neither jump is applied here. */
  lemma EventAtEndHidesOthers()
    ensures var s := Sweep([0, 1, 2, 3, 4], [0, 1], [2, 4], 0, 4, End);
            s.Valid() && Value(RECORD, s, 0) == Mapped(0, Mapped(1, Mapped(2, Mapped(3, End))))
            && Recursion(RECORD, s, 0) == Mapped(0, Jumped(0, Mapped(2, Jumped(1, End))))
  {
    var s := Sweep([0, 1, 2, 3, 4], [0, 1], [2, 4], 0, 4, End);
    EventNumbers(s, 0);
    EventNumbers(s, 1);
    assert !s.Met(1) && !s.Met(0);
    assert !s.IsEvent(1) && !s.IsEvent(3);
    assert Value(RECORD, s, 3) == Mapped(3, End);
    assert Value(RECORD, s, 2) == Mapped(2, Value(RECORD, s, 3));
    assert Value(RECORD, s, 1) == Mapped(1, Value(RECORD, s, 2));
    assert Recursion(RECORD, s, 3) == Jumped(1, End);
    assert Recursion(RECORD, s, 2) == Mapped(2, Recursion(RECORD, s, 3));
    assert Recursion(RECORD, s, 1) == Jumped(0, Recursion(RECORD, s, 2));
  }
}
