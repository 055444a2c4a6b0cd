/** Workers that take partitions from a shared counter and write their nodes at the same time. */
module ParallelSweep {
  import opened PartitionIntervals
  import opened Types

  /** A worker has not taken a partition yet; holds one, some nodes of which it has written; or is done with it. */
  datatype Worker = Waiting | Busy(task: nat, written: nat) | Done(task: nat)

  datatype State<V> = State(nextTaskId: nat, workers: seq<Worker>, memory: seq<V>, writes: seq<nat>)

  /** Whether a worker writes its nodes from the last to the first or from the first to the last. */
  datatype Direction = Down | Up

  /**
   * The partitions; what a worker computes for a node of its partition from what is in memory then; and what it should
   * compute.
   */
  datatype Job<!V(!new)> = Job(direction: Direction, intervals: seq<Interval>, end: nat,
                               compute: (nat, nat, seq<V>) -> V,
                         result: (nat, nat) -> V)
  {
    ghost predicate Valid() {
      Tiles(intervals, end) && forall t: nat, i: nat, memory: seq<V> :: Computes(t, i, memory)
    }

    function Size(t: nat): int
      requires t < |intervals|
    {
      intervals[t].second - intervals[t].first
    }

    /** The i-th node the worker of a partition writes. */
    function NodeAt(t: nat, i: int): int
      requires t < |intervals|
    {
      if direction.Down? then intervals[t].second - 1 - i else intervals[t].first + i
    }

    /** The first n nodes of a partition hold their results. */
    ghost predicate Holds(t: nat, n: nat, memory: seq<V>)
      requires t < |intervals|
    {
      forall j: nat | j < n :: 0 <= NodeAt(t, j) < |memory| && memory[NodeAt(t, j)] == result(t, NodeAt(t, j))
    }

    /** A node comes out right when the worker has written the nodes before it. */
    ghost predicate Computes(t: nat, i: nat, memory: seq<V>) {
      t < |intervals| && i < Size(t) && 0 <= NodeAt(t, i) && |memory| == end + 1 && Holds(t, i, memory)
      ==> compute(t, NodeAt(t, i), memory) == result(t, NodeAt(t, i))
    }
  }

  // ----- steps

  ghost predicate Claims<V(!new)>(job: Job<V>, s: State<V>, s': State<V>, w: nat) {
    && w < |s.workers| && s.workers[w].Waiting? && s.nextTaskId < |job.intervals|
    && s' == s.(nextTaskId := s.nextTaskId + 1, workers := s.workers[w := Busy(s.nextTaskId, 0)])
  }

  ghost predicate Writes<V(!new)>(job: Job<V>, s: State<V>, s': State<V>, w: nat) {
    && w < |s.workers| && s.workers[w].Busy? && s.workers[w].task < |job.intervals|
    && var t, i := s.workers[w].task, s.workers[w].written;
       && i < job.Size(t) && 0 <= job.NodeAt(t, i) < |s.memory| == |s.writes|
       && var k := job.NodeAt(t, i);
          s' == s.(workers := s.workers[w := Busy(t, i + 1)],
                   memory := s.memory[k := job.compute(t, k, s.memory)],
                   writes := s.writes[k := s.writes[k] + 1])
  }

  ghost predicate Finishes<V(!new)>(job: Job<V>, s: State<V>, s': State<V>, w: nat) {
    && w < |s.workers| && s.workers[w].Busy? && s.workers[w].task < |job.intervals|
    && s.workers[w].written >= job.Size(s.workers[w].task)
    && s' == s.(workers := s.workers[w := Done(s.workers[w].task)])
  }

  ghost predicate Step<V(!new)>(job: Job<V>, s: State<V>, s': State<V>) {
    exists w: nat :: Claims(job, s, s', w) || Writes(job, s, s', w) || Finishes(job, s, s', w)
  }

  /** As many workers as partitions, none of which has been taken. */
  ghost predicate Init<V(!new)>(job: Job<V>, s: State<V>) {
    && s.nextTaskId == 0 && |s.workers| == |job.intervals| && (forall w | 0 <= w < |s.workers| :: s.workers[w].Waiting?)
    && |s.memory| == |s.writes| == job.end + 1 && (forall k | 0 <= k < |s.writes| :: s.writes[k] == 0)
  }

  ghost predicate Run<V(!new)>(job: Job<V>, run: seq<State<V>>) {
    && run != [] && Init(job, run[0])
    && forall i: nat | i + 1 < |run| :: Step(job, run[i], run[i+1])
  }

  // ----- what holds in every reachable state

  function Taken(workers: seq<Worker>): nat {
    if workers == [] then 0 else Taken(workers[..|workers|-1]) + if workers[|workers|-1].Waiting? then 0 else 1
  }

  function TaskOf(w: Worker): Option<nat> {
    match w
    case Waiting => None
    case Busy(t, _) => Some(t)
    case Done(t) => Some(t)
  }

  /** A worker that holds a partition has written as many of its nodes as it counts, and all when it is done. */
  ghost predicate Owns<V(!new)>(job: Job<V>, s: State<V>, w: nat)
    requires w < |s.workers|
  {
    match s.workers[w]
    case Waiting => true
    case Busy(t, n) => t < s.nextTaskId <= |job.intervals| && n <= job.Size(t) && Written(job, s.memory, s.writes, t, n)
    case Done(t) => t < s.nextTaskId <= |job.intervals| && Written(job, s.memory, s.writes, t, job.Size(t))
  }

  /** The first n nodes of the partition are written once, with their results; the others are not written. */
  ghost predicate Written<V(!new)>(job: Job<V>, memory: seq<V>, writes: seq<nat>, t: nat, n: int) {
    && t < |job.intervals| && |memory| == |writes|
    && forall k | job.intervals[t].first <= k < job.intervals[t].second :: NodeWritten(job, memory, writes, t, n, k)
  }

  /** Place of a node in the order of its partition. */
  function Place<V(!new)>(job: Job<V>, t: nat, k: int): int
    requires t < |job.intervals|
  {
    if job.direction.Down? then job.intervals[t].second - 1 - k else k - job.intervals[t].first
  }

  ghost predicate NodeWritten<V(!new)>(job: Job<V>, memory: seq<V>, writes: seq<nat>, t: nat, n: int, k: nat)
    requires t < |job.intervals| && |memory| == |writes|
  {
    && k < |writes|
    && if Place(job, t, k) < n then writes[k] == 1 && memory[k] == job.result(t, k) else writes[k] == 0
  }

  ghost predicate Held(workers: seq<Worker>, t: nat) {
    exists w: nat :: w < |workers| && TaskOf(workers[w]) == Some(t)
  }

  ghost predicate Inv<V(!new)>(job: Job<V>, s: State<V>) {
    && |s.workers| == |job.intervals| && |s.memory| == |s.writes| == job.end + 1
    && s.nextTaskId == Taken(s.workers)
    && (forall w: nat | w < |s.workers| :: Owns(job, s, w))
    && (forall w: nat, v: nat | w < v < |s.workers| && TaskOf(s.workers[w]).Some? ::
        TaskOf(s.workers[w]) != TaskOf(s.workers[v]))
    && (forall t: nat | t < s.nextTaskId :: Held(s.workers, t))
    && (forall t: nat | s.nextTaskId <= t < |job.intervals| :: Written(job, s.memory, s.writes, t, 0))
    && s.writes[job.end] == 0
  }

  // ----- every step keeps the invariant

  lemma {:induction false} TakenUpdate(workers: seq<Worker>, w: nat, x: Worker)
    requires w < |workers| && !x.Waiting?
    ensures Taken(workers[w := x]) == Taken(workers) + if workers[w].Waiting? then 1 else 0
  {
    var last := |workers| - 1;
    if w == last {
      assert workers[w := x][..last] == workers[..last];
    } else {
      assert workers[w := x][..last] == workers[..last][w := x];
      TakenUpdate(workers[..last], w, x);
    }
  }

  lemma {:induction false} TakenBound(workers: seq<Worker>)
    ensures Taken(workers) <= |workers|
    ensures (exists w: nat :: w < |workers| && workers[w].Waiting?) ==> Taken(workers) < |workers|
    ensures (forall w: nat | w < |workers| :: !workers[w].Waiting?) ==> Taken(workers) == |workers|
  {
    if workers != [] {
      var rest := workers[..|workers|-1];
      TakenBound(rest);
      if w: nat :| w < |workers| && workers[w].Waiting? {
        assert w < |rest| ==> rest[w].Waiting?;
      }
      if forall w: nat | w < |workers| :: !workers[w].Waiting? {
        forall w: nat | w < |rest|
          ensures !rest[w].Waiting?
        {
          assert rest[w] == workers[w];
        }
      }
    }
  }

  lemma Inside<V(!new)>(job: Job<V>, t: nat)
    requires Tiles(job.intervals, job.end) && t < |job.intervals|
    ensures job.intervals[t].first < job.intervals[t].second <= job.end
  {
    if t < |job.intervals| - 1 {
      TilesOrdered(job.intervals, job.end, t, |job.intervals| - 1);
    }
  }

  lemma Disjoint<V(!new)>(job: Job<V>, t: nat, u: nat, k: int)
    requires Tiles(job.intervals, job.end) && t < |job.intervals| && u < |job.intervals| && t != u
    requires job.intervals[t].first <= k < job.intervals[t].second
    ensures !(job.intervals[u].first <= k < job.intervals[u].second)
  {
    if t < u {
      TilesOrdered(job.intervals, job.end, t, u);
    } else {
      TilesOrdered(job.intervals, job.end, u, t);
    }
  }

  lemma InitHolds<V(!new)>(job: Job<V>, s: State<V>)
    requires job.Valid() && Init(job, s)
    ensures Inv(job, s)
  {
    NobodyTook(s.workers);
    forall t: nat | t < |job.intervals|
      ensures Written(job, s.memory, s.writes, t, 0)
    {
      Inside(job, t);
    }
  }

  lemma {:induction false} NobodyTook(workers: seq<Worker>)
    requires forall w | 0 <= w < |workers| :: workers[w].Waiting?
    ensures Taken(workers) == 0
  {
    if workers != [] {
      NobodyTook(workers[..|workers|-1]);
    }
  }

  lemma HeldAfter(workers: seq<Worker>, w: nat, x: Worker, t: nat)
    requires w < |workers| && Held(workers, t) && (TaskOf(workers[w]) == TaskOf(x) || workers[w].Waiting?)
    ensures Held(workers[w := x], t)
  {
    var v: nat :| v < |workers| && TaskOf(workers[v]) == Some(t);
    assert TaskOf(workers[w := x][v]) == Some(t);
  }

  lemma ClaimsKeeps<V(!new)>(job: Job<V>, s: State<V>, s': State<V>, w: nat)
    requires job.Valid() && Inv(job, s) && Claims(job, s, s', w)
    ensures Inv(job, s')
  {
    hide Written;
    var t := s.nextTaskId;
    Inside(job, t);
    TakenUpdate(s.workers, w, s'.workers[w]);
    forall v: nat | v < |s'.workers|
      ensures Owns(job, s', v)
    {
      assert Owns(job, s, v);
    }
    forall u: nat | u < s'.nextTaskId
      ensures Held(s'.workers, u)
    {
      if u == t {
        assert TaskOf(s'.workers[w]) == Some(t);
      } else {
        HeldAfter(s.workers, w, s'.workers[w], u);
      }
    }
    forall a: nat, b: nat | a < b < |s'.workers| && TaskOf(s'.workers[a]).Some?
      ensures TaskOf(s'.workers[a]) != TaskOf(s'.workers[b])
    {
      assert Owns(job, s, a) && Owns(job, s, b);
    }
  }

  lemma FinishesKeeps<V(!new)>(job: Job<V>, s: State<V>, s': State<V>, w: nat)
    requires job.Valid() && Inv(job, s) && Finishes(job, s, s', w)
    ensures Inv(job, s')
  {
    hide Written;
    TakenUpdate(s.workers, w, s'.workers[w]);
    assert Owns(job, s, w);
    forall v: nat | v < |s'.workers|
      ensures Owns(job, s', v)
    {
      assert Owns(job, s, v);
    }
    forall u: nat | u < s'.nextTaskId
      ensures Held(s'.workers, u)
    {
      HeldAfter(s.workers, w, s'.workers[w], u);
    }
  }

  /** What the worker has written so far lets it compute the next node. */
  lemma NextResult<V(!new)>(job: Job<V>, memory: seq<V>, writes: seq<nat>, t: nat, n: nat)
    requires job.Valid() && Written(job, memory, writes, t, n) && n < job.Size(t) && |memory| == job.end + 1
    ensures job.intervals[t].first <= job.NodeAt(t, n) < job.intervals[t].second && job.NodeAt(t, n) < |memory|
    ensures job.compute(t, job.NodeAt(t, n), memory) == job.result(t, job.NodeAt(t, n))
  {
    Inside(job, t);
    forall j: nat | j < n
      ensures 0 <= job.NodeAt(t, j) < |memory| && memory[job.NodeAt(t, j)] == job.result(t, job.NodeAt(t, j))
    {
      assert NodeWritten(job, memory, writes, t, n, job.NodeAt(t, j));
    }
    assert job.Computes(t, n, memory);
  }

  /** The node just written gets its result. */
  lemma OwnNodeWritten<V(!new)>(job: Job<V>, memory: seq<V>, writes: seq<nat>, t: nat, n: nat, k: nat)
    requires Written(job, memory, writes, t, n) && n < job.Size(t) && k == job.NodeAt(t, n) < |memory|
    requires job.intervals[t].first <= k < job.intervals[t].second
    ensures Written(job, memory[k := job.result(t, k)], writes[k := writes[k] + 1], t, n + 1)
  {
    var memory', writes', n' := memory[k := job.result(t, k)], writes[k := writes[k] + 1], n + 1;
    assert NodeWritten(job, memory, writes, t, n, k);
    forall j | job.intervals[t].first <= j < job.intervals[t].second
      ensures NodeWritten(job, memory', writes', t, n', j)
    {
      assert NodeWritten(job, memory, writes, t, n, j);
    }
  }

  lemma OthersUntouched<V(!new)>(job: Job<V>, memory: seq<V>, writes: seq<nat>, t: nat, k: nat, u: nat, n: int,
                                 value: V)
    requires Tiles(job.intervals, job.end) && t < |job.intervals|
             && job.intervals[t].first <= k < job.intervals[t].second
    requires u != t && k < |memory| && Written(job, memory, writes, u, n)
    ensures Written(job, memory[k := value], writes[k := writes[k] + 1], u, n)
  {
    Disjoint(job, t, u, k);
    var memory', writes' := memory[k := value], writes[k := writes[k] + 1];
    forall j | job.intervals[u].first <= j < job.intervals[u].second
      ensures NodeWritten(job, memory', writes', u, n, j)
    {
      assert NodeWritten(job, memory, writes, u, n, j);
    }
  }

  lemma WritesKeeps<V(!new)>(job: Job<V>, s: State<V>, s': State<V>, w: nat)
    requires job.Valid() && Inv(job, s) && Writes(job, s, s', w)
    ensures Inv(job, s')
  {
    hide Written, Job.Valid, Job.NodeAt;
    var t, n := s.workers[w].task, s.workers[w].written;
    assert Owns(job, s, w);
    NextResult(job, s.memory, s.writes, t, n);
    var k := job.NodeAt(t, n);
    JobTiles(job);
    Inside(job, t);
    TakenUpdate(s.workers, w, s'.workers[w]);
    OwnNodeWritten(job, s.memory, s.writes, t, n, k);
    forall v: nat | v < |s'.workers|
      ensures Owns(job, s', v)
    {
      assert Owns(job, s, v);
      if v != w && !s.workers[v].Waiting? {
        assert TaskOf(s.workers[v]) != TaskOf(s.workers[w]);
        var u := s.workers[v].task;
        OthersUntouched(job, s.memory, s.writes, t, k, u,
                        if s.workers[v].Busy? then s.workers[v].written else job.Size(u), job.result(t, k));
      }
    }
    forall u: nat | s'.nextTaskId <= u < |job.intervals|
      ensures Written(job, s'.memory, s'.writes, u, 0)
    {
      OthersUntouched(job, s.memory, s.writes, t, k, u, 0, job.result(t, k));
    }
    forall u: nat | u < s'.nextTaskId
      ensures Held(s'.workers, u)
    {
      HeldAfter(s.workers, w, s'.workers[w], u);
    }
  }

  lemma JobTiles<V(!new)>(job: Job<V>)
    requires job.Valid()
    ensures Tiles(job.intervals, job.end)
  {
  }

  // ----- whole runs

  lemma {:induction false} RunKeeps<V(!new)>(job: Job<V>, run: seq<State<V>>, i: nat)
    requires job.Valid() && Run(job, run) && i < |run|
    ensures Inv(job, run[i])
  {
    hide Inv, Init, Claims, Writes, Finishes, Job.Valid;
    if i == 0 {
      InitHolds(job, run[0]);
    } else {
      RunKeeps(job, run, i - 1);
      assert Step(job, run[i-1], run[i]);
      var w: nat :| Claims(job, run[i-1], run[i], w) || Writes(job, run[i-1], run[i], w)
          || Finishes(job, run[i-1], run[i], w);
      if Claims(job, run[i-1], run[i], w) {
        ClaimsKeeps(job, run[i-1], run[i], w);
      } else if Writes(job, run[i-1], run[i], w) {
        WritesKeeps(job, run[i-1], run[i], w);
      } else {
        FinishesKeeps(job, run[i-1], run[i], w);
      }
    }
  }

  /** In every interleaving, at every moment: no node has been written twice. */
  lemma WrittenAtMostOnce<V(!new)>(job: Job<V>, run: seq<State<V>>, i: nat, k: nat)
    requires job.Valid() && Run(job, run) && i < |run| && k < job.end
    ensures k < |run[i].writes| && run[i].writes[k] <= 1
  {
    hide Job.Valid;
    RunKeeps(job, run, i);
    JobTiles(job);
    var s := run[i];
    var t := CoveredOnce(job.intervals, job.end, k);
    var n := 0;
    if t < s.nextTaskId {
      assert Held(s.workers, t);
      var w: nat :| w < |s.workers| && TaskOf(s.workers[w]) == Some(t);
      assert Owns(job, s, w);
      n := if s.workers[w].Busy? then s.workers[w].written else job.Size(t);
    }
    assert Written(job, s.memory, s.writes, t, n);
    assert NodeWritten(job, s.memory, s.writes, t, n, k);
  }

  /** A worker that takes a partition finds one: the shared counter never runs past the last partition. */
  lemma CounterInRange<V(!new)>(job: Job<V>, run: seq<State<V>>, i: nat, w: nat)
    requires job.Valid() && Run(job, run) && i < |run| && w < |run[i].workers| && run[i].workers[w].Waiting?
    ensures run[i].nextTaskId < |job.intervals|
  {
    RunKeeps(job, run, i);
    TakenBound(run[i].workers);
  }

  /** When all workers are done every node has been written once, with the result of its partition. */
  lemma AllWrittenOnce<V(!new)>(job: Job<V>, run: seq<State<V>>, i: nat, k: nat) returns (t: nat)
    requires job.Valid() && Run(job, run) && i < |run| && k < job.end
    requires forall w: nat | w < |run[i].workers| :: run[i].workers[w].Done?
    ensures t < |job.intervals| && job.intervals[t].first <= k < job.intervals[t].second
    ensures k < |run[i].writes| == |run[i].memory| == job.end + 1 && run[i].writes[k] == 1
            && run[i].writes[job.end] == 0
    ensures run[i].memory[k] == job.result(t, k)
  {
    hide Job.Valid;
    RunKeeps(job, run, i);
    JobTiles(job);
    var s := run[i];
    t := CoveredOnce(job.intervals, job.end, k);
    Inside(job, t);
    TakenBound(s.workers);
    assert Held(s.workers, t);
    var w: nat :| w < |s.workers| && TaskOf(s.workers[w]) == Some(t);
    assert Owns(job, s, w);
    assert NodeWritten(job, s.memory, s.writes, t, job.Size(t), k);
  }
}
