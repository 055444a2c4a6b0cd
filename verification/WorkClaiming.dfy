/** Workers that fetch node indices from a shared counter until there are none left. */
module WorkClaiming {

  datatype Worker = Idle | Holding(index: nat) | Stopped

  datatype State<R> = State(nextTimeIndex: nat, workers: seq<Worker>, results: seq<R>, writes: seq<nat>)

  /** Takes the next index; an index past the end stops the worker. The counter moves in either case. */
  ghost predicate Fetches<R>(s: State<R>, s': State<R>, w: nat) {
    && w < |s.workers| && s.workers[w].Idle?
    && s' == s.(nextTimeIndex := s.nextTimeIndex + 1,
                workers := s.workers[w := if s.nextTimeIndex < |s.writes| then Holding(s.nextTimeIndex) else Stopped])
  }

  /** Writes the result for the index the worker holds. */
  ghost predicate Processes<R>(s: State<R>, s': State<R>, w: nat, compute: nat -> R) {
    && w < |s.workers| && s.workers[w].Holding? && s.workers[w].index < |s.results| == |s.writes|
    && var i := s.workers[w].index;
       s' == s.(workers := s.workers[w := Idle], results := s.results[i := compute(i)],
                writes := s.writes[i := s.writes[i] + 1])
  }

  ghost predicate Step<R>(s: State<R>, s': State<R>, compute: nat -> R) {
    exists w: nat :: Fetches(s, s', w) || Processes(s, s', w, compute)
  }

  ghost predicate Init<R>(s: State<R>) {
    && s.nextTimeIndex == 0 && |s.results| == |s.writes|
    && (forall w | 0 <= w < |s.workers| :: s.workers[w].Idle?) && (forall i | 0 <= i < |s.writes| :: s.writes[i] == 0)
  }

  ghost predicate Run<R>(run: seq<State<R>>, compute: nat -> R) {
    && run != [] && Init(run[0])
    && forall i: nat | i + 1 < |run| :: Step(run[i], run[i+1], compute)
  }

  ghost predicate Held<R>(s: State<R>, i: nat) {
    exists w: nat :: w < |s.workers| && s.workers[w] == Holding(i)
  }

  /** Index i is ahead of the counter and untouched; held by one worker; or written once with its result. */
  ghost predicate IndexInv<R>(s: State<R>, i: nat, compute: nat -> R)
    requires i < |s.writes| == |s.results|
  {
    if s.nextTimeIndex <= i || Held(s, i) then s.writes[i] == 0 else s.writes[i] == 1 && s.results[i] == compute(i)
  }

  ghost predicate Inv<R>(s: State<R>, compute: nat -> R) {
    && |s.results| == |s.writes|
    && (forall w: nat | w < |s.workers| && s.workers[w].Holding? ::
          s.workers[w].index < |s.writes| && s.workers[w].index < s.nextTimeIndex)
    && (forall w: nat | w < |s.workers| && s.workers[w].Stopped? :: s.nextTimeIndex >= |s.writes|)
    && (forall v: nat, w: nat | v < w < |s.workers| && s.workers[v].Holding? :: s.workers[v] != s.workers[w])
    && (forall i: nat | i < |s.writes| :: IndexInv(s, i, compute))
  }

  lemma HeldBy<R>(s: State<R>, s': State<R>, w: nat, i: nat)
    requires w < |s.workers| && |s'.workers| == |s.workers| && s'.workers == s.workers[w := s'.workers[w]]
    requires s.workers[w] != Holding(i) && s'.workers[w] != Holding(i)
    ensures Held(s, i) <==> Held(s', i)
  {
    if Held(s, i) {
      var v: nat :| v < |s.workers| && s.workers[v] == Holding(i);
      assert s'.workers[v] == Holding(i);
    }
    if Held(s', i) {
      var v: nat :| v < |s'.workers| && s'.workers[v] == Holding(i);
      assert s.workers[v] == Holding(i);
    }
  }

  lemma FetchesKeeps<R>(s: State<R>, s': State<R>, w: nat, compute: nat -> R)
    requires Inv(s, compute) && Fetches(s, s', w)
    ensures Inv(s', compute)
  {
    hide Held;
    var n := s.nextTimeIndex;
    forall i: nat | i < |s'.writes|
      ensures IndexInv(s', i, compute)
    {
      assert IndexInv(s, i, compute);
      if i == n {
        assert Held(s', n) by {
          HoldsIt(s', w, n);
        }
      } else {
        HeldBy(s, s', w, i);
      }
    }
  }

  lemma HoldsIt<R>(s: State<R>, w: nat, i: nat)
    requires w < |s.workers| && s.workers[w] == Holding(i)
    ensures Held(s, i)
  {
  }

  lemma NobodyHolds<R>(s: State<R>, s': State<R>, w: nat, compute: nat -> R)
    requires Inv(s, compute) && Processes(s, s', w, compute)
    ensures !Held(s', s.workers[w].index)
  {
  }

  lemma ProcessesKeeps<R>(s: State<R>, s': State<R>, w: nat, compute: nat -> R)
    requires Inv(s, compute) && Processes(s, s', w, compute)
    ensures Inv(s', compute)
  {
    hide Held;
    var n := s.workers[w].index;
    HoldsIt(s, w, n);
    NobodyHolds(s, s', w, compute);
    forall i: nat | i < |s'.writes|
      ensures IndexInv(s', i, compute)
    {
      assert IndexInv(s, i, compute);
      if i != n {
        HeldBy(s, s', w, i);
      }
    }
  }

  lemma {:induction false} RunKeeps<R>(run: seq<State<R>>, compute: nat -> R, i: nat)
    requires Run(run, compute) && i < |run|
    ensures Inv(run[i], compute) && |run[i].writes| == |run[0].writes|
  {
    hide Inv;
    if i == 0 {
      StartsWell(run[0], compute);
    } else {
      RunKeeps(run, compute, i - 1);
      assert Step(run[i-1], run[i], compute);
      var w: nat :| Fetches(run[i-1], run[i], w) || Processes(run[i-1], run[i], w, compute);
      if Fetches(run[i-1], run[i], w) {
        FetchesKeeps(run[i-1], run[i], w, compute);
      } else {
        ProcessesKeeps(run[i-1], run[i], w, compute);
      }
    }
  }

  lemma StartsWell<R>(s: State<R>, compute: nat -> R)
    requires Init(s)
    ensures Inv(s, compute)
  {
  }

  /**
   * In every interleaving no index is processed twice; once all workers have stopped each has been, with its own
   * result.
   */
  lemma ProcessedOnce<R>(run: seq<State<R>>, compute: nat -> R, i: nat, k: nat)
    requires Run(run, compute) && i < |run| && k < |run[0].writes|
    ensures k < |run[i].writes| == |run[i].results| && run[i].writes[k] <= 1
    ensures |run[i].workers| > 0 && (forall w: nat | w < |run[i].workers| :: run[i].workers[w].Stopped?) ==>
      run[i].writes[k] == 1 && run[i].results[k] == compute(k)
  {
    RunKeeps(run, compute, i);
    assert IndexInv(run[i], k, compute);
    if |run[i].workers| > 0 && forall w: nat | w < |run[i].workers| :: run[i].workers[w].Stopped? {
      assert run[i].workers[0].Stopped?;
      assert !Held(run[i], k);
    }
  }
}
