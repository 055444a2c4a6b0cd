/** The main loop of the solver: nominal, cached and optimised data over iterations, runs and resets. */
module DdpIterations {
  import opened Vectors
  import opened Types
  import opened Interpolation
  import opened PartitionIntervals

  /** A trajectory and its controller, mode schedule and so on, of which only times and states matter here. */
  datatype Primal<R> = Primal(times: seq<real>, states: seq<Vec>, rest: R)

  datatype PrimalContainer<R, M> = PrimalContainer(solution: Primal<R>, metrics: M)

  datatype DualContainer<D, V> = DualContainer(dual: D, values: seq<V>)

  /** What a line search leaves behind; on failure the data may be anything. */
  datatype Searched<R, M, D, Q> = Searched(success: bool, primal: Primal<R>, dual: D, metrics: M, performance: Q)

  /** The solution that an iteration hands on, and its performance index. */
  datatype Optimized<R, M, D, Q> = Optimized(primal: Primal<R>, dual: D, metrics: M, performance: Q)

  /** A trajectory the solver can partition: at least two samples, nondecreasing times, a state for each. */
  ghost predicate Usable<R>(p: Primal<R>) {
    |p.times| >= 2 && Nondecreasing(p.times) && |p.states| == |p.times|
  }

  /** What a run is asked for; targets and mode schedules are named by a number. */
  datatype Horizon = Horizon(initTime: real, initState: Vec, finalTime: real, reference: nat)

  /**
   * What the loop calls, for the horizon of the run: the initial rollout from the optimised solution; the dual solution
   * and the metrics of a trajectory; the backward sweep of a partition of a trajectory from its final value, node by
   * node; the value function read off a stored trajectory; the search strategy and its convergence test, by number of
   * the iteration.
   */
  datatype Solver<!R(!new), !M(!new), !D(!new), !V(!new), !Q> = Solver(
    rollout: (Horizon, Primal<R>) -> Primal<R>,
    assess: (Horizon, Primal<R>, D) -> (D, M, Q),
    finalValue: (Horizon, Primal<R>) -> V,
    sweep: (Horizon, Primal<R>, Interval, V, nat) -> V,
    evaluate: (Segment, seq<V>, seq<Vec>, Vec) -> V,
    search: (Horizon, nat, PrimalContainer<R, M>, DualContainer<D, V>) -> Searched<R, M, D, Q>,
    converged: (nat, Q, Q) -> bool)
  {
    ghost predicate Valid() {
      && (forall h: Horizon, p: Primal<R> :: Usable(rollout(h, p)))
      && forall h: Horizon, n: nat, p: PrimalContainer<R, M>, d: DualContainer<D, V> :: SearchUsable(h, n, p, d)
    }

    /** The value function of stored data at a time and state. */
    function ValueAt(p: PrimalContainer<R, M>, d: DualContainer<D, V>, time: real, state: Vec): V {
      evaluate(TimeSegment(time, p.solution.times), d.values, p.solution.states, state)
    }

    /** The final value of a partition is what stored data say where the next partition of the trajectory starts. */
    ghost predicate FromCache(p: PrimalContainer<R, M>, d: DualContainer<D, V>, t: Primal<R>, next: Interval, v: V) {
      next.first < |t.times| == |t.states| && v == ValueAt(p, d, t.times[next.first], t.states[next.first])
    }

    /** Where a run begins: the rollout, and its assessment. */
    function First(h: Horizon, primal: Primal<R>, dual: D): Optimized<R, M, D, Q> {
      var p := rollout(h, primal);
      var a := assess(h, p, dual);
      Optimized(p, a.0, a.1, a.2)
    }

    /** What iteration n hands on: the result of the search, or what it was given if the search fails. */
    function Next(h: Horizon, n: nat, i: Iterate<R, M, D, V>, previous: Q): Optimized<R, M, D, Q> {
      var s := search(h, n, i.primal, i.dual);
      if s.success then Optimized(s.primal, s.dual, s.metrics, s.performance)
      else Optimized(i.primal.solution, i.dual.dual, i.primal.metrics, previous)
    }

    /** The nodes of the first `count` partitions hold the values of the sweeps of their own partitions. */
    ghost predicate SweptTo(h: Horizon, p: Primal<R>, values: seq<V>, intervals: seq<Interval>, finalValues: seq<V>,
                            count: nat)
      requires count <= |intervals| == |finalValues|
    {
      forall j, k: nat | 0 <= j < count && intervals[j].first <= k < intervals[j].second ::
        SweptNode(h, p, values, intervals[j], finalValues[j], k)
    }

    ghost predicate SweptNode(h: Horizon, p: Primal<R>, values: seq<V>, interval: Interval, final: V, k: nat) {
      k < |values| && values[k] == sweep(h, p, interval, final, k)
    }

    /** Every node holds the value of the sweep of its own partition, and the last node the final value. */
    ghost predicate Swept(h: Horizon, i: Iterate<R, M, D, V>, intervals: seq<Interval>, finalValues: seq<V>) {
      var n := |i.dual.values|;
      && n == |i.primal.solution.times| > 0 && intervals != [] && Tiles(intervals, n - 1)
      && |finalValues| == |intervals|
      && finalValues[|intervals|-1] == i.dual.values[n-1] == finalValue(h, i.primal.solution)
      && SweptTo(h, i.primal.solution, i.dual.values, intervals, finalValues, |intervals|)
    }

    /** The first iteration has one partition; later ones read the other final values off the iteration before. */
    ghost predicate Partitioned(nThreads: nat, history: seq<Iterate<R, M, D, V>>, n: nat, trajectory: Primal<R>,
                                intervals: seq<Interval>, finalValues: seq<V>)
      requires n <= |history|
    {
      if n == 0 then |intervals| == 1
      else
        && |intervals| <= nThreads && |finalValues| == |intervals|
        && var before := history[n-1];
           forall j | 0 <= j < |intervals| - 1 ::
             FromCache(before.primal, before.dual, trajectory, intervals[j+1], finalValues[j])
    }

    /** The value functions of iteration n are those of a backward pass. */
    ghost predicate BackwardPass(h: Horizon, nThreads: nat, history: seq<Iterate<R, M, D, V>>, n: nat)
      requires n < |history|
    {
      exists intervals, finalValues ::
        && Swept(h, history[n], intervals, finalValues)
        && Partitioned(nThreads, history, n, history[n].primal.solution, intervals, finalValues)
    }

    /** Iteration n takes what it is given, and hands on what its search makes of it. */
    ghost predicate Link(h: Horizon, nThreads: nat, history: seq<Iterate<R, M, D, V>>, n: nat,
                         given: Optimized<R, M, D, Q>, next: Optimized<R, M, D, Q>)
      requires n < |history|
    {
      && history[n].primal == PrimalContainer(given.primal, given.metrics) && history[n].dual.dual == given.dual
      && BackwardPass(h, nThreads, history, n)
      && next == Next(h, n, history[n], given.performance)
    }

    /** The iterations from number `first` on, each continuing with the solution of the one before. */
    ghost predicate Chain(h: Horizon, nThreads: nat, history: seq<Iterate<R, M, D, V>>, first: nat,
                          solutions: seq<Optimized<R, M, D, Q>>)
    {
      && |solutions| >= 1 && first + |solutions| - 1 == |history|
      && forall k: nat | k + 1 < |solutions| ::
           Link(h, nThreads, history, first + k, solutions[k], solutions[k+1])
    }

    ghost predicate SearchUsable(h: Horizon, n: nat, p: PrimalContainer<R, M>, d: DualContainer<D, V>) {
      search(h, n, p, d).success ==> Usable(search(h, n, p, d).primal)
    }
  }

  lemma RolloutUsable<R(!new), M(!new), D(!new), V(!new), Q>(solver: Solver<R, M, D, V, Q>, h: Horizon, p: Primal<R>)
    requires solver.Valid()
    ensures Usable(solver.rollout(h, p))
  {
  }

  /** What an iteration was solved for and its solution. */
  datatype Iterate<R, M, D, V> = Iterate(primal: PrimalContainer<R, M>, dual: DualContainer<D, V>)

  ghost predicate Matched<R, M, D, V>(i: Iterate<R, M, D, V>) {
    Usable(i.primal.solution) && |i.dual.values| == |i.primal.solution.times|
  }

  /** A use of the cache in iteration number `iteration`, and what was in the cache. */
  datatype CacheRead<R, M, D, V> = CacheRead(iteration: nat, primal: PrimalContainer<R, M>, dual: DualContainer<D, V>)

  class GaussNewtonDdp<R(!new), M(!new), D(!new), V(!new), Q> {
    const solver: Solver<R, M, D, V, Q>
    const maxNumIterations: nat
    const nThreads: nat
    const empty: Iterate<R, M, D, V>

    var horizon: Horizon
    var nominalPrimal: PrimalContainer<R, M>
    var nominalDual: DualContainer<D, V>
    var cachedPrimal: PrimalContainer<R, M>
    var cachedDual: DualContainer<D, V>
    var optimizedPrimal: Primal<R>
    var optimizedDual: D
    var optimizedMetrics: M
    var performanceIndex: Q
    var performanceIndexHistory: seq<Q>
    var totalNumIterations: nat

    /** Iterations since the last reset, and the uses of the cache in them. */
    ghost var history: seq<Iterate<R, M, D, V>>
    ghost var cacheReads: seq<CacheRead<R, M, D, V>>

    ghost predicate HistoryValid()
      reads this
    {
      && solver.Valid() && maxNumIterations >= 1 && nThreads >= 1
      && |history| == totalNumIterations
      && (forall i | 0 <= i < |history| :: Matched(history[i]))
      && (forall i | 0 <= i < |cacheReads| :: 0 < cacheReads[i].iteration <= |history|
            && Iterate(cacheReads[i].primal, cacheReads[i].dual) == history[cacheReads[i].iteration-1])
    }

    /** Between runs the nominal data are those of the last iteration. */
    ghost predicate Valid()
      reads this
    {
      HistoryValid() && (totalNumIterations > 0
                         ==> Iterate(nominalPrimal, nominalDual) == history[totalNumIterations-1])
    }

    /** Inside a run the cached data are those of the last iteration. */
    ghost predicate CacheValid()
      reads this
    {
      HistoryValid() && (totalNumIterations > 0 ==> Iterate(cachedPrimal, cachedDual) == history[totalNumIterations-1])
    }

    constructor (solver: Solver<R, M, D, V, Q>, maxNumIterations: nat, nThreads: nat, empty: Iterate<R, M, D, V>,
                 performance: Q)
      requires solver.Valid() && maxNumIterations >= 1 && nThreads >= 1
      ensures Valid() && totalNumIterations == 0 && this.maxNumIterations == maxNumIterations && history == []
    {
      this.solver, this.maxNumIterations, this.nThreads, this.empty := solver, maxNumIterations, nThreads, empty;
      nominalPrimal, nominalDual, cachedPrimal, cachedDual := empty.primal, empty.dual, empty.primal, empty.dual;
      optimizedPrimal, optimizedDual, optimizedMetrics := empty.primal.solution, empty.dual.dual, empty.primal.metrics;
      performanceIndex, performanceIndexHistory, totalNumIterations := performance, [], 0;
      history, cacheReads := [], [];
    }

    method Reset()
      requires Valid()
      modifies this
      ensures Valid() && totalNumIterations == 0 && history == [] && cacheReads == []
    {
      nominalDual, nominalPrimal, cachedDual, cachedPrimal := empty.dual, empty.primal, empty.dual, empty.primal;
      optimizedDual, optimizedPrimal, optimizedMetrics := empty.dual.dual, empty.primal.solution, empty.primal.metrics;
      totalNumIterations, performanceIndexHistory := 0, [];
      history, cacheReads := [], [];
    }

    /** The cached pair belongs to the iteration just before, with as many value functions as times. */
    method GetValueFunctionFromCache(time: real, state: Vec) returns (v: V)
      requires CacheValid() && totalNumIterations > 0
      modifies this`cacheReads
      ensures CacheValid() && v == solver.ValueAt(cachedPrimal, cachedDual, time, state)
      ensures cacheReads == old(cacheReads) + [CacheRead(totalNumIterations, cachedPrimal, cachedDual)]
    {
      cacheReads := cacheReads + [CacheRead(totalNumIterations, cachedPrimal, cachedDual)];
      assert Matched(history[totalNumIterations-1]);
      assert |cachedDual.values| == |cachedPrimal.solution.times| == |cachedPrimal.solution.states|;
      v := solver.ValueAt(cachedPrimal, cachedDual, time, state);
    }

    /** Final values of the partitions: from the cache where the next one starts, given for the last one. */
    method PartitionFinalValues(intervals: seq<Interval>, finalValue: V) returns (finalValues: seq<V>)
      requires CacheValid() && Usable(nominalPrimal.solution) && totalNumIterations > 0
      requires intervals != [] && Tiles(intervals, |nominalPrimal.solution.times| - 1)
      modifies this`cacheReads
      ensures CacheValid() && |cacheReads| == |old(cacheReads)| + |intervals| - 1
      ensures cacheReads[..|old(cacheReads)|] == old(cacheReads)
      ensures |finalValues| == |intervals| && finalValues[|intervals|-1] == finalValue
      ensures forall i | 0 <= i < |intervals| - 1 ::
                solver.FromCache(cachedPrimal, cachedDual, nominalPrimal.solution, intervals[i+1], finalValues[i])
    {
      finalValues := [];
      for i := 0 to |intervals| - 1
        invariant CacheValid() && |finalValues| == i
        invariant |cacheReads| == |old(cacheReads)| + i && cacheReads[..|old(cacheReads)|] == old(cacheReads)
        invariant forall l | 0 <= l < i ::
                    solver.FromCache(cachedPrimal, cachedDual, nominalPrimal.solution, intervals[l+1], finalValues[l])
      {
        StartInside(intervals, |nominalPrimal.solution.times| - 1, i + 1);
        var start := intervals[i+1].first;
        var v := GetValueFunctionFromCache(nominalPrimal.solution.times[start], nominalPrimal.solution.states[start]);
        finalValues := finalValues + [v];
      }
      finalValues := finalValues + [finalValue];
    }

    /** The sweeps of all partitions, in any order. */
    method SweepPartitions(intervals: seq<Interval>, finalValues: seq<V>, finalValue: V)
      requires |finalValues| == |intervals| && Usable(nominalPrimal.solution)
      requires Tiles(intervals, |nominalPrimal.solution.times| - 1)
      modifies this`nominalDual
      ensures nominalDual.dual == old(nominalDual.dual) && |nominalDual.values| == |nominalPrimal.solution.times|
      ensures nominalDual.values[|nominalDual.values|-1] == finalValue
      ensures solver.SweptTo(horizon, nominalPrimal.solution, nominalDual.values, intervals, finalValues, |intervals|)
    {
      hide Solver.SweptTo;
      var f, h, p := solver.sweep, horizon, nominalPrimal.solution;
      var n := |p.times|;
      var values: seq<V> := seq(n, _ => finalValue);
      NothingSwept(solver, h, p, values, intervals, finalValues);
      for i := 0 to |intervals|
        invariant |values| == n && values[n-1] == finalValue && nominalDual == old(nominalDual)
        invariant solver.SweptTo(h, p, values, intervals, finalValues, i)
      {
        EndInside(intervals, n - 1, i);
        var before, interval, final := values, intervals[i], finalValues[i];
        values := seq(n, k requires 0 <= k < n =>
          if interval.first <= k < interval.second then f(h, p, interval, final, k) else before[k]);
        SweepOne(solver, h, p, before, values, intervals, finalValues, i);
      }
      nominalDual := nominalDual.(values := values);
    }

    /**
     * The backward pass: one sequential partition in the first iteration, later one for each worker, whose final values
     * come from the cache. Every node holds the value of the sweep of its own partition.
     */
    method SolveSequentialRiccatiEquations() returns (ghost intervals: seq<Interval>, ghost finalValues: seq<V>)
      requires CacheValid() && Usable(nominalPrimal.solution)
      modifies this`nominalDual, this`cacheReads
      ensures CacheValid() && nominalDual.dual == old(nominalDual.dual)
      ensures solver.Swept(horizon, Iterate(nominalPrimal, nominalDual), intervals, finalValues)
      ensures solver.Partitioned(nThreads, history, totalNumIterations, nominalPrimal.solution, intervals, finalValues)
      ensures totalNumIterations == 0 ==> cacheReads == old(cacheReads)
      ensures |cacheReads| >= |old(cacheReads)| && cacheReads[..|old(cacheReads)|] == old(cacheReads)
    {
      hide Matched;
      var finalValue := solver.finalValue(horizon, nominalPrimal.solution);
      var partitions, finals := [Interval(0, |nominalPrimal.solution.times| - 1)], [finalValue];
      if totalNumIterations > 0 {
        partitions := ComputePartitionIntervals(nominalPrimal.solution.times, nThreads);
        finals := PartitionFinalValues(partitions, finalValue);
      }
      SweepPartitions(partitions, finals, finalValue);
      intervals, finalValues := partitions, finals;
    }

    /** The optimised data and their performance index. */
    ghost function CurrentSolution(): Optimized<R, M, D, Q>
      reads this
    {
      Optimized(optimizedPrimal, optimizedDual, optimizedMetrics, performanceIndex)
    }

    /** The search strategy writes the optimised data; if it fails they are replaced by copies of the nominal ones. */
    method TakePrimalDualStep()
      requires CacheValid() && Usable(nominalPrimal.solution) && performanceIndexHistory != []
      modifies this`optimizedPrimal, this`optimizedDual, this`optimizedMetrics, this`performanceIndex
      ensures CacheValid() && Usable(optimizedPrimal)
      ensures CurrentSolution() == solver.Next(horizon, totalNumIterations, Iterate(nominalPrimal, nominalDual),
                                               performanceIndexHistory[|performanceIndexHistory|-1])
    {
      hide Matched;
      var s := solver.search(horizon, totalNumIterations, nominalPrimal, nominalDual);
      assert solver.SearchUsable(horizon, totalNumIterations, nominalPrimal, nominalDual);
      optimizedPrimal, optimizedDual, optimizedMetrics, performanceIndex := s.primal, s.dual, s.metrics, s.performance;
      if !s.success {
        optimizedDual := nominalDual.dual;
        optimizedPrimal := nominalPrimal.solution;
        optimizedMetrics := nominalPrimal.metrics;
        performanceIndex := performanceIndexHistory[|performanceIndexHistory|-1];
      }
    }

    /** The data of the last iteration go to the cache; those that were there are overwritten next. */
    method SwapWithCache()
      requires Valid()
      modifies this`nominalPrimal, this`nominalDual, this`cachedPrimal, this`cachedDual
      ensures CacheValid()
      ensures cachedPrimal == old(nominalPrimal) && cachedDual == old(nominalDual)
      ensures nominalPrimal == old(cachedPrimal) && nominalDual == old(cachedDual)
    {
      nominalDual, cachedDual := cachedDual, nominalDual;
      nominalPrimal, cachedPrimal := cachedPrimal, nominalPrimal;
    }

    /** A trajectory for the horizon from the optimised one, with its dual solution, metrics and performance. */
    method RollOut()
      requires CacheValid() && performanceIndexHistory == []
      modifies this`nominalPrimal, this`nominalDual, this`performanceIndex, this`performanceIndexHistory
      ensures CacheValid() && Usable(nominalPrimal.solution) && |performanceIndexHistory| == 1
      ensures Optimized(nominalPrimal.solution, nominalDual.dual, nominalPrimal.metrics, performanceIndexHistory[0])
              == solver.First(horizon, optimizedPrimal, optimizedDual)
    {
      hide Solver.Valid, Matched, Usable;
      var solution := solver.rollout(horizon, optimizedPrimal);
      RolloutUsable(solver, horizon, optimizedPrimal);
      var (dual, metrics, performance) := solver.assess(horizon, solution, optimizedDual);
      nominalPrimal, nominalDual := PrimalContainer(solution, metrics), nominalDual.(dual := dual);
      performanceIndex, performanceIndexHistory := performance, performanceIndexHistory + [performance];
    }

    method SetHorizon(newHorizon: Horizon, start: Option<Primal<R>>)
      requires Valid()
      modifies this`horizon, this`optimizedPrimal, this`performanceIndexHistory
      ensures Valid() && horizon == newHorizon && performanceIndexHistory == []
      ensures optimizedPrimal == if start.Some? then start.value else old(optimizedPrimal)
    {
      hide Solver.Valid, Matched;
      horizon := newHorizon;
      if start.Some? {
        optimizedPrimal := start.value;
      }
      performanceIndexHistory := [];
    }

    /**
     * The nominal data of the last iteration become the cache, and a first trajectory is rolled out for the new horizon
     * from the optimised one, or from the one given.
     */
    method Initialize(newHorizon: Horizon, start: Option<Primal<R>>)
      requires Valid()
      modifies this
      ensures CacheValid() && Usable(nominalPrimal.solution) && |performanceIndexHistory| == 1
      ensures horizon == newHorizon && optimizedPrimal == (if start.Some? then start.value else old(optimizedPrimal))
      ensures Optimized(nominalPrimal.solution, nominalDual.dual, nominalPrimal.metrics, performanceIndexHistory[0])
              == solver.First(newHorizon, optimizedPrimal, old(optimizedDual))
      ensures cachedPrimal == old(nominalPrimal) && cachedDual == old(nominalDual)
      ensures totalNumIterations == old(totalNumIterations) && history == old(history) && cacheReads == old(cacheReads)
    {
      hide Valid, CacheValid, HistoryValid, Usable;
      SetHorizon(newHorizon, start);
      SwapWithCache();
      RollOut();
    }

    /**
     * One iteration: the value functions of a backward pass over the nominal data, the search from both, and the
     * record.
     */
    method IterateOnce()
      requires CacheValid() && Usable(nominalPrimal.solution) && performanceIndexHistory != []
      modifies this`nominalDual, this`cacheReads, this`history, this`totalNumIterations, this`performanceIndexHistory,
               this`optimizedPrimal, this`optimizedDual, this`optimizedMetrics, this`performanceIndex
      ensures Valid() && Usable(optimizedPrimal)
      ensures totalNumIterations == old(totalNumIterations) + 1
      ensures nominalDual.dual == old(nominalDual.dual)
      ensures history == old(history) + [Iterate(nominalPrimal, nominalDual)]
      ensures solver.BackwardPass(horizon, nThreads, history, old(totalNumIterations))
      ensures CurrentSolution() == solver.Next(horizon, old(totalNumIterations), Iterate(nominalPrimal, nominalDual),
                                               old(performanceIndexHistory[|performanceIndexHistory|-1]))
      ensures performanceIndexHistory == old(performanceIndexHistory) + [performanceIndex]
      ensures |cacheReads| >= |old(cacheReads)| && cacheReads[..|old(cacheReads)|] == old(cacheReads)
    {
      hide Usable, Matched, Solver.Swept, Solver.Partitioned, Solver.BackwardPass, Solver.Next;
      ghost var intervals, finalValues := SolveSequentialRiccatiEquations();
      TakePrimalDualStep();
      RecordPass(solver, horizon, nThreads, history, Iterate(nominalPrimal, nominalDual), intervals, finalValues);
      history := history + [Iterate(nominalPrimal, nominalDual)];
      totalNumIterations := totalNumIterations + 1;
      performanceIndexHistory := performanceIndexHistory + [performanceIndex];
    }

    /** The nominal data become the cache, and the optimised solution the nominal one. */
    method PromoteOptimized()
      requires Valid() && Usable(optimizedPrimal)
      modifies this`nominalPrimal, this`nominalDual, this`cachedPrimal, this`cachedDual, this`optimizedPrimal,
               this`optimizedDual, this`optimizedMetrics
      ensures CacheValid() && Usable(nominalPrimal.solution)
      ensures cachedPrimal == old(nominalPrimal) && cachedDual == old(nominalDual)
      ensures nominalPrimal == PrimalContainer(old(optimizedPrimal), old(optimizedMetrics))
              && nominalDual.dual == old(optimizedDual)
    {
      hide Solver.Valid, Matched, Usable;
      SwapWithCache();
      var d, p, m := nominalDual.dual, nominalPrimal.solution, nominalPrimal.metrics;
      nominalDual, optimizedDual := nominalDual.(dual := optimizedDual), d;
      nominalPrimal, optimizedPrimal := nominalPrimal.(solution := optimizedPrimal), p;
      nominalPrimal, optimizedMetrics := nominalPrimal.(metrics := optimizedMetrics), m;
    }

    /**
     * One run, from the optimised solution or from a given one. It makes at least one and at most maxNumIterations
     * iterations, and stops earlier only when the search strategy reports convergence. It begins with the rollout and
     * its assessment, every iteration continues with the solution of the one before, and the last solution is the
     * result.
     */
    method RunImpl(newHorizon: Horizon, start: Option<Primal<R>>)
      returns (iterations: nat, ghost solutions: seq<Optimized<R, M, D, Q>>)
      requires Valid() && maxNumIterations >= 1
      modifies this
      ensures Valid()
      ensures 1 <= iterations <= maxNumIterations && totalNumIterations == old(totalNumIterations) + iterations
      ensures |performanceIndexHistory| == |solutions| == iterations + 1
      ensures iterations < maxNumIterations ==>
        solver.converged(totalNumIterations, performanceIndexHistory[iterations-1], performanceIndexHistory[iterations])
      ensures solutions[0] == solver.First(newHorizon, if start.Some? then start.value else old(optimizedPrimal),
                                           old(optimizedDual))
      ensures solver.Chain(newHorizon, nThreads, history, old(totalNumIterations), solutions)
      ensures CurrentSolution() == solutions[iterations]
      ensures forall k | 0 <= k <= iterations :: performanceIndexHistory[k] == solutions[k].performance
      ensures |cacheReads| >= |old(cacheReads)| && cacheReads[..|old(cacheReads)|] == old(cacheReads)
      ensures |history| >= |old(history)| && history[..|old(history)|] == old(history)
    {
      hide GaussNewtonDdp.Valid, GaussNewtonDdp.CacheValid, GaussNewtonDdp.HistoryValid, Usable, Solver.BackwardPass,
        Solver.Next, Solver.First, Solver.Chain, Solver.Valid;
      var initIteration := totalNumIterations;
      Initialize(newHorizon, start);
      solutions := [Optimized(nominalPrimal.solution, nominalDual.dual, nominalPrimal.metrics,
                              performanceIndexHistory[0])];
      HistorySize();
      StartChain(solver, newHorizon, nThreads, history, solutions[0]);
      while true
        invariant CacheValid() && Usable(nominalPrimal.solution) && horizon == newHorizon
        invariant |history| == totalNumIterations && initIteration == old(totalNumIterations)
        invariant initIteration <= totalNumIterations < initIteration + maxNumIterations
        invariant |performanceIndexHistory| == |solutions| == totalNumIterations - initIteration + 1
        invariant forall k | 0 <= k < |solutions| :: performanceIndexHistory[k] == solutions[k].performance
        invariant solutions[0] == solver.First(newHorizon, if start.Some? then start.value else old(optimizedPrimal),
                                               old(optimizedDual))
        invariant solver.Chain(newHorizon, nThreads, history, initIteration, solutions)
        invariant solutions[|solutions|-1].primal == nominalPrimal.solution
                  && solutions[|solutions|-1].metrics == nominalPrimal.metrics
                  && solutions[|solutions|-1].dual == nominalDual.dual
        invariant |cacheReads| >= |old(cacheReads)| && cacheReads[..|old(cacheReads)|] == old(cacheReads)
        invariant |history| >= |old(history)| && history[..|old(history)|] == old(history)
        decreases initIteration + maxNumIterations - totalNumIterations
      {
        ghost var before := history;
        IterateOnce();
        ExtendChain(solver, newHorizon, nThreads, before, history[|before|], initIteration, solutions,
                    CurrentSolution());
        solutions := solutions + [CurrentSolution()];
        var last := |performanceIndexHistory| - 1;
        var isConverged := solver.converged(totalNumIterations, performanceIndexHistory[last-1],
                                            performanceIndexHistory[last]);
        if isConverged || totalNumIterations - initIteration == maxNumIterations {
          break;
        }
        PromoteOptimized();
      }
      iterations := totalNumIterations - initIteration;
    }

    lemma HistorySize()
      requires CacheValid()
      ensures |history| == totalNumIterations
    {
    }
  }

  lemma NothingSwept<R(!new), M(!new), D(!new), V(!new), Q>(solver: Solver<R, M, D, V, Q>, h: Horizon, p: Primal<R>,
                                                            values: seq<V>, intervals: seq<Interval>,
                                                            finalValues: seq<V>)
    requires |intervals| == |finalValues|
    ensures solver.SweptTo(h, p, values, intervals, finalValues, 0)
  {
  }

  /** Writing the nodes of partition i leaves those of earlier partitions alone. */
  lemma SweepOne<R(!new), M(!new), D(!new), V(!new), Q>(solver: Solver<R, M, D, V, Q>, h: Horizon, p: Primal<R>,
                                                        before: seq<V>, values: seq<V>, intervals: seq<Interval>,
                                                        finalValues: seq<V>, i: nat)
    requires i < |intervals| == |finalValues| && |before| == |values| > 0 && Tiles(intervals, |values| - 1)
    requires solver.SweptTo(h, p, before, intervals, finalValues, i)
    requires forall k | 0 <= k < |values| ::
               values[k] == if intervals[i].first <= k < intervals[i].second
                            then solver.sweep(h, p, intervals[i], finalValues[i], k) else before[k]
    ensures solver.SweptTo(h, p, values, intervals, finalValues, i + 1)
  {
    EndInside(intervals, |values| - 1, i);
    forall j, k: nat | 0 <= j < i + 1 && intervals[j].first <= k < intervals[j].second
      ensures solver.SweptNode(h, p, values, intervals[j], finalValues[j], k)
    {
      if j < i {
        assert solver.SweptNode(h, p, before, intervals[j], finalValues[j], k);
        TilesOrdered(intervals, |values| - 1, j, i);
      }
    }
  }

  lemma StartChain<R(!new), M(!new), D(!new), V(!new), Q>(solver: Solver<R, M, D, V, Q>, h: Horizon, nThreads: nat,
                                                          history: seq<Iterate<R, M, D, V>>,
                                                          first: Optimized<R, M, D, Q>)
    ensures solver.Chain(h, nThreads, history, |history|, [first])
  {
  }

  lemma RecordPass<R(!new), M(!new), D(!new), V(!new), Q>(solver: Solver<R, M, D, V, Q>, h: Horizon, nThreads: nat,
                                                          before: seq<Iterate<R, M, D, V>>, i: Iterate<R, M, D, V>,
                                                          intervals: seq<Interval>, finalValues: seq<V>)
    requires Usable(i.primal.solution) && solver.Swept(h, i, intervals, finalValues)
    requires solver.Partitioned(nThreads, before, |before|, i.primal.solution, intervals, finalValues)
    ensures Matched(i) && solver.BackwardPass(h, nThreads, before + [i], |before|)
  {
    hide Solver.SweptTo, Solver.FromCache;
    var n := |before|;
    assert solver.Swept(h, (before + [i])[n], intervals, finalValues);
    assert n > 0 ==> (before + [i])[n-1] == before[n-1];
    assert solver.Partitioned(nThreads, before + [i], n, i.primal.solution, intervals, finalValues);
  }

  /** Earlier iterations do not notice a later one. */
  lemma ExtendChain<R(!new), M(!new), D(!new), V(!new), Q>(solver: Solver<R, M, D, V, Q>, h: Horizon, nThreads: nat,
                                                           before: seq<Iterate<R, M, D, V>>, i: Iterate<R, M, D, V>,
                                                           first: nat, solutions: seq<Optimized<R, M, D, Q>>,
                                                           next: Optimized<R, M, D, Q>)
    requires solver.Chain(h, nThreads, before, first, solutions)
    requires solver.Link(h, nThreads, before + [i], |before|, solutions[|solutions|-1], next)
    ensures solver.Chain(h, nThreads, before + [i], first, solutions + [next])
  {
    hide Solver.Swept, Solver.FromCache, Solver.Next;
    var history, more := before + [i], solutions + [next];
    forall k: nat | k + 1 < |more|
      ensures solver.Link(h, nThreads, history, first + k, more[k], more[k+1])
    {
      if k + 1 < |solutions| {
        assert solver.Link(h, nThreads, before, first + k, solutions[k], solutions[k+1]);
        SamePass(solver, h, nThreads, before, i, first + k);
      }
    }
  }

  lemma SamePass<R(!new), M(!new), D(!new), V(!new), Q>(solver: Solver<R, M, D, V, Q>, h: Horizon, nThreads: nat,
                                                        before: seq<Iterate<R, M, D, V>>, i: Iterate<R, M, D, V>,
                                                        n: nat)
    requires n < |before| && solver.BackwardPass(h, nThreads, before, n)
    ensures solver.BackwardPass(h, nThreads, before + [i], n)
  {
    hide Solver.Swept, Solver.FromCache;
    var history := before + [i];
    var intervals, finalValues :| solver.Swept(h, before[n], intervals, finalValues)
      && solver.Partitioned(nThreads, before, n, before[n].primal.solution, intervals, finalValues);
    assert history[n] == before[n] && (n > 0 ==> history[n-1] == before[n-1]);
    assert solver.Partitioned(nThreads, history, n, history[n].primal.solution, intervals, finalValues);
  }

  datatype Request<R> = Run(horizon: Horizon, start: Option<Primal<R>>) | Reset

  function NumRuns<R>(requests: seq<Request<R>>, n: nat): nat
    requires n <= |requests|
  {
    if n == 0 then 0 else NumRuns(requests, n - 1) + if requests[n-1].Run? then 1 else 0
  }

  /**
   * Any sequence of runs and resets: every run stops in time, and whenever the cache was used since the last reset it
   * held the primal and dual data of the iteration before, of equal length.
   */
  method Serve<R(!new), M(!new), D(!new), V(!new), Q>(ddp: GaussNewtonDdp<R, M, D, V, Q>, requests: seq<Request<R>>)
    returns (iterations: seq<nat>)
    requires ddp.Valid() && ddp.maxNumIterations >= 1
    modifies ddp
    ensures ddp.Valid() && |iterations| == NumRuns(requests, |requests|)
    ensures forall i | 0 <= i < |iterations| :: 1 <= iterations[i] <= ddp.maxNumIterations
    ensures forall i | 0 <= i < |ddp.cacheReads| ::
      var r := ddp.cacheReads[i];
      && 0 < r.iteration <= |ddp.history| && Iterate(r.primal, r.dual) == ddp.history[r.iteration-1]
      && |r.dual.values| == |r.primal.solution.times| == |r.primal.solution.states|
  {
    iterations := [];
    for i := 0 to |requests|
      invariant ddp.Valid() && |iterations| == NumRuns(requests, i)
      invariant forall j | 0 <= j < |iterations| :: 1 <= iterations[j] <= ddp.maxNumIterations
    {
      match requests[i] {
        case Run(horizon, start) =>
          var n, _ := ddp.RunImpl(horizon, start);
          iterations := iterations + [n];
        case Reset =>
          ddp.Reset();
      }
    }
    forall i | 0 <= i < |ddp.cacheReads|
      ensures Matched(ddp.history[ddp.cacheReads[i].iteration-1])
    {
    }
  }

  lemma EndInside(intervals: seq<Interval>, end: nat, i: nat)
    requires Tiles(intervals, end) && i < |intervals|
    ensures intervals[i].first < intervals[i].second <= end
  {
    if i < |intervals| - 1 {
      TilesOrdered(intervals, end, i, |intervals| - 1);
    }
  }

  lemma StartInside(intervals: seq<Interval>, end: nat, i: nat)
    requires Tiles(intervals, end) && i < |intervals|
    ensures intervals[i].first < end
  {
    if i < |intervals| - 1 {
      TilesOrdered(intervals, end, i, |intervals| - 1);
    }
  }
}
