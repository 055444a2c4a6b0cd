/** What the stacked matrices of QpSolver say about trajectories. */
module QpMeaning {
  import opened Vectors
  import opened Types
  import opened QpSolver

  // ----- trajectories and decision vectors

  ghost predicate HasShape(lqp: Problem, t: Trajectory)
  {
    && |t.states| == |lqp| && |t.inputs| == |lqp| - 1
    && (forall k {:trigger t.states[k]} | 0 <= k < |lqp| :: |t.states[k]| == StateDim(lqp, k))
    && (forall k {:trigger t.inputs[k]} | 0 <= k < |lqp| - 1 :: |t.inputs[k]| == InputDim(lqp, k))
  }

  function StateAt(lqp: Problem, w: Vec, k: nat): (x: Vec)
    requires k < |lqp| && |w| == NumDecisionVariables(lqp)
    ensures |x| == StateDim(lqp, k)
  {
    ColBound(lqp, k);
    w[ColAt(lqp, k)..ColAt(lqp, k) + StateDim(lqp, k)]
  }

  function InputAt(lqp: Problem, w: Vec, k: nat): (u: Vec)
    requires k < |lqp| - 1 && |w| == NumDecisionVariables(lqp)
    ensures |u| == InputDim(lqp, k)
  {
    ColBound(lqp, k);
    w[ColAt(lqp, k) + StateDim(lqp, k)..ColAt(lqp, k + 1)]
  }

  function Unpack(lqp: Problem, w: Vec): (t: Trajectory)
    requires |w| == NumDecisionVariables(lqp)
    ensures HasShape(lqp, t)
  {
    Trajectory(seq(|lqp|, k requires 0 <= k < |lqp| => StateAt(lqp, w, k)),
               seq(|lqp| - 1, k requires 0 <= k < |lqp| - 1 => InputAt(lqp, w, k)))
  }

  function PackUpTo(lqp: Problem, t: Trajectory, k: nat): (w: Vec)
    requires HasShape(lqp, t) && k < |lqp|
    ensures |w| == ColAt(lqp, k)
  {
    if k == 0 then [] else PackUpTo(lqp, t, k - 1) + t.states[k-1] + t.inputs[k-1]
  }

  /** The decision vector [x[0]; u[0]; x[1]; ...; x[N]] of a trajectory. */
  function Pack(lqp: Problem, t: Trajectory): (w: Vec)
    requires HasShape(lqp, t)
    ensures |w| == NumDecisionVariables(lqp)
  {
    PackUpTo(lqp, t, |lqp| - 1) + t.states[|lqp|-1]
  }

  lemma {:induction false} PackPrefix(lqp: Problem, t: Trajectory, k: nat, l: nat)
    requires HasShape(lqp, t) && k <= l < |lqp|
    ensures ColAt(lqp, k) <= ColAt(lqp, l)
    ensures PackUpTo(lqp, t, k) == PackUpTo(lqp, t, l)[..ColAt(lqp, k)]
  {
    if k < l {
      PackPrefix(lqp, t, k, l - 1);
    }
  }

  lemma PackSlices(lqp: Problem, t: Trajectory, k: nat)
    requires HasShape(lqp, t) && k < |lqp|
    ensures StateAt(lqp, Pack(lqp, t), k) == t.states[k]
    ensures k < |lqp| - 1 ==> InputAt(lqp, Pack(lqp, t), k) == t.inputs[k]
  {
    var N, w := |lqp| - 1, Pack(lqp, t);
    if k < N {
      PackPrefix(lqp, t, k + 1, N);
      var p := PackUpTo(lqp, t, k);
      var q := p + t.states[k] + t.inputs[k];
      assert w == q + w[|q|..];
      assert q == PackUpTo(lqp, t, k + 1);
    } else {
      assert w == PackUpTo(lqp, t, N) + t.states[N];
    }
  }

  /** w stacks the states and inputs of t. */
  ghost predicate Represents(lqp: Problem, w: Vec, t: Trajectory)
    requires |w| == NumDecisionVariables(lqp)
  {
    && HasShape(lqp, t)
    && (forall k | 0 <= k < |lqp| :: StateAt(lqp, w, k) == t.states[k])
    && (forall k | 0 <= k < |lqp| - 1 :: InputAt(lqp, w, k) == t.inputs[k])
  }

  lemma PackRepresents(lqp: Problem, t: Trajectory)
    requires HasShape(lqp, t)
    ensures Represents(lqp, Pack(lqp, t), t)
  {
    forall k | 0 <= k < |lqp|
      ensures StateAt(lqp, Pack(lqp, t), k) == t.states[k]
      ensures k < |lqp| - 1 ==> InputAt(lqp, Pack(lqp, t), k) == t.inputs[k]
    {
      PackSlices(lqp, t, k);
    }
  }

  /** Packing and unpacking are inverse. */
  lemma UnpackPack(lqp: Problem, t: Trajectory)
    requires HasShape(lqp, t)
    ensures Unpack(lqp, Pack(lqp, t)) == t
  {
    PackRepresents(lqp, t);
  }

  // ----- the control problem

  ghost predicate StageHolds(s: Stage, x: Vec, u: Vec, xNext: Vec) {
    && StageFits(s, |x|, |u|, |xNext|)
    && (|s.constraints.f| > 0 ==>
          Add(Add(MulV(s.constraints.dfdx, x), MulV(s.constraints.dfdu, u)), s.constraints.f)
          == Zeros(|s.constraints.f|))
    && xNext == Add(Add(MulV(s.dynamics.dfdx, x), MulV(s.dynamics.dfdu, u)), s.dynamics.f)
  }

  ghost predicate FinalHolds(s: Stage, x: Vec)
    requires FinalFits(s, |x|)
  {
    |s.constraints.f| > 0 ==> Add(MulV(s.constraints.dfdx, x), s.constraints.f) == Zeros(|s.constraints.f|)
  }

  ghost predicate StageOfTrajectoryHolds(lqp: Problem, t: Trajectory, k: nat)
    requires HasShape(lqp, t) && k < |lqp| - 1
  {
    StageHolds(lqp[k], t.states[k], t.inputs[k], t.states[k+1])
  }

  ghost predicate StagesHoldUpTo(lqp: Problem, t: Trajectory, k: nat)
    requires HasShape(lqp, t) && k < |lqp|
  {
    k == 0 || (StagesHoldUpTo(lqp, t, k - 1) && StageOfTrajectoryHolds(lqp, t, k - 1))
  }

  lemma {:induction false} StagesHold(lqp: Problem, t: Trajectory, k: nat)
    requires HasShape(lqp, t) && k < |lqp|
    ensures StagesHoldUpTo(lqp, t, k) <==> forall l | 0 <= l < k :: StageOfTrajectoryHolds(lqp, t, l)
  {
    if k > 0 {
      StagesHold(lqp, t, k - 1);
    }
  }

  /** Starts at dx0, and meets the dynamics and the constraints of every stage. */
  ghost predicate Feasible(lqp: Problem, dx0: Vec, t: Trajectory)
    requires HasShape(lqp, t)
  {
    && t.states[0] == dx0
    && (forall k | 0 <= k < |lqp| - 1 :: StageOfTrajectoryHolds(lqp, t, k))
    && FinalHolds(lqp[|lqp|-1], t.states[|lqp|-1])
  }

  function FinalCost(c: QuadraticApprox, x: Vec): real
    requires c.dfdxx.cols == |c.dfdxx.rows| == |c.dfdx| == |x|
  {
    c.f + Dot(c.dfdx, x) + 0.5 * Dot(x, MulV(c.dfdxx, x))
  }

  function CostUpTo(lqp: Problem, t: Trajectory, k: nat): real
    requires HasShape(lqp, t) && k < |lqp|
  {
    if k == 0 then 0.0 else
      assert StageFitsAt(lqp, k - 1);
      CostUpTo(lqp, t, k - 1) + QuadraticValue(lqp[k-1].cost, t.states[k-1], t.inputs[k-1])
  }

  function TrajectoryCost(lqp: Problem, t: Trajectory): real
    requires HasShape(lqp, t)
  {
    CostUpTo(lqp, t, |lqp| - 1) + FinalCost(lqp[|lqp|-1].cost, t.states[|lqp|-1])
  }

  // ----- rows of the stacked matrices

  lemma PlacedDot(row: Vec, col: nat, w: Vec)
    requires col + |row| <= |w|
    ensures Dot(Placed(row, col, |w|), w) == Dot(row, w[col..col + |row|])
  {
    var x, y, z := w[..col], w[col..col + |row|], w[col + |row|..];
    assert w == x + y + z;
    DotConcat(Zeros(col) + row, Zeros(|z|), x + y, z);
    DotConcat(Zeros(col), row, x, y);
    DotZeros(x);
    DotZeros(z);
  }

  lemma HCatMulV(a: Mat, b: Mat, x: Vec, y: Vec)
    requires |a.rows| == |b.rows| && |x| == a.cols && |y| == b.cols
    ensures MulV(HCat(a, b), x + y) == Add(MulV(a, x), MulV(b, y))
  {
    forall i | 0 <= i < |a.rows|
      ensures Dot(a.rows[i] + b.rows[i], x + y) == Dot(a.rows[i], x) + Dot(b.rows[i], y)
    {
      DotConcat(a.rows[i], b.rows[i], x, y);
    }
  }

  lemma NegIdentityMulV(x: Vec)
    ensures MulV(NegIdentity(|x|), x) == Scale(-1.0, x)
  {
    MScaleMulV(-1.0, Identity(|x|), x);
    IdentityMulV(x);
  }

  /** The given rows, applied to w, plus the bias are all zero. */
  ghost predicate Satisfied(rows: seq<Vec>, bias: Vec, w: Vec) {
    && |rows| == |bias| && Wide(rows, |w|)
    && forall i | 0 <= i < |rows| :: Dot(rows[i], w) + bias[i] == 0.0
  }

  lemma SatisfiedConcat(r1: seq<Vec>, b1: Vec, r2: seq<Vec>, b2: Vec, w: Vec)
    requires |r1| == |b1| && |r2| == |b2|
    ensures Satisfied(r1 + r2, b1 + b2, w) <==> Satisfied(r1, b1, w) && Satisfied(r2, b2, w)
  {
    if Satisfied(r1 + r2, b1 + b2, w) {
      forall i | 0 <= i < |r1|
        ensures |r1[i]| == |w| && Dot(r1[i], w) + b1[i] == 0.0
      {
        assert (r1 + r2)[i] == r1[i];
      }
      forall i | 0 <= i < |r2|
        ensures |r2[i]| == |w| && Dot(r2[i], w) + b2[i] == 0.0
      {
        assert (r1 + r2)[|r1| + i] == r2[i];
      }
    }
  }

  lemma PlacedSatisfied(m: Mat, col: nat, bias: Vec, w: Vec)
    requires col + m.cols <= |w| && |bias| == |m.rows|
    ensures Satisfied(PlacedRows(m, col, |w|), bias, w)
            <==> Add(MulV(m, w[col..col + m.cols]), bias) == Zeros(|bias|)
  {
    var rows, y := PlacedRows(m, col, |w|), w[col..col + m.cols];
    forall i | 0 <= i < |rows|
      ensures Dot(rows[i], w) == MulV(m, y)[i]
    {
      PlacedDot(m.rows[i], col, w);
    }
    if Add(MulV(m, y), bias) == Zeros(|bias|) {
      forall i | 0 <= i < |rows|
        ensures Dot(rows[i], w) + bias[i] == 0.0
      {
        assert Add(MulV(m, y), bias)[i] == 0.0;
      }
    }
  }

  lemma DynamicsRowsSatisfied(s: Stage, x: Vec, u: Vec, xNext: Vec)
    requires StageFits(s, |x|, |u|, |xNext|)
    ensures Add(MulV(DynamicsBlock(s, |x|, |u|, |xNext|), x + u + xNext), s.dynamics.f) == Zeros(|xNext|)
            <==> xNext == Add(Add(MulV(s.dynamics.dfdx, x), MulV(s.dynamics.dfdu, u)), s.dynamics.f)
  {
    HCatMulV(HCat(s.dynamics.dfdx, s.dynamics.dfdu), NegIdentity(|xNext|), x + u, xNext);
    HCatMulV(s.dynamics.dfdx, s.dynamics.dfdu, x, u);
    NegIdentityMulV(xNext);
    var p := Add(MulV(s.dynamics.dfdx, x), MulV(s.dynamics.dfdu, u));
    var l, r := Add(Add(p, Scale(-1.0, xNext)), s.dynamics.f), Add(p, s.dynamics.f);
    assert forall i | 0 <= i < |xNext| :: l[i] == r[i] - xNext[i];
    if l == Zeros(|xNext|) {
      assert forall i | 0 <= i < |xNext| :: l[i] == 0.0;
    }
  }

  lemma StageRowsSatisfied(s: Stage, x: Vec, u: Vec, xNext: Vec, col: nat, w: Vec)
    requires StageFits(s, |x|, |u|, |xNext|) && col + |x| + |u| + |xNext| <= |w|
    requires w[col..col + |x| + |u| + |xNext|] == x + u + xNext
    ensures Satisfied(StageRowsAt(s, |x|, |u|, |xNext|, col, |w|), s.constraints.f + s.dynamics.f, w)
            <==> StageHolds(s, x, u, xNext)
  {
    hide Satisfied, MulV, Dot;
    var c, d := ConstraintBlock(s, |x|, |u|, |xNext|), DynamicsBlock(s, |x|, |u|, |xNext|);
    SatisfiedConcat(PlacedRows(c, col, |w|), s.constraints.f, PlacedRows(d, col, |w|), s.dynamics.f, w);
    PlacedSatisfied(c, col, s.constraints.f, w);
    PlacedSatisfied(d, col, s.dynamics.f, w);
    assert w[col..col + c.cols] == w[col..col + d.cols][..c.cols] == x + u;
    if |s.constraints.f| > 0 {
      HCatMulV(s.constraints.dfdx, s.constraints.dfdu, x, u);
    }
    DynamicsRowsSatisfied(s, x, u, xNext);
  }

  lemma StageRowsHold(lqp: Problem, t: Trajectory, k: nat, w: Vec)
    requires k < |lqp| - 1 && |w| == NumDecisionVariables(lqp) && Represents(lqp, w, t)
    ensures Satisfied(StageRows(lqp, k), StageBias(lqp, k), w)
            <==> StageOfTrajectoryHolds(lqp, t, k)
  {
    ColBound(lqp, k);
    var x, u, xNext, col := t.states[k], t.inputs[k], t.states[k+1], ColAt(lqp, k);
    assert StageFitsAt(lqp, k);
    assert x == StateAt(lqp, w, k) == w[col..col + |x|];
    assert u == InputAt(lqp, w, k) == w[col + |x|..col + |x| + |u|];
    assert xNext == StateAt(lqp, w, k + 1) == w[col + |x| + |u|..col + |x| + |u| + |xNext|];
    StageRowsSatisfied(lqp[k], x, u, xNext, col, w);
  }

  lemma InitialRowsSatisfied(dx0: Vec, w: Vec)
    requires |dx0| <= |w|
    ensures Satisfied(PlacedRows(NegIdentity(|dx0|), 0, |w|), dx0, w) <==> w[..|dx0|] == dx0
  {
    var x := w[..|dx0|];
    PlacedSatisfied(NegIdentity(|x|), 0, dx0, w);
    NegIdentityMulV(x);
    var l := Add(Scale(-1.0, x), dx0);
    assert forall i | 0 <= i < |x| :: l[i] == dx0[i] - x[i];
    if l == Zeros(|x|) {
      assert forall i | 0 <= i < |x| :: l[i] == 0.0;
    }
  }

  lemma InitialRowsHold(lqp: Problem, dx0: Vec, w: Vec)
    requires |dx0| == StateDim(lqp, 0) && |w| == NumDecisionVariables(lqp)
    ensures Satisfied(RowsUpTo(lqp, 0), BiasUpTo(lqp, dx0, 0), w) <==> StateAt(lqp, w, 0) == dx0
  {
    ColBound(lqp, 0);
    InitialRowsSatisfied(dx0, w);
  }

  lemma OneMoreStage(lqp: Problem, dx0: Vec, k: nat, w: Vec)
    requires k < |lqp| - 1 && |dx0| == StateDim(lqp, 0)
    ensures Satisfied(RowsUpTo(lqp, k + 1), BiasUpTo(lqp, dx0, k + 1), w)
            <==> Satisfied(RowsUpTo(lqp, k), BiasUpTo(lqp, dx0, k), w)
                 && Satisfied(StageRows(lqp, k), StageBias(lqp, k), w)
  {
    SatisfiedConcat(RowsUpTo(lqp, k), BiasUpTo(lqp, dx0, k), StageRows(lqp, k), StageBias(lqp, k), w);
  }

  ghost predicate StageRowsSatisfiedUpTo(lqp: Problem, k: nat, w: Vec)
    requires k < |lqp|
  {
    k == 0 || (StageRowsSatisfiedUpTo(lqp, k - 1, w) && Satisfied(StageRows(lqp, k - 1), StageBias(lqp, k - 1), w))
  }

  lemma {:induction false} RowsUpToSatisfied(lqp: Problem, dx0: Vec, k: nat, w: Vec)
    requires k < |lqp| && |dx0| == StateDim(lqp, 0)
    ensures Satisfied(RowsUpTo(lqp, k), BiasUpTo(lqp, dx0, k), w)
            <==> Satisfied(RowsUpTo(lqp, 0), dx0, w) && StageRowsSatisfiedUpTo(lqp, k, w)
  {
    hide Satisfied;
    if k > 0 {
      RowsUpToSatisfied(lqp, dx0, k - 1, w);
      OneMoreStage(lqp, dx0, k - 1, w);
    }
  }

  lemma {:induction false} StageRowsMeanStages(lqp: Problem, t: Trajectory, k: nat, w: Vec)
    requires k < |lqp| && |w| == NumDecisionVariables(lqp) && Represents(lqp, w, t)
    ensures StageRowsSatisfiedUpTo(lqp, k, w) <==> StagesHoldUpTo(lqp, t, k)
  {
    hide Satisfied, StageOfTrajectoryHolds;
    if k > 0 {
      StageRowsMeanStages(lqp, t, k - 1, w);
      StageRowsHold(lqp, t, k - 1, w);
    }
  }

  lemma SatisfiedMeansZero(rows: seq<Vec>, bias: Vec, w: Vec)
    requires |rows| == |bias| && Wide(rows, |w|)
    ensures Satisfied(rows, bias, w) <==> Add(MulV(Mat(|w|, rows), w), bias) == Zeros(|bias|)
  {
    var r := Add(MulV(Mat(|w|, rows), w), bias);
    assert forall i | 0 <= i < |r| :: r[i] == Dot(rows[i], w) + bias[i];
    if r == Zeros(|r|) {
      assert forall i | 0 <= i < |r| :: r[i] == 0.0;
    }
  }

  lemma NothingToSatisfy(w: Vec)
    ensures Satisfied([], [], w)
  {
  }

  lemma FinalRowsSatisfied(lqp: Problem, x: Vec, w: Vec)
    requires |w| == NumDecisionVariables(lqp) && x == StateAt(lqp, w, |lqp| - 1)
    ensures Satisfied(FinalRows(lqp), lqp[|lqp|-1].constraints.f, w) <==> FinalHolds(lqp[|lqp|-1], x)
  {
    hide Satisfied;
    var s := lqp[|lqp|-1];
    if |s.constraints.f| == 0 {
      NothingToSatisfy(w);
    } else {
      PlacedSatisfied(s.constraints.dfdx, ColAt(lqp, |lqp| - 1), s.constraints.f, w);
    }
  }

  /** A w + b == 0 exactly when the trajectory w stands for is feasible. */
  lemma ConstraintsMeanFeasible(lqp: Problem, dx0: Vec, t: Trajectory, w: Vec)
    requires |dx0| == StateDim(lqp, 0)
    requires |w| == NumDecisionVariables(lqp) && Represents(lqp, w, t)
    ensures Add(MulV(Mat(|w|, ConstraintRows(lqp)), w), ConstraintBias(lqp, dx0)) == Zeros(NumConstraints(lqp))
            <==> Feasible(lqp, dx0, t)
  {
    var N := |lqp| - 1;
    SatisfiedMeansZero(ConstraintRows(lqp), ConstraintBias(lqp, dx0), w);
    SatisfiedConcat(RowsUpTo(lqp, N), BiasUpTo(lqp, dx0, N), FinalRows(lqp), lqp[N].constraints.f, w);
    RowsUpToSatisfied(lqp, dx0, N, w);
    InitialRowsHold(lqp, dx0, w);
    StageRowsMeanStages(lqp, t, N, w);
    FinalRowsSatisfied(lqp, t.states[N], w);
    StagesHold(lqp, t, N);
  }
}
