/** Solving the stacked problem, and why the trajectory it returns is the optimal one. */
module QpOptimality {
  import opened Vectors
  import opened Types
  import opened QpSolver
  import opened QpMeaning
  import opened DenseQp

  // ----- the stacked cost is the cost of the trajectory

  /** Polar form of the quadratic part of a stage cost. */
  function StageForm(c: QuadraticApprox, x: Vec, u: Vec, y: Vec, z: Vec): real
    requires CostFits(c, |x|, |u|) && |y| == |x| && |z| == |u|
  {
    Dot(x, MulV(c.dfdxx, y)) + Dot(x, MulV(Transpose(c.dfdux), z)) + Dot(u, MulV(c.dfdux, y)) + Dot(u, MulV(c.dfduu, z))
  }

  function FormUpTo(lqp: Problem, s: Trajectory, t: Trajectory, k: nat): real
    requires HasShape(lqp, s) && HasShape(lqp, t) && k < |lqp|
  {
    if k == 0 then 0.0 else
      assert StageFitsAt(lqp, k - 1);
      FormUpTo(lqp, s, t, k - 1)
      + StageForm(lqp[k-1].cost, s.states[k-1], s.inputs[k-1], t.states[k-1], t.inputs[k-1])
  }

  function Form(lqp: Problem, s: Trajectory, t: Trajectory): real
    requires HasShape(lqp, s) && HasShape(lqp, t)
  {
    FormUpTo(lqp, s, t, |lqp| - 1)
    + Dot(s.states[|lqp|-1], MulV(lqp[|lqp|-1].cost.dfdxx, t.states[|lqp|-1]))
  }

  /** Every stage Hessian [Q, P'; P, R] and the terminal one are symmetric and positive semidefinite. */
  ghost predicate StageConvex(lqp: Problem, k: nat)
    requires k < |lqp| - 1
  {
    assert StageFitsAt(lqp, k);
    var c := lqp[k].cost;
    && Symmetric(c.dfdxx) && Symmetric(c.dfduu)
    && forall x: Vec, u: Vec | |x| == |c.dfdx| && |u| == |c.dfdu| :: StageForm(c, x, u, x, u) >= 0.0
  }

  ghost predicate Convex(lqp: Problem) {
    && (forall k | 0 <= k < |lqp| - 1 :: StageConvex(lqp, k))
    && Symmetric(lqp[|lqp|-1].cost.dfdxx)
    && PositiveSemidefinite(lqp[|lqp|-1].cost.dfdxx)
  }

  lemma RowsConcatMulV(r1: seq<Vec>, r2: seq<Vec>, w: Vec)
    requires Wide(r1, |w|) && Wide(r2, |w|)
    ensures MulV(Mat(|w|, r1 + r2), w) == MulV(Mat(|w|, r1), w) + MulV(Mat(|w|, r2), w)
  {
  }

  lemma PlacedMulV(m: Mat, col: nat, w: Vec, y: Vec)
    requires col + m.cols <= |w| && w[col..col + m.cols] == y
    ensures MulV(Mat(|w|, PlacedRows(m, col, |w|)), w) == MulV(m, y)
  {
    forall i | 0 <= i < |m.rows|
      ensures Dot(Placed(m.rows[i], col, |w|), w) == Dot(m.rows[i], y)
    {
      PlacedDot(m.rows[i], col, w);
    }
  }

  lemma HessianForm(c: QuadraticApprox, x: Vec, u: Vec, y: Vec, z: Vec)
    requires CostFits(c, |x|, |u|) && |y| == |x| && |z| == |u|
    ensures |HessianBlock(c).rows| == |x| + |u| && HessianBlock(c).cols == |y| + |z|
    ensures Dot(x + u, MulV(HessianBlock(c), y + z)) == StageForm(c, x, u, y, z)
  {
    var top, bottom := HCat(c.dfdxx, Transpose(c.dfdux)), HCat(c.dfdux, c.dfduu);
    RowsConcatMulV(top.rows, bottom.rows, y + z);
    HCatMulV(c.dfdxx, Transpose(c.dfdux), y, z);
    HCatMulV(c.dfdux, c.dfduu, y, z);
    DotConcat(x, u, MulV(top, y + z), MulV(bottom, y + z));
    DotAdd(x, MulV(c.dfdxx, y), MulV(Transpose(c.dfdux), z));
    DotAdd(u, MulV(c.dfdux, y), MulV(c.dfduu, z));
  }

  /** The part of a decision vector that belongs to one stage. */
  lemma StageSlice(lqp: Problem, w: Vec, t: Trajectory, k: nat)
    requires k < |lqp| - 1 && |w| == NumDecisionVariables(lqp) && Represents(lqp, w, t)
    ensures ColAt(lqp, k + 1) <= |w|
    ensures w[ColAt(lqp, k)..ColAt(lqp, k + 1)] == t.states[k] + t.inputs[k]
    ensures w[..ColAt(lqp, k + 1)] == w[..ColAt(lqp, k)] + (t.states[k] + t.inputs[k])
  {
    ColBound(lqp, k);
    var col, x, u := ColAt(lqp, k), t.states[k], t.inputs[k];
    assert x == StateAt(lqp, w, k) == w[col..col + |x|];
    assert u == InputAt(lqp, w, k) == w[col + |x|..col + |x| + |u|];
    assert w[..col + |x| + |u|] == w[..col] + w[col..col + |x| + |u|];
  }

  lemma SplitAt(w: Vec, i: nat, y: Vec)
    requires i + |y| == |w| && w[i..i + |y|] == y
    ensures w == w[..i] + y
    ensures w[i..|w|] == y
  {
  }

  lemma FinalSlice(lqp: Problem, w: Vec, t: Trajectory)
    requires |w| == NumDecisionVariables(lqp) && Represents(lqp, w, t)
    ensures ColAt(lqp, |lqp| - 1) <= |w|
    ensures w[ColAt(lqp, |lqp| - 1)..|w|] == t.states[|lqp|-1]
    ensures w == w[..ColAt(lqp, |lqp| - 1)] + t.states[|lqp|-1]
  {
    var y := t.states[|lqp|-1];
    assert y == StateAt(lqp, w, |lqp| - 1);
    SplitAt(w, ColAt(lqp, |lqp| - 1), y);
  }

  /** v' H w over the cost rows of stages before k. */
  function RowsForm(lqp: Problem, v: Vec, w: Vec, k: nat): real
    requires k < |lqp| && |v| == |w| == NumDecisionVariables(lqp)
  {
    ColBound(lqp, k);
    Dot(v[..ColAt(lqp, k)], MulV(Mat(|w|, CostRowsUpTo(lqp, k)), w))
  }

  lemma NoRowsForm(lqp: Problem, v: Vec, w: Vec)
    requires |v| == |w| == NumDecisionVariables(lqp)
    ensures RowsForm(lqp, v, w, 0) == 0.0
  {
  }

  lemma {:induction false} FormOfRows(lqp: Problem, v: Vec, s: Trajectory, w: Vec, t: Trajectory, k: nat)
    requires k < |lqp| && |v| == |w| == NumDecisionVariables(lqp)
    requires Represents(lqp, v, s) && Represents(lqp, w, t)
    ensures RowsForm(lqp, v, w, k) == FormUpTo(lqp, s, t, k)
  {
    hide RowsForm, StageForm;
    if k == 0 {
      NoRowsForm(lqp, v, w);
    } else {
      FormOfRows(lqp, v, s, w, t, k - 1);
      FormOfStageRows(lqp, v, s, w, t, k - 1);
    }
  }

  lemma FormOfStageRows(lqp: Problem, v: Vec, s: Trajectory, w: Vec, t: Trajectory, k: nat)
    requires k < |lqp| - 1 && |v| == |w| == NumDecisionVariables(lqp)
    requires Represents(lqp, v, s) && Represents(lqp, w, t)
    ensures StageFitsAt(lqp, k)
    ensures RowsForm(lqp, v, w, k + 1)
            == RowsForm(lqp, v, w, k) + StageForm(lqp[k].cost, s.states[k], s.inputs[k], t.states[k], t.inputs[k])
  {
    hide StageForm, Dot;
    StageSlice(lqp, v, s, k);
    StageSlice(lqp, w, t, k);
    assert StageFitsAt(lqp, k);
    var c, col := lqp[k].cost, ColAt(lqp, k);
    var rows, more := CostRowsUpTo(lqp, k), PlacedRows(HessianBlock(c), col, |w|);
    RowsConcatMulV(rows, more, w);
    HessianForm(c, s.states[k], s.inputs[k], t.states[k], t.inputs[k]);
    PlacedMulV(HessianBlock(c), col, w, t.states[k] + t.inputs[k]);
    DotConcat(v[..col], s.states[k] + s.inputs[k], MulV(Mat(|w|, rows), w), MulV(Mat(|w|, more), w));
  }

  /** v' H w is the sum of the stage forms. */
  lemma HessianIsForm(lqp: Problem, v: Vec, s: Trajectory, w: Vec, t: Trajectory)
    requires |v| == |w| == NumDecisionVariables(lqp)
    requires Represents(lqp, v, s) && Represents(lqp, w, t)
    ensures Dot(v, MulV(Mat(|w|, CostRows(lqp)), w)) == Form(lqp, s, t)
  {
    var N := |lqp| - 1;
    var c, col := lqp[N].cost.dfdxx, ColAt(lqp, N);
    FormOfRows(lqp, v, s, w, t, N);
    FinalSlice(lqp, v, s);
    FinalSlice(lqp, w, t);
    RowsConcatMulV(CostRowsUpTo(lqp, N), PlacedRows(c, col, |w|), w);
    PlacedMulV(c, col, w, t.states[N]);
    DotConcat(v[..col], s.states[N], MulV(Mat(|w|, CostRowsUpTo(lqp, N)), w),
              MulV(Mat(|w|, PlacedRows(c, col, |w|)), w));
  }

  /** g'w over the stages before k. */
  function RowsGradient(lqp: Problem, w: Vec, k: nat): real
    requires k < |lqp| && |w| == NumDecisionVariables(lqp)
  {
    ColBound(lqp, k);
    Dot(GradientUpTo(lqp, k), w[..ColAt(lqp, k)])
  }

  lemma NoRowsGradient(lqp: Problem, w: Vec)
    requires |w| == NumDecisionVariables(lqp)
    ensures RowsGradient(lqp, w, 0) == 0.0
  {
  }

  lemma {:induction false} CostOfRows(lqp: Problem, w: Vec, t: Trajectory, k: nat)
    requires k < |lqp| && |w| == NumDecisionVariables(lqp) && Represents(lqp, w, t)
    ensures NominalCostUpTo(lqp, k) + RowsGradient(lqp, w, k) + 0.5 * FormUpTo(lqp, t, t, k) == CostUpTo(lqp, t, k)
  {
    hide RowsGradient, Dot, MulV;
    if k == 0 {
      NoRowsGradient(lqp, w);
    } else {
      CostOfRows(lqp, w, t, k - 1);
      GradientOfStage(lqp, w, t, k - 1);
      CrossTermsAgree(lqp[k-1].cost, t.states[k-1], t.inputs[k-1]);
    }
  }

  lemma GradientOfStage(lqp: Problem, w: Vec, t: Trajectory, k: nat)
    requires k < |lqp| - 1 && |w| == NumDecisionVariables(lqp) && Represents(lqp, w, t)
    ensures StageFitsAt(lqp, k)
    ensures RowsGradient(lqp, w, k + 1)
            == RowsGradient(lqp, w, k)
               + (Dot(lqp[k].cost.dfdx, t.states[k]) + Dot(lqp[k].cost.dfdu, t.inputs[k]))
  {
    StageSlice(lqp, w, t, k);
    assert StageFitsAt(lqp, k);
    var c, g, x, u := lqp[k].cost, GradientUpTo(lqp, k), t.states[k], t.inputs[k];
    assert GradientUpTo(lqp, k + 1) == g + (c.dfdx + c.dfdu);
    DotConcat(g, c.dfdx + c.dfdu, w[..ColAt(lqp, k)], x + u);
    DotConcat(c.dfdx, c.dfdu, x, u);
  }

  lemma CrossTermsAgree(c: QuadraticApprox, x: Vec, u: Vec)
    requires CostFits(c, |x|, |u|)
    ensures Dot(x, MulV(Transpose(c.dfdux), u)) == Dot(u, MulV(c.dfdux, x))
  {
    MoveAcross(u, c.dfdux, x);
    DotCommutes(x, MulV(Transpose(c.dfdux), u));
  }

  /** c + g'w + w'Hw/2 is the summed stage cost of the trajectory w stands for. */
  lemma StackedCostIsTrajectoryCost(lqp: Problem, w: Vec, t: Trajectory)
    requires |w| == NumDecisionVariables(lqp) && Represents(lqp, w, t)
    ensures NominalCostUpTo(lqp, |lqp|) + Dot(CostGradient(lqp), w)
            + 0.5 * Dot(w, MulV(Mat(|w|, CostRows(lqp)), w)) == TrajectoryCost(lqp, t)
  {
    hide RowsGradient, Dot, MulV;
    CostOfRows(lqp, w, t, |lqp| - 1);
    HessianIsForm(lqp, w, t, w, t);
    GradientOfFinal(lqp, w, t);
  }

  lemma GradientOfFinal(lqp: Problem, w: Vec, t: Trajectory)
    requires |w| == NumDecisionVariables(lqp) && Represents(lqp, w, t)
    ensures Dot(CostGradient(lqp), w)
            == RowsGradient(lqp, w, |lqp| - 1) + Dot(lqp[|lqp|-1].cost.dfdx, t.states[|lqp|-1])
  {
    var N := |lqp| - 1;
    FinalSlice(lqp, w, t);
    DotConcat(GradientUpTo(lqp, N), lqp[N].cost.dfdx, w[..ColAt(lqp, N)], t.states[N]);
  }

  // ----- convexity carries over to the stack

  lemma StageFormSymmetric(c: QuadraticApprox, x: Vec, u: Vec, y: Vec, z: Vec)
    requires CostFits(c, |x|, |u|) && |y| == |x| && |z| == |u|
    requires Symmetric(c.dfdxx) && Symmetric(c.dfduu)
    ensures StageForm(c, x, u, y, z) == StageForm(c, y, z, x, u)
  {
    SymmetricForm(c.dfdxx, x, y);
    SymmetricForm(c.dfduu, u, z);
    MoveAcross(z, c.dfdux, x);
    DotCommutes(x, MulV(Transpose(c.dfdux), z));
    MoveAcross(u, c.dfdux, y);
    DotCommutes(y, MulV(Transpose(c.dfdux), u));
  }

  lemma {:induction false} FormUpToConvex(lqp: Problem, s: Trajectory, t: Trajectory, k: nat)
    requires Convex(lqp) && HasShape(lqp, s) && HasShape(lqp, t) && k < |lqp|
    ensures FormUpTo(lqp, s, t, k) == FormUpTo(lqp, t, s, k)
    ensures FormUpTo(lqp, t, t, k) >= 0.0
  {
    hide StageForm;
    if k > 0 {
      FormUpToConvex(lqp, s, t, k - 1);
      assert StageConvex(lqp, k - 1) && StageFitsAt(lqp, k - 1);
      StageFormSymmetric(lqp[k-1].cost, s.states[k-1], s.inputs[k-1], t.states[k-1], t.inputs[k-1]);
      assert StageForm(lqp[k-1].cost, t.states[k-1], t.inputs[k-1], t.states[k-1], t.inputs[k-1]) >= 0.0;
    }
  }

  lemma FormConvex(lqp: Problem, s: Trajectory, t: Trajectory)
    requires Convex(lqp) && HasShape(lqp, s) && HasShape(lqp, t)
    ensures Form(lqp, s, t) == Form(lqp, t, s)
    ensures Form(lqp, t, t) >= 0.0
  {
    hide FormUpTo;
    FormUpToConvex(lqp, s, t, |lqp| - 1);
    SymmetricForm(lqp[|lqp|-1].cost.dfdxx, s.states[|lqp|-1], t.states[|lqp|-1]);
  }

  lemma StackConvex(lqp: Problem)
    requires Convex(lqp)
    ensures Symmetric(Mat(NumDecisionVariables(lqp), CostRows(lqp)))
    ensures PositiveSemidefinite(Mat(NumDecisionVariables(lqp), CostRows(lqp)))
  {
    hide MulV, Dot, Form, CostRows;
    var h := Mat(NumDecisionVariables(lqp), CostRows(lqp));
    forall u: Vec, v: Vec | |u| == h.cols && |v| == h.cols
      ensures Dot(u, MulV(h, v)) == Dot(v, MulV(h, u)) && Dot(v, MulV(h, v)) >= 0.0
    {
      HessianIsForm(lqp, u, Unpack(lqp, u), v, Unpack(lqp, v));
      HessianIsForm(lqp, v, Unpack(lqp, v), u, Unpack(lqp, u));
      HessianIsForm(lqp, v, Unpack(lqp, v), v, Unpack(lqp, v));
      FormConvex(lqp, Unpack(lqp, u), Unpack(lqp, v));
    }
    SymmetricByForm(h);
  }

  // ----- the main result

  ghost function StackedKkt(lqp: Problem): Mat {
    KktMatrix(Mat(NumDecisionVariables(lqp), CostRows(lqp)), Mat(NumDecisionVariables(lqp), ConstraintRows(lqp)))
  }

  /** t is feasible and, when the problem is convex, cheaper than every other feasible trajectory. */
  ghost predicate Solves(lqp: Problem, dx0: Vec, t: Trajectory) {
    && HasShape(lqp, t) && Feasible(lqp, dx0, t)
    && (Convex(lqp) ==> forall s: Trajectory | HasShape(lqp, s) && Feasible(lqp, dx0, s) && s != t ::
          TrajectoryCost(lqp, t) < TrajectoryCost(lqp, s))
  }

  /**
   * w is feasible for the stacked constraints and stationary with multipliers lambda, and the KKT matrix is
   * nonsingular.
   */
  ghost predicate KktPoint(lqp: Problem, dx0: Vec, w: Vec, lambda: Vec) {
    && |dx0| == StateDim(lqp, 0) && |w| == NumDecisionVariables(lqp)
    && Nonsingular(StackedKkt(lqp))
    && Meets(Mat(|w|, ConstraintRows(lqp)), ConstraintBias(lqp, dx0), w)
    && Stationary(Mat(|w|, CostRows(lqp)), CostGradient(lqp), Mat(|w|, ConstraintRows(lqp)), w, lambda)
  }

  lemma CheaperThan(lqp: Problem, dx0: Vec, w: Vec, lambda: Vec, s: Trajectory)
    requires Convex(lqp) && KktPoint(lqp, dx0, w, lambda)
    requires HasShape(lqp, s) && Feasible(lqp, dx0, s) && s != Unpack(lqp, w)
    ensures TrajectoryCost(lqp, Unpack(lqp, w)) < TrajectoryCost(lqp, s)
  {
    hide MulV, Dot, CostRows, ConstraintRows, CostGradient, ConstraintBias, TrajectoryCost, Feasible, Stationary,
        Nonsingular,
         Pack, Convex, KktMatrix, PositiveSemidefinite, Symmetric;
    var v := Pack(lqp, s);
    PackRepresents(lqp, s);
    UnpackPack(lqp, s);
    ConstraintsMeanFeasible(lqp, dx0, s, v);
    StackConvex(lqp);
    StationaryIsStrictOptimum(Mat(|w|, CostRows(lqp)), CostGradient(lqp), Mat(|w|, ConstraintRows(lqp)),
                              ConstraintBias(lqp, dx0), w, lambda, v);
    StackedCostIsTrajectoryCost(lqp, w, Unpack(lqp, w));
    StackedCostIsTrajectoryCost(lqp, v, s);
  }

  lemma KktPointSolves(lqp: Problem, dx0: Vec, w: Vec, lambda: Vec)
    requires KktPoint(lqp, dx0, w, lambda)
    ensures Solves(lqp, dx0, Unpack(lqp, w))
  {
    hide MulV, Dot, CostRows, ConstraintRows, CostGradient, ConstraintBias, TrajectoryCost, Feasible, Stationary,
        Nonsingular;
    ConstraintsMeanFeasible(lqp, dx0, Unpack(lqp, w), w);
    if Convex(lqp) {
      forall s: Trajectory | HasShape(lqp, s) && Feasible(lqp, dx0, s) && s != Unpack(lqp, w)
        ensures TrajectoryCost(lqp, Unpack(lqp, w)) < TrajectoryCost(lqp, s)
      {
        CheaperThan(lqp, dx0, w, lambda, s);
      }
    }
  }

  // ----- the solver

  function SumTo(s: seq<nat>, k: nat): nat
    requires k <= |s|
  {
    if k == 0 then 0 else SumTo(s, k - 1) + s[k-1]
  }

  function Sum(s: seq<nat>): nat {
    SumTo(s, |s|)
  }

  /** Dimensions of every stage. With a single stage the program reads a stage before the first one. */
  method GetNumStatesInputsConstraints(lqp: seq<Stage>)
    returns (numStates: seq<nat>, numInputs: seq<nat>, numConstraints: seq<nat>)
    requires |lqp| != 1
    ensures |numStates| == |numConstraints| == |lqp| && |numInputs| == if lqp == [] then 0 else |lqp| - 1
    ensures forall k | 0 <= k < |lqp| :: numStates[k] == StateDim(lqp, k) && numConstraints[k] == ConstraintDim(lqp, k)
    ensures forall k | 0 <= k < |lqp| - 1 :: numInputs[k] == InputDim(lqp, k)
  {
    numStates, numInputs, numConstraints := [], [], [];
    if lqp == [] {
      return;
    }
    var N := |lqp| - 1;
    for k := 0 to N
      invariant |numStates| == |numInputs| == |numConstraints| == k
      invariant forall l | 0 <= l < k ::
                  numStates[l] == StateDim(lqp, l) && numInputs[l] == InputDim(lqp, l)
                  && numConstraints[l] == ConstraintDim(lqp, l)
    {
      numStates := numStates + [lqp[k].dynamics.dfdx.cols];
      numInputs := numInputs + [lqp[k].dynamics.dfdu.cols];
      numConstraints := numConstraints + [|lqp[k].constraints.f|];
    }
    numStates := numStates + [|lqp[N-1].dynamics.dfdx.rows|];
    numConstraints := numConstraints + [|lqp[N].constraints.f|];
  }

  lemma {:induction false} PartialSums(lqp: Problem, xs: seq<nat>, us: seq<nat>, cs: seq<nat>, k: nat)
    requires k < |lqp| == |xs| == |cs| == |us| + 1
    requires forall l | 0 <= l < |lqp| :: xs[l] == StateDim(lqp, l) && cs[l] == ConstraintDim(lqp, l)
    requires forall l | 0 <= l < |lqp| - 1 :: us[l] == InputDim(lqp, l)
    ensures SumTo(xs, k) + SumTo(us, k) == ColAt(lqp, k)
    ensures SumTo(xs, k + 1) + SumTo(cs, k) == RowAt(lqp, k)
  {
    if k > 0 {
      PartialSums(lqp, xs, us, cs, k - 1);
    }
  }

  /** Cuts the decision vector back into states and inputs. */
  method GetStateAndInputTrajectory(lqp: Problem, numStates: seq<nat>, numInputs: seq<nat>, w: Vec)
    returns (t: Trajectory)
    requires |numStates| == |lqp| == |numInputs| + 1 && |w| == NumDecisionVariables(lqp)
    requires forall k | 0 <= k < |lqp| :: numStates[k] == StateDim(lqp, k)
    requires forall k | 0 <= k < |lqp| - 1 :: numInputs[k] == InputDim(lqp, k)
    ensures t == Unpack(lqp, w)
  {
    var states, inputs, index := [], [], 0;
    var N := |numInputs|;
    for k := 0 to N
      invariant index == ColAt(lqp, k)
      invariant |states| == |inputs| == k
      invariant forall l | 0 <= l < k :: states[l] == StateAt(lqp, w, l) && inputs[l] == InputAt(lqp, w, l)
    {
      ColBound(lqp, k);
      states := states + [w[index..index + numStates[k]]];
      index := index + numStates[k];
      inputs := inputs + [w[index..index + numInputs[k]]];
      index := index + numInputs[k];
    }
    states := states + [w[index..index + numStates[N]]];
    assert states == Unpack(lqp, w).states;
    assert inputs == Unpack(lqp, w).inputs;
    t := Trajectory(states, inputs);
  }

  /** End to end: fails exactly on a singular KKT matrix, and otherwise returns the solution of the control problem. */
  method SolveLinearQuadraticProblem(lqp: Problem, dx0: Vec, solve: LinearSolver) returns (r: Result<Trajectory>)
    requires 2 <= |lqp| && |dx0| == StateDim(lqp, 0) && SolvesLinearSystems(solve)
    ensures r.Ok? <==> Nonsingular(StackedKkt(lqp))
    ensures r.Ok? ==> Solves(lqp, dx0, r.value)
  {
    hide MulV, Dot, CostRows, ConstraintRows, CostGradient, ConstraintBias, Stationary, Nonsingular, Solves, Meets;
    var numStates, numInputs, numConstraints := GetNumStatesInputsConstraints(lqp);
    var n := Sum(numStates) + Sum(numInputs);
    var m := Sum(numStates) + Sum(numConstraints);
    PartialSums(lqp, numStates, numInputs, numConstraints, |lqp| - 1);
    var constraints := GetConstraintMatrices(lqp, dx0, m, n);
    var cost := GetCostMatrices(lqp, n);
    var solution := SolveDenseQp(cost, constraints, solve);
    match solution
    case Err(message) => r := Err(message);
    case Ok((w, lambda)) =>
      KktPointSolves(lqp, dx0, w, lambda);
      var t := GetStateAndInputTrajectory(lqp, numStates, numInputs, w);
      r := Ok(t);
  }
}
