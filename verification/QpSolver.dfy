/** Dense solution of a discretised linear-quadratic optimal control problem. */
module QpSolver {
  import opened Vectors
  import opened Types

  datatype Stage = Stage(cost: QuadraticApprox, dynamics: LinearApprox, constraints: LinearApprox)

  datatype Trajectory = Trajectory(states: seq<Vec>, inputs: seq<Vec>)

  // ----- dimensions

  /** The last state has the dimension the dynamics lead to; that of a single stage is read off its cost. */
  function StateDim(lqp: seq<Stage>, k: nat): nat
    requires k < |lqp|
  {
    if k < |lqp| - 1 then lqp[k].dynamics.dfdx.cols
    else if k > 0 then |lqp[k-1].dynamics.dfdx.rows|
    else |lqp[k].cost.dfdx|
  }

  function InputDim(lqp: seq<Stage>, k: nat): nat
    requires k < |lqp|
  {
    lqp[k].dynamics.dfdu.cols
  }

  function ConstraintDim(lqp: seq<Stage>, k: nat): nat
    requires k < |lqp|
  {
    |lqp[k].constraints.f|
  }

  /** Position of x[k] in the decision vector [x[0]; u[0]; x[1]; ...; x[N]]. */
  function ColAt(lqp: seq<Stage>, k: nat): nat
    requires k < |lqp|
  {
    if k == 0 then 0 else ColAt(lqp, k - 1) + StateDim(lqp, k - 1) + InputDim(lqp, k - 1)
  }

  /** First constraint row of stage k. */
  function RowAt(lqp: seq<Stage>, k: nat): nat
    requires k < |lqp|
  {
    if k == 0 then StateDim(lqp, 0) else RowAt(lqp, k - 1) + ConstraintDim(lqp, k - 1) + StateDim(lqp, k)
  }

  function NumDecisionVariables(lqp: seq<Stage>): nat
    requires lqp != []
  {
    ColAt(lqp, |lqp| - 1) + StateDim(lqp, |lqp| - 1)
  }

  function NumConstraints(lqp: seq<Stage>): nat
    requires lqp != []
  {
    RowAt(lqp, |lqp| - 1) + ConstraintDim(lqp, |lqp| - 1)
  }

  ghost predicate StageFits(s: Stage, nx: nat, nu: nat, nxNext: nat) {
    && CostFits(s.cost, nx, nu)
    && s.dynamics.dfdx.cols == nx && |s.dynamics.dfdx.rows| == nxNext
    && s.dynamics.dfdu.cols == nu && |s.dynamics.dfdu.rows| == nxNext
    && |s.dynamics.f| == nxNext
    && (|s.constraints.f| > 0 ==>
          && s.constraints.dfdx.cols == nx && |s.constraints.dfdx.rows| == |s.constraints.f|
          && s.constraints.dfdu.cols == nu && |s.constraints.dfdu.rows| == |s.constraints.f|)
  }

  ghost predicate FinalFits(s: Stage, nx: nat) {
    && s.cost.dfdxx.cols == |s.cost.dfdxx.rows| == nx && |s.cost.dfdx| == nx
    && (|s.constraints.f| > 0 ==>
          s.constraints.dfdx.cols == nx && |s.constraints.dfdx.rows| == |s.constraints.f|)
  }

  ghost predicate StageFitsAt(lqp: seq<Stage>, k: nat)
    requires k < |lqp| - 1
  {
    StageFits(lqp[k], StateDim(lqp, k), InputDim(lqp, k), StateDim(lqp, k + 1))
  }

  /** At least the final stage, and matching dimensions along the horizon. */
  ghost predicate WellFormed(lqp: seq<Stage>) {
    && lqp != []
    && (forall k {:trigger StageFitsAt(lqp, k)} | 0 <= k < |lqp| - 1 :: StageFitsAt(lqp, k))
    && FinalFits(lqp[|lqp|-1], StateDim(lqp, |lqp| - 1))
  }

  const NO_CONSTRAINTS: LinearApprox := LinearApprox([], Mat(0, []), Mat(0, []))
  const NO_COST: QuadraticApprox := QuadraticApprox(0.0, [], [], Mat(0, []), Mat(0, []), Mat(0, []))
  const EMPTY_STAGE: Stage := Stage(NO_COST, NO_CONSTRAINTS, NO_CONSTRAINTS)

  type Problem = lqp: seq<Stage> | WellFormed(lqp) witness [EMPTY_STAGE]

  // ----- block matrices

  function HCat(a: Mat, b: Mat): (r: Mat)
    requires |a.rows| == |b.rows|
  {
    Mat(a.cols + b.cols, seq(|a.rows|, i requires 0 <= i < |a.rows| => a.rows[i] + b.rows[i]))
  }

  function VCat(a: Mat, b: Mat): (r: Mat)
    requires a.cols == b.cols
  {
    Mat(a.cols, a.rows + b.rows)
  }

  /** A row of length n that is zero outside the given segment. */
  function Placed(row: Vec, col: nat, n: nat): (r: Vec)
    requires col + |row| <= n
  {
    Zeros(col) + row + Zeros(n - col - |row|)
  }

  function PlacedRows(m: Mat, col: nat, n: nat): (r: seq<Vec>)
    requires col + m.cols <= n
  {
    seq(|m.rows|, i requires 0 <= i < |m.rows| => Placed(m.rows[i], col, n))
  }

  function NegIdentity(n: nat): Mat {
    MScale(-1.0, Identity(n))
  }

  // ----- what the constraint matrix should hold

  /** The [C, D] block; absent without constraints. */
  function ConstraintBlock(s: Stage, nx: nat, nu: nat, nxNext: nat): (r: Mat)
    requires StageFits(s, nx, nu, nxNext)
    ensures |r.rows| == |s.constraints.f|
    ensures r.cols == nx + nu
  {
    if |s.constraints.f| > 0 then HCat(s.constraints.dfdx, s.constraints.dfdu) else Mat(nx + nu, [])
  }

  /** The [A, B, -I] block. */
  function DynamicsBlock(s: Stage, nx: nat, nu: nat, nxNext: nat): (r: Mat)
    requires StageFits(s, nx, nu, nxNext)
  {
    HCat(HCat(s.dynamics.dfdx, s.dynamics.dfdu), NegIdentity(nxNext))
  }

  lemma {:induction false} ColBound(lqp: Problem, k: nat)
    requires k < |lqp|
    ensures ColAt(lqp, k) + StateDim(lqp, k) <= NumDecisionVariables(lqp)
    ensures k < |lqp| - 1 ==>
              ColAt(lqp, k) + StateDim(lqp, k) + InputDim(lqp, k) + StateDim(lqp, k + 1) <= NumDecisionVariables(lqp)
    decreases |lqp| - k
  {
    if k < |lqp| - 1 {
      ColBound(lqp, k + 1);
    }
  }

  lemma {:induction false} RowBound(lqp: Problem, k: nat)
    requires k < |lqp|
    ensures RowAt(lqp, k) + ConstraintDim(lqp, k) <= NumConstraints(lqp)
    ensures k < |lqp| - 1 ==> RowAt(lqp, k) + ConstraintDim(lqp, k) + StateDim(lqp, k + 1) <= NumConstraints(lqp)
    decreases |lqp| - k
  {
    if k < |lqp| - 1 {
      RowBound(lqp, k + 1);
    }
  }

  ghost predicate Wide(rows: seq<Vec>, n: nat) {
    forall i | 0 <= i < |rows| :: |rows[i]| == n
  }

  function StageRowsAt(s: Stage, nx: nat, nu: nat, nxNext: nat, col: nat, n: nat): (r: seq<Vec>)
    requires StageFits(s, nx, nu, nxNext) && col + nx + nu + nxNext <= n
    ensures |r| == |s.constraints.f| + nxNext && Wide(r, n)
  {
    PlacedRows(ConstraintBlock(s, nx, nu, nxNext), col, n) + PlacedRows(DynamicsBlock(s, nx, nu, nxNext), col, n)
  }

  function StageRows(lqp: Problem, k: nat): (r: seq<Vec>)
    requires k < |lqp| - 1
    ensures |r| == ConstraintDim(lqp, k) + StateDim(lqp, k + 1) && Wide(r, NumDecisionVariables(lqp))
  {
    ColBound(lqp, k);
    assert StageFitsAt(lqp, k);
    StageRowsAt(lqp[k], StateDim(lqp, k), InputDim(lqp, k), StateDim(lqp, k + 1), ColAt(lqp, k),
                NumDecisionVariables(lqp))
  }

  /** Initial-state rows and the rows of stages before k. */
  function RowsUpTo(lqp: Problem, k: nat): (r: seq<Vec>)
    requires k < |lqp|
    ensures |r| == RowAt(lqp, k) && Wide(r, NumDecisionVariables(lqp))
  {
    if k == 0 then
      ColBound(lqp, 0);
      PlacedRows(NegIdentity(StateDim(lqp, 0)), 0, NumDecisionVariables(lqp))
    else
      RowsUpTo(lqp, k - 1) + StageRows(lqp, k - 1)
  }

  function FinalRows(lqp: Problem): (r: seq<Vec>)
    ensures |r| == ConstraintDim(lqp, |lqp| - 1) && Wide(r, NumDecisionVariables(lqp))
  {
    var s := lqp[|lqp|-1];
    if |s.constraints.f| > 0 then
      PlacedRows(s.constraints.dfdx, ColAt(lqp, |lqp| - 1), NumDecisionVariables(lqp))
    else []
  }

  function ConstraintRows(lqp: Problem): (r: seq<Vec>)
    ensures |r| == NumConstraints(lqp) && Wide(r, NumDecisionVariables(lqp))
  {
    RowsUpTo(lqp, |lqp| - 1) + FinalRows(lqp)
  }

  function StageBias(lqp: Problem, k: nat): (r: Vec)
    requires k < |lqp| - 1
    ensures |r| == ConstraintDim(lqp, k) + StateDim(lqp, k + 1)
  {
    assert StageFitsAt(lqp, k);
    lqp[k].constraints.f + lqp[k].dynamics.f
  }

  function BiasUpTo(lqp: Problem, dx0: Vec, k: nat): (r: Vec)
    requires k < |lqp| && |dx0| == StateDim(lqp, 0)
    ensures |r| == RowAt(lqp, k)
  {
    if k == 0 then dx0 else BiasUpTo(lqp, dx0, k - 1) + StageBias(lqp, k - 1)
  }

  function ConstraintBias(lqp: Problem, dx0: Vec): (r: Vec)
    requires |dx0| == StateDim(lqp, 0)
    ensures |r| == NumConstraints(lqp)
  {
    BiasUpTo(lqp, dx0, |lqp| - 1) + lqp[|lqp|-1].constraints.f
  }

  // ----- what the cost matrix should hold

  /** [Q, P'; P, R]. */
  function HessianBlock(cost: QuadraticApprox): (r: Mat)
    requires CostFits(cost, cost.dfdux.cols, |cost.dfdux.rows|)
  {
    VCat(HCat(cost.dfdxx, Transpose(cost.dfdux)), HCat(cost.dfdux, cost.dfduu))
  }

  function CostRowsUpTo(lqp: Problem, k: nat): (r: seq<Vec>)
    requires k < |lqp|
    ensures |r| == ColAt(lqp, k) && Wide(r, NumDecisionVariables(lqp))
  {
    if k == 0 then [] else
      ColBound(lqp, k - 1);
      assert StageFitsAt(lqp, k - 1);
      CostRowsUpTo(lqp, k - 1)
      + PlacedRows(HessianBlock(lqp[k-1].cost), ColAt(lqp, k - 1), NumDecisionVariables(lqp))
  }

  function CostRows(lqp: Problem): (r: seq<Vec>)
    ensures |r| == NumDecisionVariables(lqp) && Wide(r, |r|)
  {
    CostRowsUpTo(lqp, |lqp| - 1)
    + PlacedRows(lqp[|lqp|-1].cost.dfdxx, ColAt(lqp, |lqp| - 1), NumDecisionVariables(lqp))
  }

  function GradientUpTo(lqp: Problem, k: nat): (r: Vec)
    requires k < |lqp|
    ensures |r| == ColAt(lqp, k)
  {
    if k == 0 then [] else
      assert StageFitsAt(lqp, k - 1);
      GradientUpTo(lqp, k - 1) + lqp[k-1].cost.dfdx + lqp[k-1].cost.dfdu
  }

  function CostGradient(lqp: Problem): (r: Vec)
    ensures |r| == NumDecisionVariables(lqp)
  {
    GradientUpTo(lqp, |lqp| - 1) + lqp[|lqp|-1].cost.dfdx
  }

  function NominalCostUpTo(lqp: Problem, k: nat): real
    requires k <= |lqp|
  {
    if k == 0 then 0.0 else NominalCostUpTo(lqp, k - 1) + lqp[k-1].cost.f
  }

  // ----- filling the preallocated buffers

  /** The first |rows| rows of the buffer are the given ones, the rest is zero. */
  ghost predicate Holds(a: array2<real>, rows: seq<Vec>)
    reads a
  {
    && |rows| <= a.Length0
    && (forall i | 0 <= i < |rows| :: |rows[i]| == a.Length1)
    && (forall i, j | 0 <= i < |rows| && 0 <= j < a.Length1 :: a[i, j] == rows[i][j])
    && (forall i, j | |rows| <= i < a.Length0 && 0 <= j < a.Length1 :: a[i, j] == 0.0)
  }

  method WriteBlock(a: array2<real>, row: nat, col: nat, block: Mat)
    requires row + |block.rows| <= a.Length0 && col + block.cols <= a.Length1
    modifies a
    ensures forall i, j | 0 <= i < a.Length0 && 0 <= j < a.Length1 ::
              a[i, j] == if row <= i < row + |block.rows| && col <= j < col + block.cols
                         then block.rows[i - row][j - col] else old(a[i, j])
  {
    forall i, j | row <= i < row + |block.rows| && col <= j < col + block.cols {
      a[i, j] := block.rows[i - row][j - col];
    }
  }

  /** Writes a block just below the rows filled so far. */
  method AppendBlock(a: array2<real>, row: nat, col: nat, block: Mat, ghost rows: seq<Vec>)
    requires Holds(a, rows) && row == |rows|
    requires row + |block.rows| <= a.Length0 && col + block.cols <= a.Length1
    modifies a
    ensures Holds(a, rows + PlacedRows(block, col, a.Length1))
  {
    WriteBlock(a, row, col, block);
    ghost var more := PlacedRows(block, col, a.Length1);
    forall i, j | 0 <= i < |rows + more| && 0 <= j < a.Length1
      ensures a[i, j] == (rows + more)[i][j]
    {
      if i >= row {
        assert (rows + more)[i] == more[i - row];
      }
    }
  }

  method AppendSegment(b: array<real>, row: nat, segment: Vec, ghost filled: Vec)
    requires row == |filled| && row + |segment| <= b.Length
    requires b[..] == filled + Zeros(b.Length - |filled|)
    modifies b
    ensures b[..] == filled + segment + Zeros(b.Length - |filled| - |segment|)
  {
    forall i | row <= i < row + |segment| {
      b[i] := segment[i - row];
    }
  }

  lemma ContentsAre(a: array2<real>, rows: seq<Vec>)
    requires Holds(a, rows) && |rows| == a.Length0
    ensures Contents(a).rows == rows
  {
    forall i | 0 <= i < |rows|
      ensures Contents(a).rows[i] == rows[i]
    {
    }
  }

  /** Appends [C, D] and e, when there are constraints. */
  method AppendConstraints(s: Stage, ghost nx: nat, ghost nu: nat, ghost nxNext: nat, currRow: nat, currCol: nat,
                           A: array2<real>, b: array<real>, ghost rows: seq<Vec>, ghost bias: Vec)
    returns (nextRow: nat)
    requires StageFits(s, nx, nu, nxNext)
    requires A.Length0 == b.Length && currRow + |s.constraints.f| <= b.Length && currCol + nx + nu <= A.Length1
    requires Holds(A, rows) && currRow == |rows| == |bias|
    requires b[..] == bias + Zeros(b.Length - currRow)
    modifies A, b
    ensures nextRow == currRow + |s.constraints.f|
    ensures Holds(A, rows + PlacedRows(ConstraintBlock(s, nx, nu, nxNext), currCol, A.Length1))
    ensures b[..] == bias + s.constraints.f + Zeros(b.Length - nextRow)
  {
    nextRow := currRow;
    if |s.constraints.f| > 0 {
      AppendBlock(A, nextRow, currCol, HCat(s.constraints.dfdx, s.constraints.dfdu), rows);
      AppendSegment(b, nextRow, s.constraints.f, bias);
      nextRow := nextRow + |s.constraints.f|;
    } else {
      assert rows + PlacedRows(ConstraintBlock(s, nx, nu, nxNext), currCol, A.Length1) == rows;
      assert bias + s.constraints.f == bias;
    }
  }

  lemma Regroup<T>(a: seq<T>, b: seq<T>, c: seq<T>)
    ensures a + b + c == a + (b + c)
  {
  }

  /** One pass of the loop over stages: appends [C, D] when present, then [A, B, -I]. */
  method AppendStage(lqp: Problem, ghost dx0: Vec, k: nat, currRow: nat, currCol: nat, A: array2<real>, b: array<real>)
    returns (nextRow: nat, nextCol: nat)
    requires k < |lqp| - 1 && |dx0| == StateDim(lqp, 0)
    requires A.Length0 == b.Length == NumConstraints(lqp) && A.Length1 == NumDecisionVariables(lqp)
    requires currRow == RowAt(lqp, k) && currCol == ColAt(lqp, k) && currRow <= b.Length
    requires Holds(A, RowsUpTo(lqp, k))
    requires b[..] == BiasUpTo(lqp, dx0, k) + Zeros(b.Length - currRow)
    modifies A, b
    ensures nextRow == RowAt(lqp, k + 1) <= b.Length && nextCol == ColAt(lqp, k + 1)
    ensures Holds(A, RowsUpTo(lqp, k + 1))
    ensures b[..] == BiasUpTo(lqp, dx0, k + 1) + Zeros(b.Length - nextRow)
  {
    ColBound(lqp, k);
    RowBound(lqp, k);
    assert StageFitsAt(lqp, k);
    var dynamics := lqp[k].dynamics;
    var nu, nx, nxNext := dynamics.dfdu.cols, dynamics.dfdx.cols, |dynamics.dfdx.rows|;
    ghost var rows, bias := RowsUpTo(lqp, k), BiasUpTo(lqp, dx0, k);
    nextRow := AppendConstraints(lqp[k], nx, nu, nxNext, currRow, currCol, A, b, rows, bias);
    ghost var cRows := PlacedRows(ConstraintBlock(lqp[k], nx, nu, nxNext), currCol, A.Length1);
    ghost var dRows := PlacedRows(DynamicsBlock(lqp[k], nx, nu, nxNext), currCol, A.Length1);
    AppendBlock(A, nextRow, currCol, HCat(HCat(dynamics.dfdx, dynamics.dfdu), NegIdentity(nxNext)), rows + cRows);
    AppendSegment(b, nextRow, dynamics.f, bias + lqp[k].constraints.f);
    Regroup(rows, cRows, dRows);
    Regroup(bias, lqp[k].constraints.f, dynamics.f);
    nextRow := nextRow + nxNext;
    nextCol := currCol + nx + nu;
  }

  /** Initial-state rows: -I, with bias dx0. */
  method AppendInitial(lqp: Problem, dx0: Vec, A: array2<real>, b: array<real>)
    requires |dx0| == StateDim(lqp, 0)
    requires A.Length0 == b.Length == NumConstraints(lqp) && A.Length1 == NumDecisionVariables(lqp)
    requires Holds(A, []) && b[..] == Zeros(b.Length)
    modifies A, b
    ensures Holds(A, RowsUpTo(lqp, 0))
    ensures RowAt(lqp, 0) <= b.Length && b[..] == BiasUpTo(lqp, dx0, 0) + Zeros(b.Length - RowAt(lqp, 0))
  {
    ColBound(lqp, 0);
    RowBound(lqp, 0);
    assert [] + Zeros(b.Length) == Zeros(b.Length);
    AppendBlock(A, 0, 0, NegIdentity(|dx0|), []);
    AppendSegment(b, 0, dx0, []);
    assert [] + PlacedRows(NegIdentity(|dx0|), 0, A.Length1) == RowsUpTo(lqp, 0);
    assert [] + dx0 == dx0;
  }

  /** Final-state constraints in the bottom right corner. */
  method AppendFinal(lqp: Problem, ghost dx0: Vec, A: array2<real>, b: array<real>)
    requires |dx0| == StateDim(lqp, 0)
    requires A.Length0 == b.Length == NumConstraints(lqp) && A.Length1 == NumDecisionVariables(lqp)
    requires Holds(A, RowsUpTo(lqp, |lqp| - 1))
    requires b[..] == BiasUpTo(lqp, dx0, |lqp| - 1) + Zeros(b.Length - RowAt(lqp, |lqp| - 1))
    modifies A, b
    ensures Holds(A, ConstraintRows(lqp))
    ensures b[..] == ConstraintBias(lqp, dx0)
  {
    var N := |lqp| - 1;
    var constraints := lqp[N].constraints;
    var nc := |constraints.f|;
    if nc > 0 {
      AppendBlock(A, A.Length0 - nc, A.Length1 - constraints.dfdx.cols, constraints.dfdx, RowsUpTo(lqp, N));
      AppendSegment(b, b.Length - nc, constraints.f, BiasUpTo(lqp, dx0, N));
    } else {
      assert RowsUpTo(lqp, N) + FinalRows(lqp) == RowsUpTo(lqp, N);
      assert BiasUpTo(lqp, dx0, N) + constraints.f == BiasUpTo(lqp, dx0, N);
    }
  }

  /** The constraints of the stacked problem; an empty problem has none. */
  method GetConstraintMatrices(lqp: seq<Stage>, dx0: Vec, numConstraints: nat, numDecisionVariables: nat)
    returns (constraints: LinearApprox)
    requires lqp != [] ==> WellFormed(lqp) && |dx0| == StateDim(lqp, 0)
    requires lqp != [] ==> numConstraints == NumConstraints(lqp) && numDecisionVariables == NumDecisionVariables(lqp)
    ensures lqp == [] ==> constraints == NO_CONSTRAINTS
    ensures lqp != [] ==> constraints.dfdx == Mat(numDecisionVariables, ConstraintRows(lqp))
    ensures lqp != [] ==> constraints.f == ConstraintBias(lqp, dx0)
  {
    if lqp == [] {
      return NO_CONSTRAINTS;
    }
    constraints := FillConstraintMatrices(lqp, dx0, numConstraints, numDecisionVariables);
  }

  method FillConstraintMatrices(lqp: Problem, dx0: Vec, numConstraints: nat, numDecisionVariables: nat)
    returns (constraints: LinearApprox)
    requires |dx0| == StateDim(lqp, 0)
    requires numConstraints == NumConstraints(lqp) && numDecisionVariables == NumDecisionVariables(lqp)
    ensures constraints.dfdx == Mat(numDecisionVariables, ConstraintRows(lqp))
    ensures constraints.f == ConstraintBias(lqp, dx0)
  {
    hide StageRows, StageBias, RowsUpTo, BiasUpTo, ConstraintRows, ConstraintBias;
    var N := |lqp| - 1;
    var A := new real[numConstraints, numDecisionVariables]((i, j) => 0.0);
    var b := new real[numConstraints](i => 0.0);
    AppendInitial(lqp, dx0, A, b);

    var currRow, currCol := |dx0|, 0;
    for k := 0 to N
      invariant currRow == RowAt(lqp, k) <= numConstraints && currCol == ColAt(lqp, k)
      invariant Holds(A, RowsUpTo(lqp, k))
      invariant b[..] == BiasUpTo(lqp, dx0, k) + Zeros(numConstraints - currRow)
    {
      currRow, currCol := AppendStage(lqp, dx0, k, currRow, currCol, A, b);
    }
    AppendFinal(lqp, dx0, A, b);
    ContentsAre(A, ConstraintRows(lqp));
    constraints := LinearApprox(b[..], Contents(A), Mat(0, []));
  }

  lemma NextCost(lqp: Problem, k: nat)
    requires k < |lqp| - 1
    ensures StageFitsAt(lqp, k)
            && ColAt(lqp, k) + lqp[k].cost.dfdux.cols + |lqp[k].cost.dfdux.rows| <= NumDecisionVariables(lqp)
    ensures CostRowsUpTo(lqp, k + 1)
            == CostRowsUpTo(lqp, k) + PlacedRows(HessianBlock(lqp[k].cost), ColAt(lqp, k), NumDecisionVariables(lqp))
    ensures GradientUpTo(lqp, k + 1) == GradientUpTo(lqp, k) + (lqp[k].cost.dfdx + lqp[k].cost.dfdu)
  {
    ColBound(lqp, k);
    assert StageFitsAt(lqp, k);
    Regroup(GradientUpTo(lqp, k), lqp[k].cost.dfdx, lqp[k].cost.dfdu);
  }

  /** One pass of the loop over stages: adds [Q, P'; P, R] and [q; r]. */
  method AppendCost(lqp: Problem, k: nat, currRow: nat, H: array2<real>, g: array<real>) returns (nextRow: nat)
    requires k < |lqp| - 1
    requires H.Length0 == H.Length1 == g.Length == NumDecisionVariables(lqp)
    requires currRow == ColAt(lqp, k) <= g.Length
    requires Holds(H, CostRowsUpTo(lqp, k))
    requires g[..] == GradientUpTo(lqp, k) + Zeros(g.Length - currRow)
    modifies H, g
    ensures nextRow == ColAt(lqp, k + 1) <= g.Length
    ensures Holds(H, CostRowsUpTo(lqp, k + 1))
    ensures g[..] == GradientUpTo(lqp, k + 1) + Zeros(g.Length - nextRow)
  {
    hide CostRowsUpTo, GradientUpTo;
    NextCost(lqp, k);
    var cost := lqp[k].cost;
    var nx, nu := cost.dfdux.cols, |cost.dfdux.rows|;
    AppendBlock(H, currRow, currRow, HessianBlock(cost), CostRowsUpTo(lqp, k));
    AppendSegment(g, currRow, cost.dfdx + cost.dfdu, GradientUpTo(lqp, k));
    nextRow := currRow + nx + nu;
  }

  /** The cost of the stacked problem; an empty problem costs nothing. */
  method GetCostMatrices(lqp: seq<Stage>, numDecisionVariables: nat) returns (cost: QuadraticApprox)
    requires lqp != [] ==> WellFormed(lqp) && numDecisionVariables == NumDecisionVariables(lqp)
    ensures lqp == [] ==> cost == NO_COST
    ensures lqp != [] ==> cost.dfdxx == Mat(numDecisionVariables, CostRows(lqp))
    ensures lqp != [] ==> cost.dfdx == CostGradient(lqp)
    ensures lqp != [] ==> cost.f == NominalCostUpTo(lqp, |lqp|)
  {
    if lqp == [] {
      return NO_COST;
    }
    cost := FillCostMatrices(lqp, numDecisionVariables);
  }

  /** Terminal cost in the bottom right corner. */
  method AppendFinalCost(lqp: Problem, currRow: nat, H: array2<real>, g: array<real>)
    requires H.Length0 == H.Length1 == g.Length == NumDecisionVariables(lqp)
    requires currRow == ColAt(lqp, |lqp| - 1) <= g.Length
    requires Holds(H, CostRowsUpTo(lqp, |lqp| - 1))
    requires g[..] == GradientUpTo(lqp, |lqp| - 1) + Zeros(g.Length - currRow)
    modifies H, g
    ensures Holds(H, CostRows(lqp)) && g[..] == CostGradient(lqp)
  {
    var N := |lqp| - 1;
    AppendBlock(H, currRow, currRow, lqp[N].cost.dfdxx, CostRowsUpTo(lqp, N));
    AppendSegment(g, currRow, lqp[N].cost.dfdx, GradientUpTo(lqp, N));
  }

  lemma NoRows(lqp: Problem)
    ensures CostRowsUpTo(lqp, 0) == [] && GradientUpTo(lqp, 0) == []
  {
  }

  method FillCostMatrices(lqp: Problem, numDecisionVariables: nat) returns (cost: QuadraticApprox)
    requires numDecisionVariables == NumDecisionVariables(lqp)
    ensures cost.dfdxx == Mat(numDecisionVariables, CostRows(lqp))
    ensures cost.dfdx == CostGradient(lqp)
    ensures cost.f == NominalCostUpTo(lqp, |lqp|)
  {
    hide CostRowsUpTo, GradientUpTo, CostRows, CostGradient;
    var N := |lqp| - 1;
    var H := new real[numDecisionVariables, numDecisionVariables]((i, j) => 0.0);
    var g := new real[numDecisionVariables](i => 0.0);
    var c := 0.0;
    assert [] + Zeros(numDecisionVariables) == Zeros(numDecisionVariables);
    NoRows(lqp);

    var currRow := 0;
    for k := 0 to N
      invariant currRow == ColAt(lqp, k) <= numDecisionVariables
      invariant Holds(H, CostRowsUpTo(lqp, k))
      invariant g[..] == GradientUpTo(lqp, k) + Zeros(numDecisionVariables - currRow)
      invariant c == NominalCostUpTo(lqp, k)
    {
      currRow := AppendCost(lqp, k, currRow, H, g);
      c := c + lqp[k].cost.f;
    }

    AppendFinalCost(lqp, currRow, H, g);
    c := c + lqp[N].cost.f;
    ContentsAre(H, CostRows(lqp));
    cost := QuadraticApprox(c, g[..], [], Contents(H), Mat(numDecisionVariables, []), Mat(0, []));
  }
}
