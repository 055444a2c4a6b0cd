/** min c + g'w + w'Hw/2 subject to A w + b = 0, solved through its KKT system. */
module DenseQp {
  import opened Vectors
  import opened Types
  import opened QpSolver
  import opened QpMeaning

  ghost predicate PositiveSemidefinite(a: Mat) {
    |a.rows| == a.cols && forall x: Vec | |x| == a.cols :: Dot(x, MulV(a, x)) >= 0.0
  }

  ghost predicate Nonsingular(a: Mat) {
    |a.rows| == a.cols && forall x: Vec | |x| == a.cols && MulV(a, x) == Zeros(|x|) :: x == Zeros(|x|)
  }

  type LinearSolver = (Mat, Vec) -> Option<Vec>

  /** The contract of the LU factorisation: it solves exactly when the rank is full. */
  ghost predicate SolvesLinearSystems(solve: LinearSolver) {
    forall a: Mat, rhs: Vec | |a.rows| == a.cols == |rhs| ::
      && (solve(a, rhs).Some? <==> Nonsingular(a))
      && (solve(a, rhs).Some? ==> |solve(a, rhs).value| == a.cols && MulV(a, solve(a, rhs).value) == rhs)
  }

  /** [H, A'; A, 0]. */
  function KktMatrix(h: Mat, a: Mat): (r: Mat)
    requires |h.rows| == h.cols == a.cols
    ensures |r.rows| == r.cols == h.cols + |a.rows|
  {
    VCat(HCat(h, Transpose(a)), HCat(a, ZeroMat(|a.rows|, |a.rows|)))
  }

  function KktRhs(g: Vec, b: Vec): Vec {
    Scale(-1.0, g) + Scale(-1.0, b)
  }

  function Cost(h: Mat, g: Vec, w: Vec): real
    requires |h.rows| == h.cols == |g| == |w|
  {
    Dot(g, w) + 0.5 * Dot(w, MulV(h, w))
  }

  ghost predicate Stationary(h: Mat, g: Vec, a: Mat, w: Vec, lambda: Vec) {
    && |h.rows| == h.cols == a.cols == |g| == |w| && |lambda| == |a.rows|
    && Add(MulV(h, w), MulV(Transpose(a), lambda)) == Scale(-1.0, g)
  }

  ghost predicate Meets(a: Mat, b: Vec, w: Vec) {
    && a.cols == |w| && |a.rows| == |b|
    && Add(MulV(a, w), b) == Zeros(|b|)
  }

  lemma KktMulV(h: Mat, a: Mat, w: Vec, lambda: Vec)
    requires |h.rows| == h.cols == a.cols == |w| && |lambda| == |a.rows|
    ensures MulV(KktMatrix(h, a), w + lambda) == Add(MulV(h, w), MulV(Transpose(a), lambda)) + MulV(a, w)
  {
    var z, x := ZeroMat(|a.rows|, |a.rows|), w + lambda;
    var top, bottom := HCat(h, Transpose(a)), HCat(a, z);
    assert MulV(VCat(top, bottom), x) == MulV(top, x) + MulV(bottom, x);
    HCatMulV(h, Transpose(a), w, lambda);
    HCatMulV(a, z, w, lambda);
    ZeroMatMulV(|a.rows|, lambda);
    assert Add(MulV(a, w), Zeros(|a.rows|)) == MulV(a, w);
  }

  lemma NegativeMeets(a: Mat, b: Vec, w: Vec)
    requires a.cols == |w| && |a.rows| == |b|
    ensures Meets(a, b, w) <==> MulV(a, w) == Scale(-1.0, b)
  {
    var l := Add(MulV(a, w), b);
    if Meets(a, b, w) {
      forall i | 0 <= i < |b|
        ensures MulV(a, w)[i] == Scale(-1.0, b)[i]
      {
        assert l[i] == 0.0;
      }
      assert MulV(a, w) == Scale(-1.0, b);
    }
  }

  lemma SplitSolution(h: Mat, g: Vec, a: Mat, b: Vec, w: Vec, lambda: Vec)
    requires |h.rows| == h.cols == a.cols == |g| == |w| && |a.rows| == |b| == |lambda|
    requires MulV(KktMatrix(h, a), w + lambda) == KktRhs(g, b)
    ensures Stationary(h, g, a, w, lambda) && Meets(a, b, w)
  {
    KktMulV(h, a, w, lambda);
    NegativeMeets(a, b, w);
    var top, bottom := Add(MulV(h, w), MulV(Transpose(a), lambda)), MulV(a, w);
    SameParts(top, bottom, Scale(-1.0, g), Scale(-1.0, b));
  }

  lemma SameParts(a: Vec, b: Vec, c: Vec, d: Vec)
    requires |a| == |c| && a + b == c + d
    ensures a == c && b == d
  {
    assert a == (a + b)[..|a|] && c == (c + d)[..|a|];
    assert b == (a + b)[|a|..] && d == (c + d)[|a|..];
  }

  /** Solves the KKT system and takes the result apart; fails exactly when it is singular. */
  method SolveDenseQp(cost: QuadraticApprox, constraints: LinearApprox, solve: LinearSolver)
    returns (r: Result<(Vec, Vec)>)
    requires |cost.dfdxx.rows| == cost.dfdxx.cols == |cost.dfdx| == constraints.dfdx.cols
    requires |constraints.dfdx.rows| == |constraints.f|
    requires SolvesLinearSystems(solve)
    ensures r.Ok? <==> Nonsingular(KktMatrix(cost.dfdxx, constraints.dfdx))
    ensures r.Ok? ==>
              && |r.value.0| == |cost.dfdx| && |r.value.1| == |constraints.f|
              && Meets(constraints.dfdx, constraints.f, r.value.0)
              && Stationary(cost.dfdxx, cost.dfdx, constraints.dfdx, r.value.0, r.value.1)
  {
    hide MulV, VCat, HCat, Meets, Stationary, Nonsingular;
    var n := constraints.dfdx.cols;
    var kkt, rhs := KktMatrix(cost.dfdxx, constraints.dfdx), KktRhs(cost.dfdx, constraints.f);
    var solution := solve(kkt, rhs);
    if solution == None {
      return Err("KKT matrix is not full rank");
    }
    var w, lambda := solution.value[..n], solution.value[n..];
    assert solution.value == w + lambda;
    SplitSolution(cost.dfdxx, cost.dfdx, constraints.dfdx, constraints.f, w, lambda);
    return Ok((w, lambda));
  }

  lemma SumOfParts(w: Vec, v: Vec)
    requires |w| == |v|
    ensures Add(w, Sub(v, w)) == v
  {
  }

  /** A step between two points that meet the constraints stays in the kernel of A. */
  lemma FeasibleStep(a: Mat, b: Vec, w: Vec, v: Vec)
    requires Meets(a, b, w) && Meets(a, b, v)
    ensures MulV(a, Sub(v, w)) == Zeros(|b|)
  {
    SumOfParts(w, v);
    MulVAdd(a, w, Sub(v, w));
    NegativeMeets(a, b, w);
    NegativeMeets(a, b, v);
    var d := MulV(a, Sub(v, w));
    forall i | 0 <= i < |b|
      ensures d[i] == 0.0
    {
      assert MulV(a, v)[i] == MulV(a, w)[i] + d[i];
    }
  }

  lemma CostOfStep(h: Mat, g: Vec, w: Vec, d: Vec)
    requires |g| == |w| == |d| == h.cols == |h.rows|
    requires Dot(w, MulV(h, d)) == Dot(d, MulV(h, w))
    ensures Cost(h, g, Add(w, d)) == Cost(h, g, w) + Dot(g, d) + Dot(d, MulV(h, w)) + 0.5 * Dot(d, MulV(h, d))
  {
    DotAdd(g, w, d);
    MulVAdd(h, w, d);
    var hw, hd := MulV(h, w), MulV(h, d);
    AddDot(w, d, Add(hw, hd));
    DotAdd(w, hw, hd);
    DotAdd(d, hw, hd);
  }

  /** Along a feasible step from a stationary point only the curvature is left. */
  lemma StationaryCostGap(h: Mat, g: Vec, a: Mat, b: Vec, w: Vec, lambda: Vec, v: Vec)
    requires Stationary(h, g, a, w, lambda) && Meets(a, b, w) && Meets(a, b, v)
    requires Dot(w, MulV(h, Sub(v, w))) == Dot(Sub(v, w), MulV(h, w))
    ensures Cost(h, g, v) == Cost(h, g, w) + 0.5 * Dot(Sub(v, w), MulV(h, Sub(v, w)))
  {
    var d := Sub(v, w);
    SumOfParts(w, v);
    CostOfStep(h, g, w, d);
    var hw, al := MulV(h, w), MulV(Transpose(a), lambda);
    DotAdd(d, hw, al);
    DotScale(-1.0, d, g);
    DotCommutes(d, g);
    MoveAcross(lambda, a, d);
    DotCommutes(al, d);
    FeasibleStep(a, b, w, v);
    DotZeros(lambda);
  }

  // ----- uniqueness

  /** 2 t a + t^2 c >= 0 for every t leaves no room for a positive a. */
  lemma NoLinearPart(a: real, c: real)
    requires a >= 0.0
    requires NeverNegative(a, c)
    ensures a == 0.0
  {
    if c <= 0.0 {
      assert Quadratic(-1.0, a, c) == -2.0 * a + c;
    } else {
      var t := -a / c;
      assert t * c == -a;
      assert Quadratic(t, a, c) == 2.0 * (t * a) + t * (t * c) == t * a;
      assert (t * a) * c == a * (t * c) == -(a * a);
      SquareVanishes(a);
    }
  }

  function Quadratic(t: real, a: real, c: real): real {
    2.0 * t * a + t * t * c
  }

  ghost predicate NeverNegative(a: real, c: real) {
    forall t: real :: Quadratic(t, a, c) >= 0.0
  }

  lemma FormOfSum(h: Mat, d: Vec, e: Vec, t: real)
    requires Symmetric(h) && |d| == |e| == h.cols
    ensures Dot(Add(d, Scale(t, e)), MulV(h, Add(d, Scale(t, e))))
            == Dot(d, MulV(h, d)) + Quadratic(t, Dot(e, MulV(h, d)), Dot(e, MulV(h, e)))
  {
    var te, hd, he := Scale(t, e), MulV(h, d), MulV(h, e);
    MulVAdd(h, d, te);
    MulVScale(t, h, e);
    AddDot(d, te, Add(hd, Scale(t, he)));
    DotAdd(d, hd, Scale(t, he));
    DotAdd(te, hd, Scale(t, he));
    DotScale(t, d, he);
    SymmetricForm(h, d, e);
    ScaleDot(t, e, hd);
    ScaleDot(t, e, Scale(t, he));
    DotScale(t, e, he);
  }

  /** A positive semidefinite symmetric matrix maps a vector without curvature to zero. */
  lemma NoCurvatureNoImage(h: Mat, d: Vec)
    requires Symmetric(h) && PositiveSemidefinite(h) && |d| == h.cols
    requires Dot(d, MulV(h, d)) == 0.0
    ensures MulV(h, d) == Zeros(|d|)
  {
    hide Quadratic, MulV, DotTo;
    var e := MulV(h, d);
    var a, c := Dot(e, e), Dot(e, MulV(h, e));
    SquaresVanish(e, |e|);
    forall t: real
      ensures Quadratic(t, a, c) >= 0.0
    {
      FormOfSum(h, d, e, t);
      assert Dot(Add(d, Scale(t, e)), MulV(h, Add(d, Scale(t, e)))) >= 0.0;
    }
    assert NeverNegative(a, c);
    NoLinearPart(a, c);
  }

  lemma KernelOfKkt(h: Mat, a: Mat, d: Vec)
    requires |h.rows| == h.cols == a.cols == |d| && Nonsingular(KktMatrix(h, a))
    requires MulV(h, d) == Zeros(|d|) && MulV(a, d) == Zeros(|a.rows|)
    ensures d == Zeros(|d|)
  {
    hide KktMatrix, MulV;
    var z := Zeros(|a.rows|);
    KktMulV(h, a, d, z);
    MulVZeros(Transpose(a));
    assert Add(Zeros(|d|), Zeros(|d|)) == Zeros(|d|);
    SameParts(d, z, Zeros(|d|), z);
  }

  /** With a nonsingular KKT matrix every other point that meets the constraints costs more. */
  lemma StationaryIsStrictOptimum(h: Mat, g: Vec, a: Mat, b: Vec, w: Vec, lambda: Vec, v: Vec)
    requires Symmetric(h) && PositiveSemidefinite(h)
    requires Stationary(h, g, a, w, lambda) && Meets(a, b, w) && Meets(a, b, v)
    requires Nonsingular(KktMatrix(h, a))
    ensures v != w ==> Cost(h, g, w) < Cost(h, g, v)
  {
    hide Nonsingular;
    var d := Sub(v, w);
    SymmetricForm(h, w, d);
    StationaryCostGap(h, g, a, b, w, lambda, v);
    assert Dot(d, MulV(h, d)) >= 0.0;
    if Dot(d, MulV(h, d)) == 0.0 {
      NoCurvatureNoImage(h, d);
      FeasibleStep(a, b, w, v);
      KernelOfKkt(h, a, d);
      forall i | 0 <= i < |v|
        ensures v[i] == w[i]
      {
        assert d[i] == 0.0;
      }
    }
  }

  /** A matrix whose bilinear form is symmetric is symmetric. */
  lemma SymmetricByForm(h: Mat)
    requires |h.rows| == h.cols
    requires forall u: Vec, v: Vec | |u| == h.cols && |v| == h.cols :: Dot(u, MulV(h, v)) == Dot(v, MulV(h, u))
    ensures Symmetric(h)
  {
    var n := h.cols;
    forall i, j | 0 <= i < n && 0 <= j < n
      ensures h.rows[i][j] == h.rows[j][i]
    {
      MulVUnit(h, j);
      MulVUnit(h, i);
      DotUnit(i, Col(h, j));
      DotUnit(j, Col(h, i));
      assert Dot(Unit(n, i), MulV(h, Unit(n, j))) == Dot(Unit(n, j), MulV(h, Unit(n, i)));
    }
    forall i | 0 <= i < n
      ensures Transpose(h).rows[i] == h.rows[i]
    {
    }
    assert Transpose(h).rows == h.rows;
  }
}
