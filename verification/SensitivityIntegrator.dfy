/**
 * Euler, RK2 and RK4 discretisations and their sensitivities. The three schemes are instances of one: stages at offsets
 * from the start, summed with weights. The chain rule runs over the stages and has no error for affine flow, and one of
 * smaller order than the perturbation for differentiable flow; the methods, which overwrite the Jacobians of the stages
 * in place, compute just that.
 */
module SensitivityIntegrators {
  import opened Vectors
  import opened Types
  import opened Norms

  ghost predicate Square(a: LinearApprox, n: nat, m: nat) {
    |a.f| == n && a.dfdx.cols == |a.dfdx.rows| == n && a.dfdu.cols == m && |a.dfdu.rows| == n
  }

  /** dfdx dx + dfdu du. */
  function Variation(a: LinearApprox, dx: Vec, du: Vec): (r: Vec)
    requires Square(a, |dx|, |du|)
    ensures |r| == |dx|
  {
    Add(MulV(a.dfdx, dx), MulV(a.dfdu, du))
  }

  /** v is within r of the first-order prediction f + dfdx dx + dfdu du. */
  ghost predicate Close(v: Vec, a: LinearApprox, dx: Vec, du: Vec, r: real) {
    && Square(a, |dx|, |du|) && |v| == |dx|
    && AbsSum(Sub(v, Add(a.f, Variation(a, dx, du)))) <= r
  }

  /** Continuous dynamics with n states and m inputs, and their linearisation. */
  datatype System = System(n: nat, m: nat, flow: (real, Vec, Vec) -> Vec, linearise: (real, Vec, Vec) -> LinearApprox) {
    ghost predicate Shaped() {
      forall t: real, x: Vec, u: Vec | |x| == n && |u| == m :: ShapedAt(t, x, u)
    }

    ghost predicate ShapedAt(t: real, x: Vec, u: Vec) {
      |flow(t, x, u)| == n && Square(linearise(t, x, u), n, m) && linearise(t, x, u).f == flow(t, x, u)
    }

    /** First-order prediction of the flow at (t, x, u), good to eps per unit of deviation up to delta. */
    ghost predicate FlowWithin(t: real, x: Vec, u: Vec, eps: real, delta: real)
      requires |x| == n && |u| == m
    {
      forall dx: Vec, du: Vec {:trigger flow(t, Add(x, dx), Add(u, du))}
        | |dx| == n && |du| == m && AbsSum(dx) + AbsSum(du) <= delta ::
        Close(flow(t, Add(x, dx), Add(u, du)), linearise(t, x, u), dx, du, eps * (AbsSum(dx) + AbsSum(du)))
    }

    /** The linearisation is exact for deviations of any size. */
    ghost predicate Affine() {
      forall t: real, x: Vec, u: Vec, delta: real | |x| == n && |u| == m :: FlowWithin(t, x, u, 0.0, delta)
    }

    /** The linearisation is the Frechet derivative of the flow, everywhere. */
    ghost predicate Differentiable() {
      forall t: real, x: Vec, u: Vec, eps: real | |x| == n && |u| == m && eps > 0.0 :: DifferentiableAt(t, x, u, eps)
    }

    ghost predicate DifferentiableAt(t: real, x: Vec, u: Vec, eps: real)
      requires |x| == n && |u| == m
    {
      exists delta: real :: delta > 0.0 && FlowWithin(t, x, u, eps, delta)
    }
  }

  /** flow = A(t) x + B(t) u + c(t). */
  ghost predicate TimeVarying(s: System, a: real -> Mat, b: real -> Mat, c: real -> Vec) {
    && (forall t: real :: a(t).cols == |a(t).rows| == s.n && b(t).cols == s.m && |b(t).rows| == |c(t)| == s.n)
    && forall t: real, x: Vec, u: Vec | |x| == s.n && |u| == s.m ::
         && s.flow(t, x, u) == Add(Add(MulV(a(t), x), MulV(b(t), u)), c(t))
         && s.linearise(t, x, u) == LinearApprox(s.flow(t, x, u), a(t), b(t))
  }

  /** Every time-varying affine system is covered: nothing else is asked of it. */
  lemma TimeVaryingIsAffine(s: System, a: real -> Mat, b: real -> Mat, c: real -> Vec)
    requires TimeVarying(s, a, b, c)
    ensures s.Shaped() && s.Affine()
  {
    forall t: real, x: Vec, u: Vec | |x| == s.n && |u| == s.m
      ensures s.ShapedAt(t, x, u)
    {
      assert s.linearise(t, x, u) == LinearApprox(s.flow(t, x, u), a(t), b(t));
    }
    forall t: real, x: Vec, u: Vec, delta: real | |x| == s.n && |u| == s.m
      ensures s.FlowWithin(t, x, u, 0.0, delta)
    {
      forall dx: Vec, du: Vec | |dx| == s.n && |du| == s.m
        ensures Close(s.flow(t, Add(x, dx), Add(u, du)), s.linearise(t, x, u), dx, du, 0.0)
      {
        assert s.linearise(t, x, u) == LinearApprox(s.flow(t, x, u), a(t), b(t));
        AffineError(a(t), b(t), c(t), x, u, dx, du, s.flow(t, x, u), s.flow(t, Add(x, dx), Add(u, du)));
      }
    }
  }

  lemma AffineError(a: Mat, b: Mat, c: Vec, x: Vec, u: Vec, dx: Vec, du: Vec, f: Vec, v: Vec)
    requires a.cols == |a.rows| == |x| == |dx| == |c| == |b.rows| && b.cols == |u| == |du|
    requires f == Add(Add(MulV(a, x), MulV(b, u)), c)
    requires v == Add(Add(MulV(a, Add(x, dx)), MulV(b, Add(u, du))), c)
    ensures Close(v, LinearApprox(f, a, b), dx, du, 0.0)
  {
    hide MulV;
    MulVAdd(a, x, dx);
    MulVAdd(b, u, du);
    assert Sub(v, Add(f, Variation(LinearApprox(f, a, b), dx, du))) == Zeros(|x|);
    ZeroNorm(|x|);
  }

  // ----- stages of a Runge-Kutta step in which every stage builds on the one before

  /** Stage i is evaluated offsets[i-1] later, at the state reached with the slope of stage i - 1. */
  function StageTime(t: real, offsets: seq<real>, i: nat): real
    requires i <= |offsets|
  {
    if i == 0 then t else t + offsets[i-1]
  }

  function StagePoint(s: System, t: real, x: Vec, u: Vec, offsets: seq<real>, i: nat): (y: Vec)
    requires s.Shaped() && |x| == s.n && |u| == s.m && i <= |offsets|
    ensures |y| == s.n
    decreases i, 0
  {
    if i == 0 then x else Add(x, Scale(offsets[i-1], Stage(s, t, x, u, offsets, i - 1)))
  }

  function Stage(s: System, t: real, x: Vec, u: Vec, offsets: seq<real>, i: nat): (k: Vec)
    requires s.Shaped() && |x| == s.n && |u| == s.m && i <= |offsets|
    ensures |k| == s.n
    decreases i, 1
  {
    var y := StagePoint(s, t, x, u, offsets, i);
    assert s.ShapedAt(StageTime(t, offsets, i), y, u);
    s.flow(StageTime(t, offsets, i), y, u)
  }

  /** Linearisation of the flow at stage i. */
  function StageLinear(s: System, t: real, x: Vec, u: Vec, offsets: seq<real>, i: nat): (k: LinearApprox)
    requires s.Shaped() && |x| == s.n && |u| == s.m && i <= |offsets|
    ensures Square(k, s.n, s.m) && k.f == Stage(s, t, x, u, offsets, i)
  {
    var y := StagePoint(s, t, x, u, offsets, i);
    assert s.ShapedAt(StageTime(t, offsets, i), y, u);
    s.linearise(StageTime(t, offsets, i), y, u)
  }

  /** Chain rule for flow(x + c prev): the Jacobians of the stage with respect to the step's state and input. */
  function Chain(k: LinearApprox, prev: LinearApprox, c: real, n: nat, m: nat): (r: LinearApprox)
    requires Square(k, n, m) && Square(prev, n, m)
    ensures Square(r, n, m)
  {
    LinearApprox(k.f, MAdd(k.dfdx, Mul(MScale(c, k.dfdx), prev.dfdx)), MAdd(k.dfdu, Mul(MScale(c, k.dfdx), prev.dfdu)))
  }

  function Sensitivity(s: System, t: real, x: Vec, u: Vec, offsets: seq<real>, i: nat): (r: LinearApprox)
    requires s.Shaped() && |x| == s.n && |u| == s.m && i <= |offsets|
    ensures Square(r, s.n, s.m) && r.f == Stage(s, t, x, u, offsets, i)
  {
    var k := StageLinear(s, t, x, u, offsets, i);
    if i == 0 then k else Chain(k, Sensitivity(s, t, x, u, offsets, i - 1), offsets[i-1], s.n, s.m)
  }

  // ----- errors of first-order predictions

  function Error(v: Vec, a: LinearApprox, dx: Vec, du: Vec): (e: Vec)
    requires Square(a, |dx|, |du|) && |v| == |dx|
    ensures |e| == |v|
  {
    Sub(v, Add(a.f, Variation(a, dx, du)))
  }

  /** Action of the chained Jacobians. */
  lemma ChainVariation(k: LinearApprox, prev: LinearApprox, c: real, dx: Vec, du: Vec)
    requires Square(k, |dx|, |du|) && Square(prev, |dx|, |du|)
    ensures Variation(Chain(k, prev, c, |dx|, |du|), dx, du)
            == Add(Variation(k, dx, du), Scale(c, MulV(k.dfdx, Variation(prev, dx, du))))
  {
    hide MulV, Mul, MAdd, MScale;
    var px, pu := MulV(prev.dfdx, dx), MulV(prev.dfdu, du);
    MAddMulV(k.dfdx, Mul(MScale(c, k.dfdx), prev.dfdx), dx);
    MulMulV(MScale(c, k.dfdx), prev.dfdx, dx);
    MScaleMulV(c, k.dfdx, px);
    MAddMulV(k.dfdu, Mul(MScale(c, k.dfdx), prev.dfdu), du);
    MulMulV(MScale(c, k.dfdx), prev.dfdu, du);
    MScaleMulV(c, k.dfdx, pu);
    MulVAdd(k.dfdx, px, pu);
    var l := Variation(Chain(k, prev, c, |dx|, |du|), dx, du);
    var r := Add(Variation(k, dx, du), Scale(c, MulV(k.dfdx, Add(px, pu))));
    forall j | 0 <= j < |dx|
      ensures l[j] == r[j]
    {
      Distribute(MulV(k.dfdx, px)[j], MulV(k.dfdx, pu)[j], c);
    }
  }

  /** Deviation of the point at which a stage is evaluated, when the previous slope is p instead of prev.f. */
  function PointDeviation(p: Vec, prev: LinearApprox, c: real, dx: Vec): (d: Vec)
    requires |p| == |prev.f| == |dx|
    ensures |d| == |dx|
  {
    Add(dx, Scale(c, Sub(p, prev.f)))
  }

  lemma PointMoves(x: Vec, dx: Vec, p: Vec, prev: LinearApprox, c: real)
    requires |x| == |dx| == |p| == |prev.f|
    ensures Add(Add(x, dx), Scale(c, p)) == Add(Add(x, Scale(c, prev.f)), PointDeviation(p, prev, c, dx))
  {
    forall j | 0 <= j < |x|
      ensures Add(Add(x, dx), Scale(c, p))[j] == Add(Add(x, Scale(c, prev.f)), PointDeviation(p, prev, c, dx))[j]
    {
      Distribute(p[j], -prev.f[j], c);
      assert c * (p[j] - prev.f[j]) == c * p[j] - c * prev.f[j];
    }
  }

  lemma SplitDeviation(p: Vec, prev: LinearApprox, dx: Vec, du: Vec)
    requires Square(prev, |dx|, |du|) && |p| == |dx|
    ensures Sub(p, prev.f) == Add(Variation(prev, dx, du), Error(p, prev, dx, du))
  {
  }

  /** The error of the chained prediction is the error at the stage plus the propagated error of the slope before. */
  lemma ChainError(v: Vec, k: LinearApprox, p: Vec, prev: LinearApprox, c: real, dx: Vec, du: Vec)
    requires Square(k, |dx|, |du|) && Square(prev, |dx|, |du|) && |v| == |p| == |dx|
    ensures Error(v, Chain(k, prev, c, |dx|, |du|), dx, du)
            == Add(Error(v, k, PointDeviation(p, prev, c, dx), du), Scale(c, MulV(k.dfdx, Error(p, prev, dx, du))))
  {
    hide MulV;
    var d, vp, e := PointDeviation(p, prev, c, dx), Variation(prev, dx, du), Error(p, prev, dx, du);
    ChainVariation(k, prev, c, dx, du);
    SplitDeviation(p, prev, dx, du);
    MulVAdd(k.dfdx, dx, Scale(c, Add(vp, e)));
    MulVScale(c, k.dfdx, Add(vp, e));
    MulVAdd(k.dfdx, vp, e);
    var kdx, kvp, ke, kdu := MulV(k.dfdx, dx), MulV(k.dfdx, vp), MulV(k.dfdx, e), MulV(k.dfdu, du);
    var l := Sub(v, Add(k.f, Add(Add(kdx, kdu), Scale(c, kvp))));
    var r := Add(Sub(v, Add(k.f, Add(Add(kdx, Scale(c, Add(kvp, ke))), kdu))), Scale(c, ke));
    forall j | 0 <= j < |dx|
      ensures l[j] == r[j]
    {
      Distribute(kvp[j], ke[j], c);
    }
    assert l == r;
  }

  lemma ChainClose(v: Vec, k: LinearApprox, p: Vec, prev: LinearApprox, c: real, dx: Vec, du: Vec, r1: real, r2: real,
                   r: real)
    requires Close(p, prev, dx, du, r1) && |p| == |prev.f|
    requires Close(v, k, PointDeviation(p, prev, c, dx), du, r2)
    requires r2 + Abs(c) * (MatNorm(k.dfdx) * r1) <= r
    ensures Close(v, Chain(k, prev, c, |dx|, |du|), dx, du, r)
  {
    hide Abs, MatNorm, AbsSum, MulV;
    var e := Error(p, prev, dx, du);
    ChainError(v, k, p, prev, c, dx, du);
    Triangle(Error(v, k, PointDeviation(p, prev, c, dx), du), Scale(c, MulV(k.dfdx, e)));
    NormScale(c, MulV(k.dfdx, e));
    OperatorBound(k.dfdx, e);
    ScaledBound(Abs(c), AbsSum(MulV(k.dfdx, e)), MatNorm(k.dfdx), AbsSum(e), r1);
    AbsNonnegative(c);
  }

  lemma AbsNonnegative(c: real)
    ensures Abs(c) >= 0.0
  {
  }

  lemma ScaledBound(c: real, a: real, n: real, e: real, r: real)
    requires a <= n * e && e <= r && n >= 0.0
    ensures c >= 0.0 ==> c * a <= c * (n * r)
  {
    Monotone(e, r, n);
    if c >= 0.0 {
      Monotone(a, n * r, c);
    }
  }

  /** How far the evaluation point of a stage moves. */
  lemma PointDeviationBound(p: Vec, prev: LinearApprox, c: real, dx: Vec, du: Vec, r1: real)
    requires Close(p, prev, dx, du, r1) && |p| == |prev.f|
    ensures AbsSum(PointDeviation(p, prev, c, dx))
            <= AbsSum(dx) + Abs(c) * ((MatNorm(prev.dfdx) + MatNorm(prev.dfdu)) * (AbsSum(dx) + AbsSum(du)) + r1)
  {
    hide Abs, MatNorm, AbsSum, MulV;
    var vx, vu, e, d := MulV(prev.dfdx, dx), MulV(prev.dfdu, du), Error(p, prev, dx, du), Sub(p, prev.f);
    Triangle(dx, Scale(c, d));
    NormScale(c, d);
    SplitDeviation(p, prev, dx, du);
    Triangle(Variation(prev, dx, du), e);
    Triangle(vx, vu);
    OperatorBound(prev.dfdx, dx);
    OperatorBound(prev.dfdu, du);
    NormNonnegative(dx);
    NormNonnegative(du);
    AbsNonnegative(c);
    SumBound(MatNorm(prev.dfdx), MatNorm(prev.dfdu), AbsSum(dx), AbsSum(du));
    Monotone(AbsSum(d), (MatNorm(prev.dfdx) + MatNorm(prev.dfdu)) * (AbsSum(dx) + AbsSum(du)) + r1, Abs(c));
  }

  lemma SumBound(a: real, b: real, p: real, q: real)
    requires a >= 0.0 && b >= 0.0 && p >= 0.0 && q >= 0.0
    ensures a * p + b * q <= (a + b) * (p + q)
  {
    NonnegativeProduct(a, q);
    NonnegativeProduct(b, p);
    assert (a + b) * (p + q) == a * p + a * q + b * p + b * q;
  }

  // ----- the stages of a perturbed step

  /** A stage of the perturbed step is the flow at the perturbed point of the stage. */
  lemma PerturbedStage(s: System, t: real, x: Vec, u: Vec, offsets: seq<real>, i: nat, dx: Vec, du: Vec)
    requires s.Shaped() && |x| == |dx| == s.n && |u| == |du| == s.m && 0 < i <= |offsets|
    ensures Stage(s, t, Add(x, dx), Add(u, du), offsets, i)
            == s.flow(StageTime(t, offsets, i),
                      Add(StagePoint(s, t, x, u, offsets, i),
                          PointDeviation(Stage(s, t, Add(x, dx), Add(u, du), offsets, i - 1),
                                         Sensitivity(s, t, x, u, offsets, i - 1), offsets[i-1], dx)),
                      Add(u, du))
  {
    PointMoves(x, dx, Stage(s, t, Add(x, dx), Add(u, du), offsets, i - 1), Sensitivity(s, t, x, u, offsets, i - 1),
               offsets[i-1]);
  }

  /** The stage of a step perturbed by (dx, du) is within r of what its sensitivity predicts. */
  ghost predicate StageClose(s: System, t: real, x: Vec, u: Vec, offsets: seq<real>, i: nat, dx: Vec, du: Vec, r: real)
    requires s.Shaped() && |x| == |dx| == s.n && |u| == |du| == s.m && i <= |offsets|
  {
    Close(Stage(s, t, Add(x, dx), Add(u, du), offsets, i), Sensitivity(s, t, x, u, offsets, i), dx, du, r)
  }

  lemma Predicted(s: System, t: real, y: Vec, u: Vec, eps: real, delta: real, d: Vec, du: Vec, v: Vec, gap: real)
    requires |y| == |d| == s.n && |u| == |du| == s.m && s.FlowWithin(t, y, u, eps, delta)
    requires gap == AbsSum(d) + AbsSum(du) && gap <= delta && v == s.flow(t, Add(y, d), Add(u, du))
    ensures Close(v, s.linearise(t, y, u), d, du, eps * gap)
  {
    hide AbsSum;
    assert eps * gap == eps * (AbsSum(d) + AbsSum(du));
    assert Close(s.flow(t, Add(y, d), Add(u, du)), s.linearise(t, y, u), d, du, eps * (AbsSum(d) + AbsSum(du)));
  }

  /** One application of the chain rule. */
  lemma {:induction false} StageChain(s: System, t: real, x: Vec, u: Vec, offsets: seq<real>, i: nat, dx: Vec, du: Vec,
                                      r1: real, eps: real, delta: real, gap: real, k: LinearApprox, prev: LinearApprox,
                                      r: real)
    requires s.Shaped() && |x| == |dx| == s.n && |u| == |du| == s.m && 0 < i <= |offsets|
    requires k == StageLinear(s, t, x, u, offsets, i) && prev == Sensitivity(s, t, x, u, offsets, i - 1)
    requires StageClose(s, t, x, u, offsets, i - 1, dx, du, r1)
    requires s.FlowWithin(StageTime(t, offsets, i), StagePoint(s, t, x, u, offsets, i), u, eps, delta)
    requires gap == AbsSum(PointDeviation(Stage(s, t, Add(x, dx), Add(u, du), offsets, i - 1), prev, offsets[i-1], dx))
             + AbsSum(du)
    requires gap <= delta && eps * gap + Abs(offsets[i-1]) * (MatNorm(k.dfdx) * r1) <= r
    ensures StageClose(s, t, x, u, offsets, i, dx, du, r)
  {
    hide Close, Abs, MatNorm, AbsSum, Add, Sub, Scale, PointDeviation, StageTime;
    var p := Stage(s, t, Add(x, dx), Add(u, du), offsets, i - 1);
    var y := StagePoint(s, t, x, u, offsets, i);
    var d := PointDeviation(p, prev, offsets[i-1], dx);
    var v := Stage(s, t, Add(x, dx), Add(u, du), offsets, i);
    PerturbedStage(s, t, x, u, offsets, i, dx, du);
    Predicted(s, StageTime(t, offsets, i), y, u, eps, delta, d, du, v, gap);
    ChainClose(v, k, p, prev, offsets[i-1], dx, du, r1, eps * gap, r);
  }

  lemma FirstStageClose(s: System, t: real, x: Vec, u: Vec, offsets: seq<real>, dx: Vec, du: Vec, eps: real,
                        delta: real, r: real)
    requires s.Shaped() && |x| == |dx| == s.n && |u| == |du| == s.m
    requires s.FlowWithin(t, x, u, eps, delta)
    requires AbsSum(dx) + AbsSum(du) <= delta && r == eps * (AbsSum(dx) + AbsSum(du))
    ensures StageClose(s, t, x, u, offsets, 0, dx, du, r)
  {
    hide Close, AbsSum;
    Predicted(s, t, x, u, eps, delta, dx, du, Stage(s, t, Add(x, dx), Add(u, du), offsets, 0), AbsSum(dx) + AbsSum(du));
  }

  /** With affine dynamics the sensitivity of every stage predicts it without error. */
  lemma {:induction false} AffineStage(s: System, t: real, x: Vec, u: Vec, offsets: seq<real>, i: nat, dx: Vec, du: Vec)
    requires s.Shaped() && |x| == |dx| == s.n && |u| == |du| == s.m && i <= |offsets| && s.Affine()
    ensures StageClose(s, t, x, u, offsets, i, dx, du, 0.0)
  {
    hide Abs, MatNorm, AbsSum, Add, PointDeviation, StageTime, StageClose;
    if i == 0 {
      FirstStageClose(s, t, x, u, offsets, dx, du, 0.0, AbsSum(dx) + AbsSum(du), 0.0);
    } else {
      AffineStage(s, t, x, u, offsets, i - 1, dx, du);
      var k, prev := StageLinear(s, t, x, u, offsets, i), Sensitivity(s, t, x, u, offsets, i - 1);
      var gap := AbsSum(PointDeviation(Stage(s, t, Add(x, dx), Add(u, du), offsets, i - 1), prev, offsets[i-1], dx))
          + AbsSum(du);
      StageChain(s, t, x, u, offsets, i, dx, du, 0.0, 0.0, gap, gap, k, prev, 0.0);
    }
  }

  /** Stage i is predicted to eps per unit of deviation, for deviations up to delta. */
  ghost predicate StageWithin(s: System, t: real, x: Vec, u: Vec, offsets: seq<real>, i: nat, eps: real, delta: real)
    requires s.Shaped() && |x| == s.n && |u| == s.m && i <= |offsets|
  {
    forall dx: Vec, du: Vec {:trigger Add(x, dx), Add(u, du)}
      | |dx| == s.n && |du| == s.m && AbsSum(dx) + AbsSum(du) <= delta ::
      StageClose(s, t, x, u, offsets, i, dx, du, eps * (AbsSum(dx) + AbsSum(du)))
  }

  lemma WithinAt(s: System, t: real, x: Vec, u: Vec, offsets: seq<real>, i: nat, eps: real, delta: real, dx: Vec,
                 du: Vec, r: real)
    requires s.Shaped() && |x| == |dx| == s.n && |u| == |du| == s.m && i <= |offsets|
    requires StageWithin(s, t, x, u, offsets, i, eps, delta)
    requires AbsSum(dx) + AbsSum(du) <= delta && r == eps * (AbsSum(dx) + AbsSum(du))
    ensures StageClose(s, t, x, u, offsets, i, dx, du, r)
  {
    hide AbsSum, Stage, Sensitivity;
    var dx', du' := Add(x, dx), Add(u, du);
    assert StageClose(s, t, x, u, offsets, i, dx, du, eps * (AbsSum(dx) + AbsSum(du)));
  }

  lemma GapBound(dx: real, du: real, c: real, l: real, e: real, d: real, g: real)
    requires dx >= 0.0 && du >= 0.0 && c >= 0.0 && d <= dx + c * (l * (dx + du) + e * (dx + du))
             && g == 1.0 + c * (l + e)
    ensures d + du <= g * (dx + du)
  {
    Distribute(l, e, dx + du);
    assert c * ((l + e) * (dx + du)) == (c * (l + e)) * (dx + du);
    Distribute(1.0, c * (l + e), dx + du);
  }

  lemma HalfAndHalf(eps: real, e1: real, e2: real, g: real, gap: real, w: real, c: real, n: real, r: real)
    requires w >= 0.0 && g > 0.0 && c >= 0.0 && n >= 0.0 && e1 >= 0.0 && e2 >= 0.0
    requires e1 * (c * n + 1.0) == eps / 2.0 && e2 * g == eps / 2.0 && gap <= g * w && r == eps * w
    ensures e2 * gap + c * (n * (e1 * w)) <= r
  {
    Monotone(gap, g * w, e2);
    assert e2 * (g * w) == (e2 * g) * w;
    assert e1 * (c * n + 1.0) == e1 * (c * n) + e1;
    Monotone(e1 * (c * n), eps / 2.0, w);
    assert c * (n * (e1 * w)) == (e1 * (c * n)) * w;
  }

  lemma Fraction(eps: real, g: real) returns (e: real)
    requires eps > 0.0 && g > 0.0
    ensures e > 0.0 && e * g == eps
  {
    e := eps / g;
    if e <= 0.0 {
      NonnegativeProduct(-e, g);
    }
  }

  /** A point that moves at most g times as far as the step stays within delta when the step stays within delta / g. */
  lemma GapWithin(gap: real, g: real, w: real, d: real, delta: real)
    requires gap <= g * w && w <= d && d * g == delta && g > 0.0
    ensures gap <= delta
  {
    Monotone(w, d, g);
  }

  /** How far the evaluation point of a stage moves, once the stage before is predicted to e1 per unit. */
  lemma StageGap(s: System, t: real, x: Vec, u: Vec, offsets: seq<real>, i: nat, dx: Vec, du: Vec, e1: real,
                 prev: LinearApprox, g: real, r1: real)
    requires s.Shaped() && |x| == |dx| == s.n && |u| == |du| == s.m && 0 < i <= |offsets|
    requires prev == Sensitivity(s, t, x, u, offsets, i - 1)
    requires StageClose(s, t, x, u, offsets, i - 1, dx, du, r1) && r1 == e1 * (AbsSum(dx) + AbsSum(du))
    requires g == 1.0 + Abs(offsets[i-1]) * (MatNorm(prev.dfdx) + MatNorm(prev.dfdu) + e1)
    ensures AbsSum(PointDeviation(Stage(s, t, Add(x, dx), Add(u, du), offsets, i - 1), prev, offsets[i-1], dx))
            + AbsSum(du)
            <= g * (AbsSum(dx) + AbsSum(du))
  {
    hide Abs, MatNorm, AbsSum, Add, PointDeviation, Close;
    var p, c := Stage(s, t, Add(x, dx), Add(u, du), offsets, i - 1), offsets[i-1];
    PointDeviationBound(p, prev, c, dx, du, r1);
    NormNonnegative(dx);
    NormNonnegative(du);
    AbsNonnegative(c);
    GapBound(AbsSum(dx), AbsSum(du), Abs(c), MatNorm(prev.dfdx) + MatNorm(prev.dfdu), e1,
             AbsSum(PointDeviation(p, prev, c, dx)), g);
  }

  lemma MatNormNonnegative(a: Mat)
    ensures MatNorm(a) >= 0.0
  {
    OperatorBound(a, Zeros(a.cols));
  }

  /** One stage of the induction below, for one perturbation. */
  lemma {:induction false} StageStep(s: System, t: real, x: Vec, u: Vec, offsets: seq<real>, i: nat, dx: Vec, du: Vec,
                                     eps: real, e1: real, e2: real, d1: real, d2: real, delta: real, g: real, r: real)
    requires s.Shaped() && |x| == |dx| == s.n && |u| == |du| == s.m && 0 < i <= |offsets|
    requires StageWithin(s, t, x, u, offsets, i - 1, e1, d1)
    requires s.FlowWithin(StageTime(t, offsets, i), StagePoint(s, t, x, u, offsets, i), u, e2, d2)
    requires e1 > 0.0 && e2 > 0.0 && g >= 1.0
    requires g == 1.0 + Abs(offsets[i-1]) * (MatNorm(Sensitivity(s, t, x, u, offsets, i - 1).dfdx)
                                             + MatNorm(Sensitivity(s, t, x, u, offsets, i - 1).dfdu) + e1)
    requires e1 * (Abs(offsets[i-1]) * MatNorm(StageLinear(s, t, x, u, offsets, i).dfdx) + 1.0) == eps / 2.0
             && e2 * g == eps / 2.0
    requires delta <= d1 && delta * g <= d2 && AbsSum(dx) + AbsSum(du) <= delta
    requires r == eps * (AbsSum(dx) + AbsSum(du))
    ensures StageClose(s, t, x, u, offsets, i, dx, du, r)
  {
    hide Abs, MatNorm, AbsSum, Add, PointDeviation, StageTime, StageClose, StageWithin, Stage, Sensitivity, StageLinear,
        StagePoint,
         System.FlowWithin;
    var k, prev, c := StageLinear(s, t, x, u, offsets, i), Sensitivity(s, t, x, u, offsets, i - 1), offsets[i-1];
    var w := AbsSum(dx) + AbsSum(du);
    var gap := AbsSum(PointDeviation(Stage(s, t, Add(x, dx), Add(u, du), offsets, i - 1), prev, c, dx)) + AbsSum(du);
    var r1 := e1 * (AbsSum(dx) + AbsSum(du));
    WithinAt(s, t, x, u, offsets, i - 1, e1, d1, dx, du, r1);
    StageGap(s, t, x, u, offsets, i, dx, du, e1, prev, g, r1);
    NormNonnegative(dx);
    NormNonnegative(du);
    AbsNonnegative(c);
    MatNormNonnegative(k.dfdx);
    GapWithin(gap, g, w, delta, delta * g);
    HalfAndHalf(eps, e1, e2, g, gap, w, Abs(c), MatNorm(k.dfdx), r);
    StageChain(s, t, x, u, offsets, i, dx, du, r1, e2, d2, gap, k, prev, r);
  }

  lemma AtLeastOne(c: real, l: real, g: real)
    requires c >= 0.0 && l >= 0.0 && g == 1.0 + c * l
    ensures g >= 1.0
  {
    NonnegativeProduct(c, l);
  }

  /** The sensitivity of every stage is its Frechet derivative. */
  lemma {:induction false} DifferentiableStage(s: System, t: real, x: Vec, u: Vec, offsets: seq<real>, i: nat,
                                               eps: real)
    returns (delta: real)
    requires s.Shaped() && |x| == s.n && |u| == s.m && i <= |offsets| && s.Differentiable() && eps > 0.0
    ensures delta > 0.0 && StageWithin(s, t, x, u, offsets, i, eps, delta)
  {
    hide Abs, MatNorm, AbsSum, Add, PointDeviation, StageTime, StageClose;
    var y := StagePoint(s, t, x, u, offsets, i);
    if i == 0 {
      assert s.DifferentiableAt(t, x, u, eps);
      delta :| delta > 0.0 && s.FlowWithin(t, x, u, eps, delta);
      forall dx: Vec, du: Vec | |dx| == s.n && |du| == s.m && AbsSum(dx) + AbsSum(du) <= delta
        ensures StageClose(s, t, x, u, offsets, i, dx, du, eps * (AbsSum(dx) + AbsSum(du)))
      {
        FirstStageClose(s, t, x, u, offsets, dx, du, eps, delta, eps * (AbsSum(dx) + AbsSum(du)));
      }
    } else {
      var k, prev, c := StageLinear(s, t, x, u, offsets, i), Sensitivity(s, t, x, u, offsets, i - 1), offsets[i-1];
      var n := MatNorm(k.dfdx);
      AbsNonnegative(c);
      MatNormNonnegative(k.dfdx);
      MatNormNonnegative(prev.dfdx);
      MatNormNonnegative(prev.dfdu);
      AtLeastOne(Abs(c), n, 1.0 + Abs(c) * n);
      var e1 := Fraction(eps / 2.0, Abs(c) * n + 1.0);
      var g := 1.0 + Abs(c) * (MatNorm(prev.dfdx) + MatNorm(prev.dfdu) + e1);
      AtLeastOne(Abs(c), MatNorm(prev.dfdx) + MatNorm(prev.dfdu) + e1, g);
      var e2 := Fraction(eps / 2.0, g);
      var d1 := DifferentiableStage(s, t, x, u, offsets, i - 1, e1);
      assert s.DifferentiableAt(StageTime(t, offsets, i), y, u, e2);
      var d2: real :| d2 > 0.0 && s.FlowWithin(StageTime(t, offsets, i), y, u, e2, d2);
      var d3 := Fraction(d2, g);
      delta := if d1 < d3 then d1 else d3;
      Monotone(delta, d3, g);
      forall dx: Vec, du: Vec | |dx| == s.n && |du| == s.m && AbsSum(dx) + AbsSum(du) <= delta
        ensures StageClose(s, t, x, u, offsets, i, dx, du, eps * (AbsSum(dx) + AbsSum(du)))
      {
        StageStep(s, t, x, u, offsets, i, dx, du, eps, e1, e2, d1, d2, delta, g, eps * (AbsSum(dx) + AbsSum(du)));
      }
    }
  }

  // ----- weighted sums of stages

  /** x plus the first i slopes, weighted. */
  function SlopeSum(s: System, t: real, x: Vec, u: Vec, offsets: seq<real>, weights: seq<real>, i: nat): (r: Vec)
    requires s.Shaped() && |x| == s.n && |u| == s.m && i <= |weights| == |offsets| + 1
    ensures |r| == s.n
  {
    if i == 0 then x
    else Add(SlopeSum(s, t, x, u, offsets, weights, i - 1), Scale(weights[i-1], Stage(s, t, x, u, offsets, i - 1)))
  }

  function Weigh(sum: LinearApprox, w: real, k: LinearApprox, n: nat, m: nat): (r: LinearApprox)
    requires Square(sum, n, m) && Square(k, n, m)
    ensures Square(r, n, m)
  {
    LinearApprox(Add(sum.f, Scale(w, k.f)), MAdd(sum.dfdx, MScale(w, k.dfdx)), MAdd(sum.dfdu, MScale(w, k.dfdu)))
  }

  /** The discrete-time linearisation: identity plus the weighted sensitivities of the first i stages. */
  function SensitivitySum(s: System, t: real, x: Vec, u: Vec, offsets: seq<real>, weights: seq<real>,
                          i: nat): (r: LinearApprox)
    requires s.Shaped() && |x| == s.n && |u| == s.m && i <= |weights| == |offsets| + 1
    ensures Square(r, s.n, s.m) && r.f == SlopeSum(s, t, x, u, offsets, weights, i)
  {
    if i == 0 then LinearApprox(x, Identity(s.n), ZeroMat(s.n, s.m))
    else Weigh(SensitivitySum(s, t, x, u, offsets, weights, i - 1), weights[i-1],
               Sensitivity(s, t, x, u, offsets, i - 1), s.n, s.m)
  }

  lemma StartClose(x: Vec, dx: Vec, du: Vec)
    requires |x| == |dx|
    ensures Close(Add(x, dx), LinearApprox(x, Identity(|x|), ZeroMat(|x|, |du|)), dx, du, 0.0)
  {
    var a := LinearApprox(x, Identity(|x|), ZeroMat(|x|, |du|));
    IdentityMulV(dx);
    ZeroMatMulV(|x|, du);
    assert Sub(Add(x, dx), Add(x, Variation(a, dx, du))) == Zeros(|x|);
    ZeroNorm(|x|);
  }

  lemma ZeroNorm(n: nat)
    ensures AbsSum(Zeros(n)) == 0.0
  {
    assert Scale(0.0, Zeros(n)) == Zeros(n);
    NormScale(0.0, Zeros(n));
  }

  lemma WeighVariation(sum: LinearApprox, w: real, k: LinearApprox, dx: Vec, du: Vec)
    requires Square(sum, |dx|, |du|) && Square(k, |dx|, |du|)
    ensures Variation(Weigh(sum, w, k, |dx|, |du|), dx, du)
            == Add(Variation(sum, dx, du), Scale(w, Variation(k, dx, du)))
  {
    hide MulV;
    MAddMulV(sum.dfdx, MScale(w, k.dfdx), dx);
    MScaleMulV(w, k.dfdx, dx);
    MAddMulV(sum.dfdu, MScale(w, k.dfdu), du);
    MScaleMulV(w, k.dfdu, du);
    var kx, ku := MulV(k.dfdx, dx), MulV(k.dfdu, du);
    var l := Variation(Weigh(sum, w, k, |dx|, |du|), dx, du);
    var r := Add(Variation(sum, dx, du), Scale(w, Add(kx, ku)));
    forall j | 0 <= j < |dx|
      ensures l[j] == r[j]
    {
      Distribute(kx[j], ku[j], w);
    }
  }

  lemma WeighClose(v: Vec, sum: LinearApprox, w: real, p: Vec, k: LinearApprox, dx: Vec, du: Vec, r1: real, r2: real,
                   r: real)
    requires Close(v, sum, dx, du, r1) && Close(p, k, dx, du, r2) && r1 + Abs(w) * r2 <= r
    ensures Close(Add(v, Scale(w, p)), Weigh(sum, w, k, |dx|, |du|), dx, du, r)
  {
    hide Abs, AbsSum, Variation;
    WeighVariation(sum, w, k, dx, du);
    var e1, e2 := Error(v, sum, dx, du), Error(p, k, dx, du);
    var l := Error(Add(v, Scale(w, p)), Weigh(sum, w, k, |dx|, |du|), dx, du);
    var vk := Variation(k, dx, du);
    forall j | 0 <= j < |dx|
      ensures l[j] == Add(e1, Scale(w, e2))[j]
    {
      Distribute(p[j], -(k.f[j] + vk[j]), w);
      Distribute(k.f[j], vk[j], w);
    }
    assert l == Add(e1, Scale(w, e2));
    Triangle(e1, Scale(w, e2));
    NormScale(w, e2);
    AbsNonnegative(w);
    Monotone(AbsSum(e2), r2, Abs(w));
  }

  ghost predicate SumClose(s: System, t: real, x: Vec, u: Vec, offsets: seq<real>, weights: seq<real>, i: nat, dx: Vec,
                           du: Vec, r: real)
    requires s.Shaped() && |x| == |dx| == s.n && |u| == |du| == s.m && i <= |weights| == |offsets| + 1
  {
    Close(SlopeSum(s, t, Add(x, dx), Add(u, du), offsets, weights, i), SensitivitySum(s, t, x, u, offsets, weights, i),
          dx, du, r)
  }

  lemma SumStep(s: System, t: real, x: Vec, u: Vec, offsets: seq<real>, weights: seq<real>, i: nat, dx: Vec, du: Vec,
                r1: real, r2: real, r: real)
    requires s.Shaped() && |x| == |dx| == s.n && |u| == |du| == s.m && 0 < i <= |weights| == |offsets| + 1
    requires SumClose(s, t, x, u, offsets, weights, i - 1, dx, du, r1)
    requires StageClose(s, t, x, u, offsets, i - 1, dx, du, r2)
    requires r1 + Abs(weights[i-1]) * r2 <= r
    ensures SumClose(s, t, x, u, offsets, weights, i, dx, du, r)
  {
    hide Close, Abs, AbsSum, Variation, Stage, Sensitivity, Scale, Add;
    WeighClose(SlopeSum(s, t, Add(x, dx), Add(u, du), offsets, weights, i - 1),
               SensitivitySum(s, t, x, u, offsets, weights, i - 1), weights[i-1],
               Stage(s, t, Add(x, dx), Add(u, du), offsets, i - 1), Sensitivity(s, t, x, u, offsets, i - 1), dx, du, r1,
                   r2, r);
  }

  lemma {:induction false} AffineSum(s: System, t: real, x: Vec, u: Vec, offsets: seq<real>, weights: seq<real>, i: nat,
                                     dx: Vec, du: Vec)
    requires s.Shaped() && |x| == |dx| == s.n && |u| == |du| == s.m && i <= |weights| == |offsets| + 1 && s.Affine()
    ensures SumClose(s, t, x, u, offsets, weights, i, dx, du, 0.0)
  {
    hide Close, Abs, AbsSum, Variation, Stage, Sensitivity, StageClose, Add;
    if i == 0 {
      StartClose(x, dx, du);
    } else {
      AffineSum(s, t, x, u, offsets, weights, i - 1, dx, du);
      AffineStage(s, t, x, u, offsets, i - 1, dx, du);
      SumStep(s, t, x, u, offsets, weights, i, dx, du, 0.0, 0.0, 0.0);
    }
  }

  /** v' is the derivative's prediction without error. */
  lemma NoErrorIsEqual(v: Vec, a: LinearApprox, dx: Vec, du: Vec)
    requires Close(v, a, dx, du, 0.0)
    ensures v == Add(a.f, Variation(a, dx, du))
  {
    hide Variation, AbsSum;
    var e := Error(v, a, dx, du);
    NormNonnegative(e);
    forall j | 0 <= j < |v|
      ensures v[j] == Add(a.f, Variation(a, dx, du))[j]
    {
      assert e[j] == 0.0;
    }
  }

  /** The step from x + dx and u + du is predicted to eps per unit of deviation, for deviations up to delta. */
  ghost predicate SumWithin(s: System, t: real, x: Vec, u: Vec, offsets: seq<real>, weights: seq<real>, i: nat,
                            eps: real, delta: real)
    requires s.Shaped() && |x| == s.n && |u| == s.m && i <= |weights| == |offsets| + 1
  {
    forall dx: Vec, du: Vec {:trigger Add(x, dx), Add(u, du)}
      | |dx| == s.n && |du| == s.m && AbsSum(dx) + AbsSum(du) <= delta ::
      SumClose(s, t, x, u, offsets, weights, i, dx, du, eps * (AbsSum(dx) + AbsSum(du)))
  }

  lemma SumWithinAt(s: System, t: real, x: Vec, u: Vec, offsets: seq<real>, weights: seq<real>, i: nat, eps: real,
                    delta: real, dx: Vec, du: Vec, r: real)
    requires s.Shaped() && |x| == |dx| == s.n && |u| == |du| == s.m && i <= |weights| == |offsets| + 1
    requires SumWithin(s, t, x, u, offsets, weights, i, eps, delta)
    requires AbsSum(dx) + AbsSum(du) <= delta && r == eps * (AbsSum(dx) + AbsSum(du))
    ensures SumClose(s, t, x, u, offsets, weights, i, dx, du, r)
  {
    hide AbsSum, SlopeSum, SensitivitySum;
    var dx', du' := Add(x, dx), Add(u, du);
    assert SumClose(s, t, x, u, offsets, weights, i, dx, du, eps * (AbsSum(dx) + AbsSum(du)));
  }

  lemma Halves(eps: real, e2: real, c: real, w: real)
    requires c >= 0.0 && w >= 0.0 && e2 >= 0.0 && e2 * (c + 1.0) == eps / 2.0
    ensures (eps / 2.0) * w + c * (e2 * w) <= eps * w
  {
    assert e2 * c <= eps / 2.0;
    Monotone(e2 * c, eps / 2.0, w);
    assert c * (e2 * w) == (e2 * c) * w;
  }

  lemma {:induction false} DifferentiableSum(s: System, t: real, x: Vec, u: Vec, offsets: seq<real>, weights: seq<real>,
                                             i: nat, eps: real)
    returns (delta: real)
    requires s.Shaped() && |x| == s.n && |u| == s.m && i <= |weights| == |offsets| + 1 && s.Differentiable()
             && eps > 0.0
    ensures delta > 0.0 && SumWithin(s, t, x, u, offsets, weights, i, eps, delta)
  {
    hide Close, Abs, AbsSum, Variation, Stage, Sensitivity, StageClose, StageWithin, Add;
    if i == 0 {
      delta := 1.0;
      forall dx: Vec, du: Vec | |dx| == s.n && |du| == s.m && AbsSum(dx) + AbsSum(du) <= delta
        ensures SumClose(s, t, x, u, offsets, weights, i, dx, du, eps * (AbsSum(dx) + AbsSum(du)))
      {
        StartWithin(s, t, x, u, offsets, weights, dx, du, eps, eps * (AbsSum(dx) + AbsSum(du)));
      }
    } else {
      var d1 := DifferentiableSum(s, t, x, u, offsets, weights, i - 1, eps / 2.0);
      AbsNonnegative(weights[i-1]);
      var e2 := Fraction(eps / 2.0, Abs(weights[i-1]) + 1.0);
      var d2 := DifferentiableStage(s, t, x, u, offsets, i - 1, e2);
      delta := if d1 < d2 then d1 else d2;
      forall dx: Vec, du: Vec | |dx| == s.n && |du| == s.m && AbsSum(dx) + AbsSum(du) <= delta
        ensures SumClose(s, t, x, u, offsets, weights, i, dx, du, eps * (AbsSum(dx) + AbsSum(du)))
      {
        SumStepWithin(s, t, x, u, offsets, weights, i, dx, du, eps, e2, d1, d2, eps * (AbsSum(dx) + AbsSum(du)));
      }
    }
  }

  lemma StartWithin(s: System, t: real, x: Vec, u: Vec, offsets: seq<real>, weights: seq<real>, dx: Vec, du: Vec,
                    eps: real, r: real)
    requires s.Shaped() && |x| == |dx| == s.n && |u| == |du| == s.m && |weights| == |offsets| + 1
    requires eps > 0.0 && r == eps * (AbsSum(dx) + AbsSum(du))
    ensures SumClose(s, t, x, u, offsets, weights, 0, dx, du, r)
  {
    hide AbsSum, Variation;
    StartClose(x, dx, du);
    NormNonnegative(dx);
    NormNonnegative(du);
    NonnegativeProduct(eps, AbsSum(dx) + AbsSum(du));
  }

  lemma SumStepWithin(s: System, t: real, x: Vec, u: Vec, offsets: seq<real>, weights: seq<real>, i: nat, dx: Vec,
                      du: Vec, eps: real, e2: real, d1: real, d2: real, r: real)
    requires s.Shaped() && |x| == |dx| == s.n && |u| == |du| == s.m && 0 < i <= |weights| == |offsets| + 1
    requires SumWithin(s, t, x, u, offsets, weights, i - 1, eps / 2.0, d1)
    requires StageWithin(s, t, x, u, offsets, i - 1, e2, d2)
    requires e2 > 0.0 && e2 * (Abs(weights[i-1]) + 1.0) == eps / 2.0
    requires AbsSum(dx) + AbsSum(du) <= d1 && AbsSum(dx) + AbsSum(du) <= d2 && r == eps * (AbsSum(dx) + AbsSum(du))
    ensures SumClose(s, t, x, u, offsets, weights, i, dx, du, r)
  {
    hide Close, Abs, AbsSum, Variation, Stage, Sensitivity, StageClose, StageWithin, SumWithin, SumClose, SlopeSum,
        SensitivitySum, Add;
    var w := AbsSum(dx) + AbsSum(du);
    var r1, r2 := (eps / 2.0) * w, e2 * w;
    SumWithinAt(s, t, x, u, offsets, weights, i - 1, eps / 2.0, d1, dx, du, r1);
    WithinAt(s, t, x, u, offsets, i - 1, e2, d2, dx, du, r2);
    NormNonnegative(dx);
    NormNonnegative(du);
    AbsNonnegative(weights[i-1]);
    Halves(eps, e2, Abs(weights[i-1]), w);
    SumStep(s, t, x, u, offsets, weights, i, dx, du, r1, r2, r);
  }

  // ----- the three integrators

  function ComputeFlowMap(s: System, t: real, x: Vec, u: Vec): (f: Vec)
    requires s.Shaped() && |x| == s.n && |u| == s.m
    ensures |f| == s.n
  {
    assert s.ShapedAt(t, x, u);
    s.flow(t, x, u)
  }

  function LinearApproximation(s: System, t: real, x: Vec, u: Vec): (k: LinearApprox)
    requires s.Shaped() && |x| == s.n && |u| == s.m
    ensures Square(k, s.n, s.m) && k.f == ComputeFlowMap(s, t, x, u)
  {
    assert s.ShapedAt(t, x, u);
    s.linearise(t, x, u)
  }

  function EulerDiscretization(s: System, t: real, x: Vec, u: Vec, dt: real): (r: Vec)
    requires s.Shaped() && |x| == s.n && |u| == s.m
    ensures |r| == s.n
  {
    Add(x, Scale(dt, ComputeFlowMap(s, t, x, u)))
  }

  function Rk2Discretization(s: System, t: real, x: Vec, u: Vec, dt: real): (r: Vec)
    requires s.Shaped() && |x| == s.n && |u| == s.m
    ensures |r| == s.n
  {
    var half := dt / 2.0;
    var k1 := ComputeFlowMap(s, t, x, u);
    var k2 := ComputeFlowMap(s, t + dt, Add(x, Scale(dt, k1)), u);
    Add(Add(x, Scale(half, k1)), Scale(half, k2))
  }

  function Rk4Discretization(s: System, t: real, x: Vec, u: Vec, dt: real): (r: Vec)
    requires s.Shaped() && |x| == s.n && |u| == s.m
    ensures |r| == s.n
  {
    var half, sixth, third := dt / 2.0, dt / 6.0, dt / 3.0;
    var k1 := ComputeFlowMap(s, t, x, u);
    var k2 := ComputeFlowMap(s, t + half, Add(x, Scale(half, k1)), u);
    var k3 := ComputeFlowMap(s, t + half, Add(x, Scale(half, k2)), u);
    var k4 := ComputeFlowMap(s, t + dt, Add(x, Scale(dt, k3)), u);
    Add(Add(Add(Add(x, Scale(sixth, k1)), Scale(third, k2)), Scale(third, k3)), Scale(sixth, k4))
  }

  datatype Scheme = Euler | Rk2 | Rk4 {
    function Offsets(dt: real): seq<real> {
      match this
      case Euler => []
      case Rk2 => [dt]
      case Rk4 => [dt / 2.0, dt / 2.0, dt]
    }

    function Weights(dt: real): (w: seq<real>)
      ensures |w| == |Offsets(dt)| + 1
    {
      match this
      case Euler => [dt]
      case Rk2 => [dt / 2.0, dt / 2.0]
      case Rk4 => [dt / 6.0, dt / 3.0, dt / 3.0, dt / 6.0]
    }

    function Discretization(s: System, t: real, x: Vec, u: Vec, dt: real): (r: Vec)
      requires s.Shaped() && |x| == s.n && |u| == s.m
      ensures |r| == s.n
    {
      match this
      case Euler => EulerDiscretization(s, t, x, u, dt)
      case Rk2 => Rk2Discretization(s, t, x, u, dt)
      case Rk4 => Rk4Discretization(s, t, x, u, dt)
    }
  }

  /** The sensitivities of the scheme's stages, summed up. */
  function DiscreteSensitivity(c: Scheme, s: System, t: real, x: Vec, u: Vec, dt: real): (r: LinearApprox)
    requires s.Shaped() && |x| == s.n && |u| == s.m
    ensures Square(r, s.n, s.m)
  {
    SensitivitySum(s, t, x, u, c.Offsets(dt), c.Weights(dt), |c.Weights(dt)|)
  }

  lemma SchemeSums(c: Scheme, s: System, t: real, x: Vec, u: Vec, dt: real)
    requires s.Shaped() && |x| == s.n && |u| == s.m
    ensures c.Discretization(s, t, x, u, dt) == SlopeSum(s, t, x, u, c.Offsets(dt), c.Weights(dt), |c.Weights(dt)|)
  {
    hide Add, Scale;
    var offsets, weights := c.Offsets(dt), c.Weights(dt);
    StagesUnfold(s, t, x, u, offsets, 0);
    SumUnfolds(s, t, x, u, offsets, weights, 0);
    if c.Rk2? {
      StagesUnfold(s, t, x, u, offsets, 1);
      SumUnfolds(s, t, x, u, offsets, weights, 1);
    } else if c.Rk4? {
      StagesUnfold(s, t, x, u, offsets, 1);
      StagesUnfold(s, t, x, u, offsets, 2);
      StagesUnfold(s, t, x, u, offsets, 3);
      SumUnfolds(s, t, x, u, offsets, weights, 1);
      SumUnfolds(s, t, x, u, offsets, weights, 2);
      SumUnfolds(s, t, x, u, offsets, weights, 3);
    }
  }

  lemma StagesUnfold(s: System, t: real, x: Vec, u: Vec, offsets: seq<real>, i: nat)
    requires s.Shaped() && |x| == s.n && |u| == s.m && i <= |offsets|
    ensures Stage(s, t, x, u, offsets, i)
            == ComputeFlowMap(s, StageTime(t, offsets, i), StagePoint(s, t, x, u, offsets, i), u)
    ensures i > 0 ==>
              StagePoint(s, t, x, u, offsets, i) == Add(x, Scale(offsets[i-1], Stage(s, t, x, u, offsets, i - 1)))
    ensures i == 0 ==> StagePoint(s, t, x, u, offsets, i) == x
  {
  }

  lemma SumUnfolds(s: System, t: real, x: Vec, u: Vec, offsets: seq<real>, weights: seq<real>, i: nat)
    requires s.Shaped() && |x| == s.n && |u| == s.m && i < |weights| == |offsets| + 1
    ensures SlopeSum(s, t, x, u, offsets, weights, 0) == x
    ensures SlopeSum(s, t, x, u, offsets, weights, i + 1)
            == Add(SlopeSum(s, t, x, u, offsets, weights, i), Scale(weights[i], Stage(s, t, x, u, offsets, i)))
  {
  }

  // ----- what the sensitivities mean

  /** The linearisation a gives the discretisation of every perturbed state and input exactly. */
  ghost predicate Exact(c: Scheme, s: System, t: real, x: Vec, u: Vec, dt: real, a: LinearApprox)
    requires s.Shaped() && |x| == s.n && |u| == s.m && Square(a, s.n, s.m)
  {
    forall dx: Vec, du: Vec | |dx| == s.n && |du| == s.m ::
      c.Discretization(s, t, Add(x, dx), Add(u, du), dt) == Add(a.f, Variation(a, dx, du))
  }

  /**
   * The discretisation at (x + dx, u + du) is within eps (|dx| + |du|) of f + A dx + B du for deviations up to delta.
   */
  ghost predicate Within(c: Scheme, s: System, t: real, x: Vec, u: Vec, dt: real, a: LinearApprox, eps: real,
                         delta: real)
    requires s.Shaped() && |x| == s.n && |u| == s.m && Square(a, s.n, s.m)
  {
    forall dx: Vec, du: Vec {:trigger Add(x, dx), Add(u, du)}
      | |dx| == s.n && |du| == s.m && AbsSum(dx) + AbsSum(du) <= delta ::
      AbsSum(Sub(c.Discretization(s, t, Add(x, dx), Add(u, du), dt), Add(a.f, Variation(a, dx, du))))
      <= eps * (AbsSum(dx) + AbsSum(du))
  }

  ghost predicate SomeRadius(c: Scheme, s: System, t: real, x: Vec, u: Vec, dt: real, a: LinearApprox, eps: real)
    requires s.Shaped() && |x| == s.n && |u| == s.m && Square(a, s.n, s.m)
  {
    exists delta: real :: delta > 0.0 && Within(c, s, t, x, u, dt, a, eps, delta)
  }

  /** a is the Frechet derivative of the discretisation at (x, u). */
  ghost predicate IsDerivative(c: Scheme, s: System, t: real, x: Vec, u: Vec, dt: real, a: LinearApprox)
    requires s.Shaped() && |x| == s.n && |u| == s.m && Square(a, s.n, s.m)
  {
    forall eps: real | eps > 0.0 :: SomeRadius(c, s, t, x, u, dt, a, eps)
  }

  lemma AffineIsExact(c: Scheme, s: System, t: real, x: Vec, u: Vec, dt: real)
    requires s.Shaped() && |x| == s.n && |u| == s.m && s.Affine()
    ensures Exact(c, s, t, x, u, dt, DiscreteSensitivity(c, s, t, x, u, dt))
  {
    hide Close, Add, Variation, SlopeSum, SensitivitySum;
    var offsets, weights := c.Offsets(dt), c.Weights(dt);
    var a := DiscreteSensitivity(c, s, t, x, u, dt);
    forall dx: Vec, du: Vec | |dx| == s.n && |du| == s.m
      ensures c.Discretization(s, t, Add(x, dx), Add(u, du), dt) == Add(a.f, Variation(a, dx, du))
    {
      AffineSum(s, t, x, u, offsets, weights, |weights|, dx, du);
      SchemeSums(c, s, t, Add(x, dx), Add(u, du), dt);
      NoErrorIsEqual(SlopeSum(s, t, Add(x, dx), Add(u, du), offsets, weights, |weights|), a, dx, du);
    }
  }

  lemma DifferentiableHasDerivative(c: Scheme, s: System, t: real, x: Vec, u: Vec, dt: real)
    requires s.Shaped() && |x| == s.n && |u| == s.m && s.Differentiable()
    ensures IsDerivative(c, s, t, x, u, dt, DiscreteSensitivity(c, s, t, x, u, dt))
  {
    hide SumClose, SumWithin;
    var offsets, weights := c.Offsets(dt), c.Weights(dt);
    var a := DiscreteSensitivity(c, s, t, x, u, dt);
    forall eps: real | eps > 0.0
      ensures SomeRadius(c, s, t, x, u, dt, a, eps)
    {
      var delta := DifferentiableSum(s, t, x, u, offsets, weights, |weights|, eps);
      SumMeansWithin(c, s, t, x, u, dt, eps, delta);
      assert Within(c, s, t, x, u, dt, a, eps, delta);
    }
  }

  lemma SumMeansWithin(c: Scheme, s: System, t: real, x: Vec, u: Vec, dt: real, eps: real, delta: real)
    requires s.Shaped() && |x| == s.n && |u| == s.m
    requires SumWithin(s, t, x, u, c.Offsets(dt), c.Weights(dt), |c.Weights(dt)|, eps, delta)
    ensures Within(c, s, t, x, u, dt, DiscreteSensitivity(c, s, t, x, u, dt), eps, delta)
  {
    hide SumWithin, AbsSum, Add, Variation, SlopeSum, SensitivitySum;
    var offsets, weights := c.Offsets(dt), c.Weights(dt);
    var a := DiscreteSensitivity(c, s, t, x, u, dt);
    forall dx: Vec, du: Vec | |dx| == s.n && |du| == s.m && AbsSum(dx) + AbsSum(du) <= delta
      ensures AbsSum(Sub(c.Discretization(s, t, Add(x, dx), Add(u, du), dt), Add(a.f, Variation(a, dx, du))))
              <= eps * (AbsSum(dx) + AbsSum(du))
    {
      SumWithinAt(s, t, x, u, offsets, weights, |weights|, eps, delta, dx, du, eps * (AbsSum(dx) + AbsSum(du)));
      SchemeSums(c, s, t, Add(x, dx), Add(u, du), dt);
    }
  }

  // ----- the methods, which overwrite the Jacobians of the stages by their sensitivities

  lemma MAddAssociates(a: Mat, b: Mat, c: Mat)
    requires SameShape(a, b) && SameShape(b, c)
    ensures MAdd(MAdd(a, b), c) == MAdd(a, MAdd(b, c))
  {
    MatricesEqual(MAdd(MAdd(a, b), c), MAdd(a, MAdd(b, c)));
  }

  lemma MAddCommutes(a: Mat, b: Mat)
    requires SameShape(a, b)
    ensures MAdd(a, b) == MAdd(b, a)
  {
    MatricesEqual(MAdd(a, b), MAdd(b, a));
  }

  lemma ZeroMAdd(a: Mat)
    ensures MAdd(ZeroMat(|a.rows|, a.cols), a) == a
  {
    MatricesEqual(MAdd(ZeroMat(|a.rows|, a.cols), a), a);
  }

  lemma SensitivitiesUnfold(s: System, t: real, x: Vec, u: Vec, offsets: seq<real>, i: nat)
    requires s.Shaped() && |x| == s.n && |u| == s.m && i <= |offsets|
    ensures StageLinear(s, t, x, u, offsets, i)
            == LinearApproximation(s, StageTime(t, offsets, i), StagePoint(s, t, x, u, offsets, i), u)
    ensures Sensitivity(s, t, x, u, offsets, i)
            == if i == 0 then StageLinear(s, t, x, u, offsets, i)
               else Chain(StageLinear(s, t, x, u, offsets, i), Sensitivity(s, t, x, u, offsets, i - 1), offsets[i-1],
                          s.n, s.m)
  {
  }

  lemma SensitivitySumsUnfold(s: System, t: real, x: Vec, u: Vec, offsets: seq<real>, weights: seq<real>, i: nat)
    requires s.Shaped() && |x| == s.n && |u| == s.m && i < |weights| == |offsets| + 1
    ensures SensitivitySum(s, t, x, u, offsets, weights, 0) == LinearApprox(x, Identity(s.n), ZeroMat(s.n, s.m))
    ensures SensitivitySum(s, t, x, u, offsets, weights, i + 1)
            == Weigh(SensitivitySum(s, t, x, u, offsets, weights, i), weights[i], Sensitivity(s, t, x, u, offsets, i),
                     s.n, s.m)
  {
  }

  method EulerSensitivityDiscretization(s: System, t: real, x: Vec, u: Vec, dt: real) returns (k: LinearApprox)
    requires s.Shaped() && |x| == s.n && |u| == s.m
    ensures Square(k, s.n, s.m) && k.f == EulerDiscretization(s, t, x, u, dt)
    ensures s.Affine() ==> Exact(Euler, s, t, x, u, dt, k)
    ensures s.Differentiable() ==> IsDerivative(Euler, s, t, x, u, dt, k)
  {
    k := LinearApproximation(s, t, x, u);
    ghost var k1 := k;
    k := k.(dfdx := MScale(dt, k.dfdx));
    k := k.(dfdx := MAdd(k.dfdx, Identity(s.n)));
    k := k.(dfdu := MScale(dt, k.dfdu));
    k := k.(f := Add(x, Scale(dt, k.f)));
    assert k == DiscreteSensitivity(Euler, s, t, x, u, dt) by {
      SensitivitiesUnfold(s, t, x, u, [], 0);
      SensitivitySumsUnfold(s, t, x, u, [], [dt], 0);
      MAddCommutes(MScale(dt, k1.dfdx), Identity(s.n));
      ZeroMAdd(MScale(dt, k1.dfdu));
    }
    Meaning(Euler, s, t, x, u, dt);
  }

  lemma Meaning(c: Scheme, s: System, t: real, x: Vec, u: Vec, dt: real)
    requires s.Shaped() && |x| == s.n && |u| == s.m
    ensures s.Affine() ==> Exact(c, s, t, x, u, dt, DiscreteSensitivity(c, s, t, x, u, dt))
    ensures s.Differentiable() ==> IsDerivative(c, s, t, x, u, dt, DiscreteSensitivity(c, s, t, x, u, dt))
  {
    hide Exact, IsDerivative, DiscreteSensitivity;
    if s.Affine() {
      AffineIsExact(c, s, t, x, u, dt);
    }
    if s.Differentiable() {
      DifferentiableHasDerivative(c, s, t, x, u, dt);
    }
  }

  /** Two weighted sensitivities, added up and then added to the identity. */
  lemma AssembleTwo(s: System, t: real, x: Vec, u: Vec, dt: real, k1: LinearApprox, k2: LinearApprox)
    requires s.Shaped() && |x| == s.n && |u| == s.m
    requires k1 == Sensitivity(s, t, x, u, Rk2.Offsets(dt), 0) && k2 == Sensitivity(s, t, x, u, Rk2.Offsets(dt), 1)
    ensures DiscreteSensitivity(Rk2, s, t, x, u, dt) == LinearApprox(
      Add(Add(x, Scale(dt / 2.0, k1.f)), Scale(dt / 2.0, k2.f)),
      MAdd(MAdd(MScale(dt / 2.0, k1.dfdx), MScale(dt / 2.0, k2.dfdx)), Identity(s.n)),
      MAdd(MScale(dt / 2.0, k1.dfdu), MScale(dt / 2.0, k2.dfdu)))
  {
    hide Add, Scale, MAdd, MScale, Sensitivity;
    var offsets, weights := Rk2.Offsets(dt), Rk2.Weights(dt);
    SensitivitySumsUnfold(s, t, x, u, offsets, weights, 0);
    SensitivitySumsUnfold(s, t, x, u, offsets, weights, 1);
    var a, b := MScale(dt / 2.0, k1.dfdx), MScale(dt / 2.0, k2.dfdx);
    MAddAssociates(Identity(s.n), a, b);
    MAddCommutes(Identity(s.n), MAdd(a, b));
    ZeroMAdd(MScale(dt / 2.0, k1.dfdu));
  }

  method Rk2SensitivityDiscretization(s: System, t: real, x: Vec, u: Vec, dt: real) returns (k1: LinearApprox)
    requires s.Shaped() && |x| == s.n && |u| == s.m
    ensures Square(k1, s.n, s.m) && k1.f == Rk2Discretization(s, t, x, u, dt)
    ensures s.Affine() ==> Exact(Rk2, s, t, x, u, dt, k1)
    ensures s.Differentiable() ==> IsDerivative(Rk2, s, t, x, u, dt, k1)
  {
    var half := dt / 2.0;
    k1 := LinearApproximation(s, t, x, u);
    var k2 := LinearApproximation(s, t + dt, Add(x, Scale(dt, k1.f)), u);
    ghost var offsets := Rk2.Offsets(dt);
    SensitivitiesUnfold(s, t, x, u, offsets, 0);
    SensitivitiesUnfold(s, t, x, u, offsets, 1);
    StagesUnfold(s, t, x, u, offsets, 1);

    k2 := k2.(dfdu := MAdd(k2.dfdu, Mul(MScale(dt, k2.dfdx), k1.dfdu)));
    k2 := k2.(dfdx := MAdd(k2.dfdx, Mul(MScale(dt, k2.dfdx), k1.dfdx)));
    AssembleTwo(s, t, x, u, dt, k1, k2);

    k1 := k1.(dfdx := MAdd(MScale(half, k1.dfdx), MScale(half, k2.dfdx)));
    k1 := k1.(dfdx := MAdd(k1.dfdx, Identity(s.n)));
    k1 := k1.(dfdu := MAdd(MScale(half, k1.dfdu), MScale(half, k2.dfdu)));
    k1 := k1.(f := Add(Add(x, Scale(half, k1.f)), Scale(half, k2.f)));
    Meaning(Rk2, s, t, x, u, dt);
  }

  lemma AssembleFour(s: System, t: real, x: Vec, u: Vec, dt: real, k1: LinearApprox, k2: LinearApprox, k3: LinearApprox,
                     k4: LinearApprox)
    requires s.Shaped() && |x| == s.n && |u| == s.m
    requires k1 == Sensitivity(s, t, x, u, Rk4.Offsets(dt), 0) && k2 == Sensitivity(s, t, x, u, Rk4.Offsets(dt), 1)
    requires k3 == Sensitivity(s, t, x, u, Rk4.Offsets(dt), 2) && k4 == Sensitivity(s, t, x, u, Rk4.Offsets(dt), 3)
    ensures DiscreteSensitivity(Rk4, s, t, x, u, dt) == LinearApprox(
      Add(Add(Add(Add(x, Scale(dt / 6.0, k1.f)), Scale(dt / 3.0, k2.f)), Scale(dt / 3.0, k3.f)), Scale(dt / 6.0, k4.f)),
      MAdd(MAdd(MAdd(MAdd(MScale(dt / 6.0, k1.dfdx), MScale(dt / 3.0, k2.dfdx)), MScale(dt / 3.0, k3.dfdx)),
                MScale(dt / 6.0, k4.dfdx)), Identity(s.n)),
      MAdd(MAdd(MAdd(MScale(dt / 6.0, k1.dfdu), MScale(dt / 3.0, k2.dfdu)), MScale(dt / 3.0, k3.dfdu)),
           MScale(dt / 6.0, k4.dfdu)))
  {
    hide Add, Scale, MAdd, MScale, Sensitivity;
    var offsets, weights := Rk4.Offsets(dt), Rk4.Weights(dt);
    SensitivitySumsUnfold(s, t, x, u, offsets, weights, 0);
    SensitivitySumsUnfold(s, t, x, u, offsets, weights, 1);
    SensitivitySumsUnfold(s, t, x, u, offsets, weights, 2);
    SensitivitySumsUnfold(s, t, x, u, offsets, weights, 3);
    var a, b := MScale(dt / 6.0, k1.dfdx), MScale(dt / 3.0, k2.dfdx);
    var c, d := MScale(dt / 3.0, k3.dfdx), MScale(dt / 6.0, k4.dfdx);
    var identity := Identity(s.n);
    MAddAssociates(identity, a, b);
    MAddAssociates(identity, MAdd(a, b), c);
    MAddAssociates(identity, MAdd(MAdd(a, b), c), d);
    MAddCommutes(identity, MAdd(MAdd(MAdd(a, b), c), d));
    ZeroMAdd(MScale(dt / 6.0, k1.dfdu));
  }

  method Rk4SensitivityDiscretization(s: System, t: real, x: Vec, u: Vec, dt: real) returns (k1: LinearApprox)
    requires s.Shaped() && |x| == s.n && |u| == s.m
    ensures Square(k1, s.n, s.m) && k1.f == Rk4Discretization(s, t, x, u, dt)
    ensures s.Affine() ==> Exact(Rk4, s, t, x, u, dt, k1)
    ensures s.Differentiable() ==> IsDerivative(Rk4, s, t, x, u, dt, k1)
  {
    hide Exact, IsDerivative, Add, Scale, Mul, MScale, MAdd, LinearApproximation, ComputeFlowMap, DiscreteSensitivity,
        Sensitivity;
    var half, sixth, third := dt / 2.0, dt / 6.0, dt / 3.0;
    k1 := LinearApproximation(s, t, x, u);
    var tmpV := Add(x, Scale(half, k1.f));
    var k2 := LinearApproximation(s, t + half, tmpV, u);
    tmpV := Add(x, Scale(half, k2.f));
    var k3 := LinearApproximation(s, t + half, tmpV, u);
    tmpV := Add(x, Scale(dt, k3.f));
    var k4 := LinearApproximation(s, t + dt, tmpV, u);
    StagesAreSensitivities(s, t, x, u, dt, k1, k2, k3, k4);

    k2 := k2.(dfdu := MAdd(k2.dfdu, Mul(MScale(half, k2.dfdx), k1.dfdu)));
    k3 := k3.(dfdu := MAdd(k3.dfdu, Mul(MScale(half, k3.dfdx), k2.dfdu)));
    k4 := k4.(dfdu := MAdd(k4.dfdu, Mul(MScale(dt, k4.dfdx), k3.dfdu)));

    var tmp := Mul(MScale(half, k2.dfdx), k1.dfdx);
    k2 := k2.(dfdx := MAdd(k2.dfdx, tmp));
    tmp := Mul(MScale(half, k3.dfdx), k2.dfdx);
    k3 := k3.(dfdx := MAdd(k3.dfdx, tmp));
    tmp := Mul(MScale(dt, k4.dfdx), k3.dfdx);
    k4 := k4.(dfdx := MAdd(k4.dfdx, tmp));
    AssembleFour(s, t, x, u, dt, k1, k2, k3, k4);

    k1 := k1.(dfdx := MAdd(MAdd(MAdd(MScale(sixth, k1.dfdx), MScale(third, k2.dfdx)), MScale(third, k3.dfdx)),
                           MScale(sixth, k4.dfdx)));
    k1 := k1.(dfdx := MAdd(k1.dfdx, Identity(s.n)));
    k1 := k1.(dfdu := MAdd(MAdd(MAdd(MScale(sixth, k1.dfdu), MScale(third, k2.dfdu)), MScale(third, k3.dfdu)),
                           MScale(sixth, k4.dfdu)));
    k1 := k1.(f := Add(Add(Add(Add(x, Scale(sixth, k1.f)), Scale(third, k2.f)), Scale(third, k3.f)),
                       Scale(sixth, k4.f)));
    Meaning(Rk4, s, t, x, u, dt);
  }

  /** The linearisations the method asks for, chained, are the sensitivities of the four stages. */
  lemma StagesAreSensitivities(s: System, t: real, x: Vec, u: Vec, dt: real, k1: LinearApprox, k2: LinearApprox,
                               k3: LinearApprox, k4: LinearApprox)
    requires s.Shaped() && |x| == s.n && |u| == s.m
    requires k1 == LinearApproximation(s, t, x, u)
    requires k2 == LinearApproximation(s, t + dt / 2.0, Add(x, Scale(dt / 2.0, k1.f)), u)
    requires k3 == LinearApproximation(s, t + dt / 2.0, Add(x, Scale(dt / 2.0, k2.f)), u)
    requires k4 == LinearApproximation(s, t + dt, Add(x, Scale(dt, k3.f)), u)
    ensures var k2' := Chain(k2, k1, dt / 2.0, s.n, s.m); var k3' := Chain(k3, k2', dt / 2.0, s.n, s.m);
            var k4' := Chain(k4, k3', dt, s.n, s.m);
            && k1 == Sensitivity(s, t, x, u, Rk4.Offsets(dt), 0)
            && k2' == Sensitivity(s, t, x, u, Rk4.Offsets(dt), 1)
            && k3' == Sensitivity(s, t, x, u, Rk4.Offsets(dt), 2)
            && k4' == Sensitivity(s, t, x, u, Rk4.Offsets(dt), 3)
  {
    hide Add, Scale, Chain, Sensitivity, LinearApproximation;
    var offsets := Rk4.Offsets(dt);
    SensitivitiesUnfold(s, t, x, u, offsets, 0);
    SensitivitiesUnfold(s, t, x, u, offsets, 1);
    SensitivitiesUnfold(s, t, x, u, offsets, 2);
    SensitivitiesUnfold(s, t, x, u, offsets, 3);
    StagesUnfold(s, t, x, u, offsets, 0);
    StagesUnfold(s, t, x, u, offsets, 1);
    StagesUnfold(s, t, x, u, offsets, 2);
    StagesUnfold(s, t, x, u, offsets, 3);
  }
}
