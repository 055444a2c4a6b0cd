/** What the plain Euler, RK2 and RK4 steps promise: their orders, on linear systems, and their times. */
module DiscretizationOrder {
  import opened Vectors
  import opened LinearFlows
  import opened SensitivityIntegrators

  // ----- time as a state

  /** The system whose last state is the time of the other. */
  ghost predicate WithTime(s: System, timed: System) {
    && s.Shaped() && timed.Shaped() && timed.n == s.n + 1 && timed.m == s.m
    && forall r: real, t: real, x: Vec, u: Vec | |x| == s.n && |u| == s.m ::
         timed.flow(r, x + [t], u) == s.flow(t, x, u) + [1.0]
  }

  lemma AddAppended(a: Vec, b: Vec, p: real, q: real)
    requires |a| == |b|
    ensures Add(a + [p], b + [q]) == Add(a, b) + [p + q]
  {
  }

  lemma ScaleAppended(c: real, a: Vec)
    ensures Scale(c, a + [1.0]) == Scale(c, a) + [c]
  {
    var l, r := Scale(c, a + [1.0]), Scale(c, a) + [c];
    forall i | 0 <= i <= |a|
      ensures l[i] == r[i]
    {
      assert l[i] == c * (a + [1.0])[i];
    }
  }

  /** Every stage sees the time it is evaluated at. */
  lemma {:induction false} StageWithTime(s: System, timed: System, r: real, t: real, x: Vec, u: Vec, offsets: seq<real>,
                                         i: nat)
    requires WithTime(s, timed) && |x| == s.n && |u| == s.m && i <= |offsets|
    ensures StagePoint(timed, r, x + [t], u, offsets, i)
            == StagePoint(s, t, x, u, offsets, i) + [StageTime(t, offsets, i)]
    ensures Stage(timed, r, x + [t], u, offsets, i) == Stage(s, t, x, u, offsets, i) + [1.0]
  {
    hide Add, Scale, StageTime;
    StagesUnfold(s, t, x, u, offsets, i);
    StagesUnfold(timed, r, x + [t], u, offsets, i);
    StageTimes(t, offsets, i);
    if i > 0 {
      StageWithTime(s, timed, r, t, x, u, offsets, i - 1);
      var k := Stage(s, t, x, u, offsets, i - 1);
      ScaleAppended(offsets[i-1], k);
      AddAppended(x, Scale(offsets[i-1], k), t, offsets[i-1]);
    }
  }

  lemma StageTimes(t: real, offsets: seq<real>, i: nat)
    requires i <= |offsets|
    ensures StageTime(t, offsets, i) == if i == 0 then t else t + offsets[i-1]
  {
  }

  function Total(weights: seq<real>, i: nat): real
    requires i <= |weights|
  {
    if i == 0 then 0.0 else Total(weights, i - 1) + weights[i-1]
  }

  lemma {:induction false} SumWithTime(s: System, timed: System, r: real, t: real, x: Vec, u: Vec, offsets: seq<real>,
                                       weights: seq<real>, i: nat)
    requires WithTime(s, timed) && |x| == s.n && |u| == s.m && i <= |weights| == |offsets| + 1
    ensures SlopeSum(timed, r, x + [t], u, offsets, weights, i)
            == SlopeSum(s, t, x, u, offsets, weights, i) + [t + Total(weights, i)]
  {
    hide Add, Scale, Stage;
    if i > 0 {
      SumWithTime(s, timed, r, t, x, u, offsets, weights, i - 1);
      StageWithTime(s, timed, r, t, x, u, offsets, i - 1);
      var k := Stage(s, t, x, u, offsets, i - 1);
      ScaleAppended(weights[i-1], k);
      AddAppended(SlopeSum(s, t, x, u, offsets, weights, i - 1), Scale(weights[i-1], k), t + Total(weights, i - 1),
                  weights[i-1]);
    }
  }

  lemma TotalWeight(c: Scheme, dt: real)
    ensures Total(c.Weights(dt), |c.Weights(dt)|) == dt
  {
    var w := c.Weights(dt);
    assert Total(w, 1) == w[0];
    if c.Rk4? {
      assert Total(w, 2) == w[0] + w[1];
      assert Total(w, 3) == w[0] + w[1] + w[2];
    }
  }

  /** Making time a state with slope one changes no step, whatever the flow, and the time arrives at t + dt. */
  lemma DiscretizationWithTime(c: Scheme, s: System, timed: System, r: real, t: real, x: Vec, u: Vec, dt: real)
    requires WithTime(s, timed) && |x| == s.n && |u| == s.m
    ensures c.Discretization(timed, r, x + [t], u, dt) == c.Discretization(s, t, x, u, dt) + [t + dt]
  {
    hide SlopeSum, Scheme.Discretization, Total;
    SchemeSums(c, s, t, x, u, dt);
    SchemeSums(c, timed, r, x + [t], u, dt);
    SumWithTime(s, timed, r, t, x, u, c.Offsets(dt), c.Weights(dt), |c.Weights(dt)|);
    TotalWeight(c, dt);
  }

  // ----- linear systems

  /** For this input the flow is x' = m x + b. */
  ghost predicate LinearFor(s: System, u: Vec, m: Mat, b: Vec) {
    && s.Shaped() && |u| == s.m && m.cols == |m.rows| == |b| == s.n
    && forall t: real, x: Vec | |x| == s.n :: s.flow(t, x, u) == Add(MulV(m, x), b)
  }

  function Scaled(g: real, c: Coefs): Coefs {
    Coefs(g * c.c0, g * c.c1, g * c.c2, g * c.c3, g * c.c4, g * c.c5, g * c.c6)
  }

  lemma ScaledComb(g: real, v: Vec, w: seq<Vec>, c: Coefs)
    requires IsComb(v, w, c)
    ensures IsComb(Scale(g, v), w, Scaled(g, c))
  {
    forall i: nat | i < |v|
      ensures g * v[i] == Entry(w, Scaled(g, c), i)
    {
      ScaledEntry(g, c, w[0][i], w[1][i], w[2][i], w[3][i], w[4][i], w[5][i], w[6][i]);
    }
  }

  lemma ScaledEntry(g: real, c: Coefs, w0: real, w1: real, w2: real, w3: real, w4: real, w5: real, w6: real)
    ensures g * (c.c0 * w0 + c.c1 * w1 + c.c2 * w2 + c.c3 * w3 + c.c4 * w4 + c.c5 * w5 + c.c6 * w6)
            == (g * c.c0) * w0 + (g * c.c1) * w1 + (g * c.c2) * w2 + (g * c.c3) * w3 + (g * c.c4) * w4
               + (g * c.c5) * w5 + (g * c.c6) * w6
  {
  }

  /** The slope at x + g dt k, where k is a combination. */
  lemma NextStage(s: System, t: real, x: Vec, u: Vec, m: Mat, b: Vec, dt: real, w: seq<Vec>, k: Vec, c: Coefs, g: real,
                  offset: real)
    requires LinearFor(s, u, m, b) && |x| == s.n == |k| && offset == dt * g
    requires IsKrylov(w, MScale(dt, m), Add(MulV(m, x), b)) && IsComb(k, w, c) && c.c6 == 0.0
    ensures IsComb(s.flow(t, Add(x, Scale(offset, k)), u), w, After(Scaled(g, c)))
  {
    hide MulV, IsComb;
    var y, v := Add(MulV(m, x), b), Scale(offset, k);
    ScaledComb(g, k, w, c);
    TimesComb(MScale(dt, m), Scale(g, k), w, y, Scaled(g, c));
    MulVAdd(m, x, v);
    MulVScale(offset, m, k);
    MScaleMulV(dt, m, Scale(g, k));
    MulVScale(g, m, k);
    ScaleScale(dt, g, MulV(m, k), offset);
    assert Add(MulV(m, Add(x, v)), b) == Add(y, MulV(MScale(dt, m), Scale(g, k)));
  }

  lemma ScaleScale(a: real, b: real, v: Vec, ab: real)
    requires ab == a * b
    ensures Scale(a, Scale(b, v)) == Scale(ab, v)
  {
    forall i | 0 <= i < |v|
      ensures Scale(a, Scale(b, v))[i] == Scale(ab, v)[i]
    {
      assert a * (b * v[i]) == (a * b) * v[i];
    }
  }

  function K1(): Coefs { Coefs(1.0, 0.0, 0.0, 0.0, 0.0, 0.0, 0.0) }

  /** The offset of stage i of a scheme, as a fraction of the step. */
  function Fraction(c: Scheme, i: nat): real {
    if c.Rk4? && i < 2 then 0.5 else 1.0
  }

  function StageCoefs(c: Scheme, i: nat): Coefs {
    if i == 0 then K1()
    else if i == 1 then Coefs(1.0, Fraction(c, 0), 0.0, 0.0, 0.0, 0.0, 0.0)
    else if i == 2 then Coefs(1.0, 0.5, 0.25, 0.0, 0.0, 0.0, 0.0)
    else Coefs(1.0, 1.0, 0.5, 0.25, 0.0, 0.0, 0.0)
  }

  lemma NextCoefs(c: Scheme, i: nat)
    requires 0 < i <= 3 && (i > 1 ==> c.Rk4?)
    ensures StageCoefs(c, i) == After(Scaled(Fraction(c, i - 1), StageCoefs(c, i - 1)))
    ensures StageCoefs(c, i - 1).c6 == 0.0
  {
  }

  lemma OffsetFraction(c: Scheme, dt: real, i: nat)
    requires 0 < i <= |c.Offsets(dt)|
    ensures i <= 3 && (i > 1 ==> c.Rk4?) && c.Offsets(dt)[i-1] == dt * Fraction(c, i - 1)
  {
  }

  /** Stage i is a combination of the first i + 1 powers. */
  lemma {:induction false} LinearStage(c: Scheme, s: System, t: real, x: Vec, u: Vec, dt: real, m: Mat, b: Vec,
                                       w: seq<Vec>, i: nat)
    requires LinearFor(s, u, m, b) && |x| == s.n && i <= |c.Offsets(dt)|
    requires IsKrylov(w, MScale(dt, m), Add(MulV(m, x), b))
    ensures IsComb(Stage(s, t, x, u, c.Offsets(dt), i), w, StageCoefs(c, i))
  {
    hide MulV, IsKrylov, MScale, IsComb, Scheme.Offsets, Fraction, After, Scaled, Add, StageCoefs;
    var offsets := c.Offsets(dt);
    StagesUnfold(s, t, x, u, offsets, i);
    if i == 0 {
      LinearFlow(s, t, x, u, m, b);
      assert StageCoefs(c, 0) == K1() by { FirstCoefs(c); }
      FirstComb(MScale(dt, m), Add(MulV(m, x), b), w);
    } else {
      LinearStage(c, s, t, x, u, dt, m, b, w, i - 1);
      OffsetFraction(c, dt, i);
      NextCoefs(c, i);
      NextStage(s, StageTime(t, offsets, i), x, u, m, b, dt, w, Stage(s, t, x, u, offsets, i - 1), StageCoefs(c, i - 1),
                Fraction(c, i - 1), offsets[i-1]);
    }
  }

  lemma FirstCoefs(c: Scheme)
    ensures StageCoefs(c, 0) == K1()
  {
  }

  lemma LinearFlow(s: System, t: real, x: Vec, u: Vec, m: Mat, b: Vec)
    requires LinearFor(s, u, m, b) && |x| == s.n
    ensures s.flow(t, x, u) == Add(MulV(m, x), b)
  {
  }

  lemma FirstComb(n: Mat, y: Vec, w: seq<Vec>)
    requires IsKrylov(w, n, y)
    ensures IsComb(y, w, K1())
  {
  }

  lemma WeighTwo(dt: real, e1: real, e2: real, w0: real, w1: real)
    requires e1 == w0 && e2 == w0 + w1
    ensures dt / 2.0 * e1 + dt / 2.0 * e2 == dt * (w0 + w1 / 2.0)
  {
  }

  lemma WeighFour(dt: real, e1: real, e2: real, e3: real, e4: real, w0: real, w1: real, w2: real, w3: real)
    requires e1 == w0 && e2 == w0 + w1 / 2.0 && e3 == w0 + w1 / 2.0 + w2 / 4.0 && e4 == w0 + w1 + w2 / 2.0 + w3 / 4.0
    ensures dt / 6.0 * e1 + dt / 3.0 * e2 + dt / 3.0 * e3 + dt / 6.0 * e4
            == dt * (w0 + w1 / 2.0 + w2 / 6.0 + w3 / 24.0)
  {
    assert dt / 6.0 * e1 + dt / 3.0 * e2 + dt / 3.0 * e3 + dt / 6.0 * e4
           == dt * (e1 / 6.0 + e2 / 3.0 + e3 / 3.0 + e4 / 6.0);
  }

  /** The entries of the stages. */
  lemma StageEntries(c: Scheme, w: seq<Vec>, i: nat, j: nat, k: Vec)
    requires i <= 3 && IsComb(k, w, StageCoefs(c, i)) && j < |k|
    ensures i == 0 ==> k[j] == w[0][j]
    ensures i == 1 ==> k[j] == w[0][j] + Fraction(c, 0) * w[1][j]
    ensures c.Rk4? && i == 2 ==> k[j] == w[0][j] + w[1][j] / 2.0 + w[2][j] / 4.0
    ensures c.Rk4? && i == 3 ==> k[j] == w[0][j] + w[1][j] + w[2][j] / 2.0 + w[3][j] / 4.0
  {
    assert k[j] == Entry(w, StageCoefs(c, i), j);
  }

  /**
   * On a linear system the steps are the Taylor polynomials of the exact solution, of order one, two and four: the k-th
   * derivative of the solution is m^(k-1) (m x + b).
   */
  lemma DiscretizationOfLinear(c: Scheme, s: System, t: real, x: Vec, u: Vec, dt: real, m: Mat, b: Vec, w: seq<Vec>,
                               j: nat)
    requires LinearFor(s, u, m, b) && |x| == s.n && j < s.n
    requires IsKrylov(w, MScale(dt, m), Add(MulV(m, x), b))
    ensures c.Discretization(s, t, x, u, dt)[j]
            == x[j] + dt * (match c
                            case Euler => w[0][j]
                            case Rk2 => w[0][j] + w[1][j] / 2.0
                            case Rk4 => w[0][j] + w[1][j] / 2.0 + w[2][j] / 6.0 + w[3][j] / 24.0)
  {
    hide MulV, IsComb, MScale, StageCoefs, Stage, SlopeSum, Scheme.Discretization;
    var offsets, weights := c.Offsets(dt), c.Weights(dt);
    SchemeSums(c, s, t, x, u, dt);
    SumUnfolds(s, t, x, u, offsets, weights, 0);
    LinearStage(c, s, t, x, u, dt, m, b, w, 0);
    var k1 := Stage(s, t, x, u, offsets, 0);
    StageEntries(c, w, 0, j, k1);
    if !c.Euler? {
      SumUnfolds(s, t, x, u, offsets, weights, 1);
      LinearStage(c, s, t, x, u, dt, m, b, w, 1);
      var k2 := Stage(s, t, x, u, offsets, 1);
      StageEntries(c, w, 1, j, k2);
      if c.Rk2? {
        WeighTwo(dt, k1[j], k2[j], w[0][j], w[1][j]);
      } else {
        SumUnfolds(s, t, x, u, offsets, weights, 2);
        SumUnfolds(s, t, x, u, offsets, weights, 3);
        LinearStage(c, s, t, x, u, dt, m, b, w, 2);
        LinearStage(c, s, t, x, u, dt, m, b, w, 3);
        var k3, k4 := Stage(s, t, x, u, offsets, 2), Stage(s, t, x, u, offsets, 3);
        StageEntries(c, w, 2, j, k3);
        StageEntries(c, w, 3, j, k4);
        WeighFour(dt, k1[j], k2[j], k3[j], k4[j], w[0][j], w[1][j], w[2][j], w[3][j]);
      }
    }
  }
}
