/**
 * The order of the Dormand-Prince step: time as a state, linear systems, and the elementary problems up to order five.
 */
module DormandPrinceOrder {
  import opened Vectors
  import opened Norms
  import opened Odes
  import opened Polynomials
  import opened LinearFlows
  import opened DormandPrince
  import opened DormandPrinceAccuracy

  // ----- time as a state

  /** The flow whose last state is the time of the other. */
  ghost predicate WithTime(flow: (real, Vec) -> Vec, flowWithTime: (real, Vec) -> Vec) {
    && Shaped(flow) && Shaped(flowWithTime)
    && forall s: real, t: real, x: Vec :: flowWithTime(s, x + [t]) == flow(t, x) + [1.0]
  }

  function Timed(p: Point, s: real): Point {
    Point(p.x + [p.t], p.dxdt + [1.0], s)
  }

  /** The time that the last state has at each stage is the one the stage is evaluated at. */
  lemma ArgumentsWithTime(x: Vec, t: real, k: Slopes, d: real)
    requires |x| == |k.k1| == |k.k2| == |k.k3| == |k.k4| == |k.k5| == |k.k6|
    ensures Argument2(x + [t], k.k1 + [1.0], d) == Argument2(x, k.k1, d) + [t + d * A2]
    ensures Argument3(x + [t], k.k1 + [1.0], k.k2 + [1.0], d) == Argument3(x, k.k1, k.k2, d) + [t + d * A3]
    ensures Argument4(x + [t], k.k1 + [1.0], k.k2 + [1.0], k.k3 + [1.0], d)
            == Argument4(x, k.k1, k.k2, k.k3, d) + [t + d * A4]
    ensures Argument5(x + [t], k.k1 + [1.0], k.k2 + [1.0], k.k3 + [1.0], k.k4 + [1.0], d)
            == Argument5(x, k.k1, k.k2, k.k3, k.k4, d) + [t + d * A5]
    ensures Argument6(x + [t], k.k1 + [1.0], k.k2 + [1.0], k.k3 + [1.0], k.k4 + [1.0], k.k5 + [1.0], d)
            == Argument6(x, k.k1, k.k2, k.k3, k.k4, k.k5, d) + [t + d]
    ensures NextState(x + [t], TimedSlopes(k), d) == NextState(x, k, d) + [t + d]
  {
    hide Argument2, Argument3, Argument4, Argument5, Argument6, NextState, Weighted;
    var k', x' := TimedSlopes(k), x + [t];
    forall i: nat | i <= |x|
      ensures Argument2(x', k'.k1, d)[i] == (Argument2(x, k.k1, d) + [t + d * A2])[i]
      ensures Argument3(x', k'.k1, k'.k2, d)[i] == (Argument3(x, k.k1, k.k2, d) + [t + d * A3])[i]
      ensures Argument4(x', k'.k1, k'.k2, k'.k3, d)[i] == (Argument4(x, k.k1, k.k2, k.k3, d) + [t + d * A4])[i]
      ensures Argument5(x', k'.k1, k'.k2, k'.k3, k'.k4, d)[i]
              == (Argument5(x, k.k1, k.k2, k.k3, k.k4, d) + [t + d * A5])[i]
      ensures Argument6(x', k'.k1, k'.k2, k'.k3, k'.k4, k'.k5, d)[i]
              == (Argument6(x, k.k1, k.k2, k.k3, k.k4, k.k5, d) + [t + d])[i]
      ensures NextState(x', k', d)[i] == (NextState(x, k, d) + [t + d])[i]
    {
      if i < |x| {
        StateComponent(x, t, k, d, i);
      } else {
        TimeComponent(x, t, k, d);
      }
    }
  }

  lemma StateComponent(x: Vec, t: real, k: Slopes, d: real, i: nat)
    requires |x| == |k.k1| == |k.k2| == |k.k3| == |k.k4| == |k.k5| == |k.k6| && i < |x|
    ensures var k', x' := TimedSlopes(k), x + [t];
            && Argument2(x', k'.k1, d)[i] == Argument2(x, k.k1, d)[i]
            && Argument3(x', k'.k1, k'.k2, d)[i] == Argument3(x, k.k1, k.k2, d)[i]
            && Argument4(x', k'.k1, k'.k2, k'.k3, d)[i] == Argument4(x, k.k1, k.k2, k.k3, d)[i]
            && Argument5(x', k'.k1, k'.k2, k'.k3, k'.k4, d)[i] == Argument5(x, k.k1, k.k2, k.k3, k.k4, d)[i]
            && Argument6(x', k'.k1, k'.k2, k'.k3, k'.k4, k'.k5, d)[i]
               == Argument6(x, k.k1, k.k2, k.k3, k.k4, k.k5, d)[i]
            && NextState(x', k', d)[i] == NextState(x, k, d)[i]
  {
    hide Argument2, Argument3, Argument4, Argument5, Argument6, NextState, Weighted;
    var k', x' := TimedSlopes(k), x + [t];
    ArgumentEntries(x', k'.k1, k'.k2, k'.k3, k'.k4, k'.k5, d, i);
    NextStateEntry(x', k', d, i);
    ArgumentEntries(x, k.k1, k.k2, k.k3, k.k4, k.k5, d, i);
    NextStateEntry(x, k, d, i);
  }

  /** Every row of the tableau adds up to its node. */
  lemma TimeComponent(x: Vec, t: real, k: Slopes, d: real)
    requires |x| == |k.k1| == |k.k2| == |k.k3| == |k.k4| == |k.k5| == |k.k6|
    ensures var k', x', n := TimedSlopes(k), x + [t], |x|;
            && Argument2(x', k'.k1, d)[n] == t + d * A2
            && Argument3(x', k'.k1, k'.k2, d)[n] == t + d * A3
            && Argument4(x', k'.k1, k'.k2, k'.k3, d)[n] == t + d * A4
            && Argument5(x', k'.k1, k'.k2, k'.k3, k'.k4, d)[n] == t + d * A5
            && Argument6(x', k'.k1, k'.k2, k'.k3, k'.k4, k'.k5, d)[n] == t + d
            && NextState(x', k', d)[n] == t + d
  {
    hide Argument2, Argument3, Argument4, Argument5, Argument6, NextState, Weighted;
    var k', x', n := TimedSlopes(k), x + [t], |x|;
    ArgumentEntries(x', k'.k1, k'.k2, k'.k3, k'.k4, k'.k5, d, n);
    NextStateEntry(x', k', d, n);
    WeightValues(1.0, 1.0, 1.0, 1.0, 1.0);
  }

  function TimedSlopes(k: Slopes): Slopes {
    Slopes(k.k1 + [1.0], k.k2 + [1.0], k.k3 + [1.0], k.k4 + [1.0], k.k5 + [1.0], k.k6 + [1.0])
  }

  lemma FlowWithTime(flow: (real, Vec) -> Vec, flowWithTime: (real, Vec) -> Vec, s: real, t: real, x: Vec)
    requires WithTime(flow, flowWithTime)
    ensures flowWithTime(s, x + [t]) == flow(t, x) + [1.0]
  {
  }

  /**
   * Making time a state with slope one changes nothing, for any flow: every stage is evaluated at the time that its own
   * row of the tableau arrives at.
   */
  lemma StepWithTime(flow: (real, Vec) -> Vec, flowWithTime: (real, Vec) -> Vec, p: Point, d: real, s: real)
    requires WithTime(flow, flowWithTime) && |p.x| == |p.dxdt|
    ensures StageSlopes(flowWithTime, Timed(p, s), d) == TimedSlopes(StageSlopes(flow, p, d))
    ensures Step(flowWithTime, Timed(p, s), d) == Timed(Step(flow, p, d), s + d)
  {
    hide Argument2, Argument3, Argument4, Argument5, Argument6, NextState, WithTime;
    assert Shaped(flow) && Shaped(flowWithTime) by { WithTimeShaped(flow, flowWithTime); }
    var k := StageSlopes(flow, p, d);
    ArgumentsWithTime(p.x, p.t, k, d);
    FlowWithTime(flow, flowWithTime, s + d * A2, p.t + d * A2, Argument2(p.x, k.k1, d));
    FlowWithTime(flow, flowWithTime, s + d * A3, p.t + d * A3, Argument3(p.x, k.k1, k.k2, d));
    FlowWithTime(flow, flowWithTime, s + d * A4, p.t + d * A4, Argument4(p.x, k.k1, k.k2, k.k3, d));
    FlowWithTime(flow, flowWithTime, s + d * A5, p.t + d * A5, Argument5(p.x, k.k1, k.k2, k.k3, k.k4, d));
    FlowWithTime(flow, flowWithTime, s + d, p.t + d, Argument6(p.x, k.k1, k.k2, k.k3, k.k4, k.k5, d));
    FlowWithTime(flow, flowWithTime, s + d, p.t + d, NextState(p.x, k, d));
  }

  lemma WithTimeShaped(flow: (real, Vec) -> Vec, flowWithTime: (real, Vec) -> Vec)
    requires WithTime(flow, flowWithTime)
    ensures Shaped(flow) && Shaped(flowWithTime)
  {
  }

  // ----- linear systems

  /** x' = m x + b. */
  ghost predicate Linear(flow: (real, Vec) -> Vec, m: Mat, b: Vec) {
    && Shaped(flow) && m.cols == |m.rows| == |b|
    && forall t: real, x: Vec | |x| == |b| :: flow(t, x) == Add(MulV(m, x), b)
  }

  /** The slope at a point x + d v, for a combination v of the powers. */
  lemma StageSlope(flow: (real, Vec) -> Vec, m: Mat, b: Vec, x: Vec, d: real, w: seq<Vec>, t: real, argument: Vec,
                   c: Coefs)
    requires Linear(flow, m, b) && |x| == |b| == |argument| && c.c6 == 0.0
    requires IsKrylov(w, MScale(d, m), Add(MulV(m, x), b))
    requires forall i: nat | i < |x| :: argument[i] == x[i] + d * Entry(w, c, i)
    ensures IsComb(flow(t, argument), w, After(c))
  {
    hide MulV, Entry, MScale;
    var v: Vec := seq(|x|, i requires 0 <= i < |x| => Entry(w, c, i));
    var y := Add(MulV(m, x), b);
    forall i: nat | i < |x|
      ensures argument[i] == Add(x, Scale(d, v))[i]
    {
      assert argument[i] == x[i] + d * Entry(w, c, i);
    }
    assert argument == Add(x, Scale(d, v));
    TimesComb(MScale(d, m), v, w, y, c);
    MulVAdd(m, x, Scale(d, v));
    MulVScale(d, m, v);
    MScaleMulV(d, m, v);
    assert flow(t, argument) == Add(y, MulV(MScale(d, m), v));
  }

  function G1(): Coefs { Coefs(1.0, 0.0, 0.0, 0.0, 0.0, 0.0, 0.0) }
  function S2(): Coefs { Coefs(1.0 / 5.0, 0.0, 0.0, 0.0, 0.0, 0.0, 0.0) }
  function S3(): Coefs { Coefs(3.0 / 10.0, 9.0 / 200.0, 0.0, 0.0, 0.0, 0.0, 0.0) }
  function S4(): Coefs { Coefs(4.0 / 5.0, 8.0 / 25.0, 4.0 / 25.0, 0.0, 0.0, 0.0, 0.0) }
  function S5(): Coefs { Coefs(8.0 / 9.0, 32.0 / 81.0, 424.0 / 1215.0, -848.0 / 18225.0, 0.0, 0.0, 0.0) }
  function S6(): Coefs { Coefs(1.0, 1.0 / 2.0, 21.0 / 55.0, -14.0 / 275.0, 7.0 / 550.0, 0.0, 0.0) }
  function S7(): Coefs {
    Coefs(1.0, 1.0 / 2.0, 1.0 / 6.0, 1.0 / 24.0, 1.0 / 120.0, 1.0 / 600.0, 0.0)
  }

  /** The slopes up to the j-th are combinations of the powers. */
  ghost predicate SlopesComb(k: Slopes, w: seq<Vec>, j: nat) {
    && |k.k1| == |k.k2| == |k.k3| == |k.k4| == |k.k5| == |k.k6|
    && IsComb(k.k1, w, G1())
    && (j >= 2 ==> IsComb(k.k2, w, After(S2())))
    && (j >= 3 ==> IsComb(k.k3, w, After(S3())))
    && (j >= 4 ==> IsComb(k.k4, w, After(S4())))
    && (j >= 5 ==> IsComb(k.k5, w, After(S5())))
    && (j >= 6 ==> IsComb(k.k6, w, After(S6())))
  }

  /** The rows of the tableau, component by component. */
  lemma RowsCombine(k: Slopes, w: seq<Vec>, i: nat)
    requires SlopesComb(k, w, 1) && i < |k.k1|
    ensures 1.0 / 5.0 * k.k1[i] == Entry(w, S2(), i)
    ensures SlopesComb(k, w, 2) ==> 3.0 / 40.0 * k.k1[i] + 9.0 / 40.0 * k.k2[i] == Entry(w, S3(), i)
    ensures SlopesComb(k, w, 3) ==>
              44.0 / 45.0 * k.k1[i] - 56.0 / 15.0 * k.k2[i] + 32.0 / 9.0 * k.k3[i] == Entry(w, S4(), i)
    ensures SlopesComb(k, w, 4) ==>
              19372.0 / 6561.0 * k.k1[i] - 25360.0 / 2187.0 * k.k2[i] + 64448.0 / 6561.0 * k.k3[i]
              - 212.0 / 729.0 * k.k4[i] == Entry(w, S5(), i)
    ensures SlopesComb(k, w, 5) ==>
              9017.0 / 3168.0 * k.k1[i] - 355.0 / 33.0 * k.k2[i] + 46732.0 / 5247.0 * k.k3[i]
              + 49.0 / 176.0 * k.k4[i] - 5103.0 / 18656.0 * k.k5[i] == Entry(w, S6(), i)
    ensures SlopesComb(k, w, 6) ==>
              35.0 / 384.0 * k.k1[i] + 500.0 / 1113.0 * k.k3[i] + 125.0 / 192.0 * k.k4[i] - 2187.0 / 6784.0 * k.k5[i]
              + 11.0 / 84.0 * k.k6[i] == Entry(w, S7(), i)
  {
  }

  ghost predicate Setup(flow: (real, Vec) -> Vec, m: Mat, b: Vec, p: Point, d: real, w: seq<Vec>) {
    && Linear(flow, m, b) && |p.x| == |b| && p.dxdt == flow(p.t, p.x)
    && IsKrylov(w, MScale(d, m), Add(MulV(m, p.x), b))
  }

  lemma FirstSlope(flow: (real, Vec) -> Vec, m: Mat, b: Vec, p: Point, d: real, w: seq<Vec>)
    requires Setup(flow, m, b, p, d, w)
    ensures SlopesComb(StageSlopes(flow, p, d), w, 1)
  {
    hide MulV, Argument2, Argument3, Argument4, Argument5, Argument6;
  }

  /** The slope of a stage whose argument is x plus d times a combination of earlier slopes. */
  lemma NextSlope(flow: (real, Vec) -> Vec, m: Mat, b: Vec, p: Point, d: real, w: seq<Vec>, k: Slopes, j: nat)
    requires Setup(flow, m, b, p, d, w) && k == StageSlopes(flow, p, d) && 1 <= j < 6 && SlopesComb(k, w, j)
    ensures SlopesComb(k, w, j + 1)
  {
    hide Argument2, Argument3, Argument4, Argument5, Argument6, Linear, MulV, Entry, MScale;
    var x := p.x;
    var a2, a3, a4 := Argument2(x, k.k1, d), Argument3(x, k.k1, k.k2, d), Argument4(x, k.k1, k.k2, k.k3, d);
    var a5, a6 := Argument5(x, k.k1, k.k2, k.k3, k.k4, d), Argument6(x, k.k1, k.k2, k.k3, k.k4, k.k5, d);
    forall i: nat | i < |x|
      ensures j == 1 ==> a2[i] == x[i] + d * Entry(w, S2(), i)
      ensures j == 2 ==> a3[i] == x[i] + d * Entry(w, S3(), i)
      ensures j == 3 ==> a4[i] == x[i] + d * Entry(w, S4(), i)
      ensures j == 4 ==> a5[i] == x[i] + d * Entry(w, S5(), i)
      ensures j == 5 ==> a6[i] == x[i] + d * Entry(w, S6(), i)
    {
      ArgumentEntries(x, k.k1, k.k2, k.k3, k.k4, k.k5, d, i);
      RowsCombine(k, w, i);
    }
    match j {
      case 1 => StageSlope(flow, m, b, x, d, w, p.t + d * A2, a2, S2());
      case 2 => StageSlope(flow, m, b, x, d, w, p.t + d * A3, a3, S3());
      case 3 => StageSlope(flow, m, b, x, d, w, p.t + d * A4, a4, S4());
      case 4 => StageSlope(flow, m, b, x, d, w, p.t + d * A5, a5, S5());
      case _ => StageSlope(flow, m, b, x, d, w, p.t + d, a6, S6());
    }
  }

  lemma SlopesOfLinear(flow: (real, Vec) -> Vec, m: Mat, b: Vec, p: Point, d: real, w: seq<Vec>, k: Slopes)
    requires Setup(flow, m, b, p, d, w) && k == StageSlopes(flow, p, d)
    ensures SlopesComb(k, w, 6)
  {
    hide StageSlopes, Setup, IsComb;
    FirstSlope(flow, m, b, p, d, w);
    NextSlope(flow, m, b, p, d, w, k, 1);
    NextSlope(flow, m, b, p, d, w, k, 2);
    NextSlope(flow, m, b, p, d, w, k, 3);
    NextSlope(flow, m, b, p, d, w, k, 4);
    NextSlope(flow, m, b, p, d, w, k, 5);
  }

  lemma EstimateValues(k1: real, k3: real, k4: real, k5: real, k6: real, k7: real)
    ensures Estimated(k1, k3, k4, k5, k6, k7)
            == 71.0 / 57600.0 * k1 - 71.0 / 16695.0 * k3 + 71.0 / 1920.0 * k4 - 17253.0 / 339200.0 * k5
               + 22.0 / 525.0 * k6 - 1.0 / 40.0 * k7
  {
  }

  function Estimate7(): Coefs { Coefs(0.0, 0.0, 0.0, 0.0, -97.0 / 120000.0, 13.0 / 40000.0, -1.0 / 24000.0) }

  lemma EstimateCombines(k: Slopes, k7: Vec, w: seq<Vec>, i: nat)
    requires SlopesComb(k, w, 6) && IsComb(k7, w, After(S7())) && i < |k.k1| == |k7|
    ensures Estimated(k.k1[i], k.k3[i], k.k4[i], k.k5[i], k.k6[i], k7[i]) == Entry(w, Estimate7(), i)
  {
    hide Estimated;
    EstimateValues(k.k1[i], k.k3[i], k.k4[i], k.k5[i], k.k6[i], k7[i]);
  }

  /**
   * On a linear system the step is the Taylor polynomial of order five of the exact solution, plus d^6/600 m^5 (m x +
   * b): the k-th derivative of the solution is m^(k-1) (m x + b). The error estimate is of order five, as the result of
   * order four promises.
   */
  lemma StepOfLinear(flow: (real, Vec) -> Vec, m: Mat, b: Vec, p: Point, d: real, w: seq<Vec>, i: nat)
    requires Setup(flow, m, b, p, d, w) && i < |p.x|
    ensures SevenOf(w, |p.x|)
    ensures Step(flow, p, d).x[i]
            == p.x[i] + d * (w[0][i] + w[1][i] / 2.0 + w[2][i] / 6.0 + w[3][i] / 24.0 + w[4][i] / 120.0
                             + w[5][i] / 600.0)
    ensures ErrorEstimate(StageSlopes(flow, p, d), Step(flow, p, d).dxdt, d)[i]
            == d * (-97.0 / 120000.0 * w[4][i] + 13.0 / 40000.0 * w[5][i] - 1.0 / 24000.0 * w[6][i])
  {
    hide StageSlopes, NextState, ErrorEstimate, Weighted, Estimated, MulV;
    var k := StageSlopes(flow, p, d);
    SlopesOfLinear(flow, m, b, p, d, w, k);
    var x := NextState(p.x, k, d);
    forall l: nat | l < |p.x|
      ensures x[l] == p.x[l] + d * Entry(w, S7(), l)
    {
      NextStateEntry(p.x, k, d, l);
      WeightValues(k.k1[l], k.k3[l], k.k4[l], k.k5[l], k.k6[l]);
      RowsCombine(k, w, l);
    }
    StageSlope(flow, m, b, p.x, d, w, p.t + d, x, S7());
    EstimateEntry(k, Step(flow, p, d).dxdt, d, i);
    EstimateCombines(k, Step(flow, p, d).dxdt, w, i);
    assert x[i] == p.x[i] + d * Entry(w, S7(), i);
  }

  // ----- the linear test equation

  ghost predicate Proportional(flow: (real, Vec) -> Vec, lambda: real) {
    forall t: real, x: Vec :: flow(t, x) == Scale(lambda, x)
  }

  /** The stability function. */
  function Growth(z: real): real {
    1.0 + z + Power(z, 2) / 2.0 + Power(z, 3) / 6.0 + Power(z, 4) / 24.0 + Power(z, 5) / 120.0 + Power(z, 6) / 600.0
  }

  function ScalarMat(c: real, n: nat): (r: Mat)
    ensures r.cols == |r.rows| == n
  {
    MScale(c, Identity(n))
  }

  lemma ScalarAction(c: real, x: Vec)
    ensures MulV(ScalarMat(c, |x|), x) == Scale(c, x)
  {
    MScaleMulV(c, Identity(|x|), x);
    IdentityMulV(x);
  }

  lemma ScaleTwice(a: real, b: real, x: Vec, ab: real)
    requires ab == a * b
    ensures Scale(a, Scale(b, x)) == Scale(ab, x)
  {
    forall i | 0 <= i < |x|
      ensures Scale(a, Scale(b, x))[i] == Scale(ab, x)[i]
    {
      assert a * (b * x[i]) == (a * b) * x[i];
    }
  }

  /** The powers of a multiple of the identity. */
  function ScalarKrylov(z: real, y: Vec): (w: seq<Vec>)
    ensures SevenOf(w, |y|)
  {
    seq(7, k requires 0 <= k < 7 => Scale(Power(z, k), y))
  }

  lemma ScalarKrylovEntry(z: real, y: Vec, i: nat)
    requires i < |y|
    ensures var w := ScalarKrylov(z, y); w[0][i] == y[i] && forall k: nat | k < 7 :: w[k][i] == Power(z, k) * y[i]
  {
    hide Power;
    NoFactor(z);
  }

  lemma ScalarPowers(z: real, lambda: real, d: real, y: Vec)
    requires z == d * lambda
    ensures IsKrylov(ScalarKrylov(z, y), MScale(d, ScalarMat(lambda, |y|)), y)
  {
    hide Power, MulV, ScalarMat;
    var m, w := ScalarMat(lambda, |y|), ScalarKrylov(z, y);
    var n := MScale(d, m);
    assert Power(z, 0) == 1.0 by { NoFactor(z); }
    assert w[0] == y;
    forall k: nat | k < 6
      ensures w[k+1] == MulV(n, w[k])
    {
      MScaleMulV(d, m, w[k]);
      ScalarAction(lambda, w[k]);
      ScaleTwice(d, lambda, w[k], z);
      OneMorePower(z, k);
      ScaleTwice(z, Power(z, k), y, Power(z, k + 1));
    }
  }

  lemma NoFactor(z: real)
    ensures Power(z, 0) == 1.0 && Power(z, 1) == z
  {
  }

  lemma OneMorePower(z: real, k: nat)
    ensures Power(z, k + 1) == z * Power(z, k)
  {
  }

  /** With w[k] = z^k lambda x, the increment is x times the rest of the stability function. */
  lemma GrowthOfPowers(z: real, lambda: real, d: real, x: real, y: real, w1: real, w2: real, w3: real, w4: real,
                       w5: real)
    requires z == d * lambda && y == lambda * x
    requires w1 == Power(z, 1) * y && w2 == Power(z, 2) * y && w3 == Power(z, 3) * y && w4 == Power(z, 4) * y
             && w5 == Power(z, 5) * y
    ensures x + d * (y + w1 / 2.0 + w2 / 6.0 + w3 / 24.0 + w4 / 120.0 + w5 / 600.0) == Growth(z) * x
  {
    hide Power;
    NoFactor(z);
    var s := 1.0 + Power(z, 1) / 2.0 + Power(z, 2) / 6.0 + Power(z, 3) / 24.0 + Power(z, 4) / 120.0
             + Power(z, 5) / 600.0;
    assert y + w1 / 2.0 + w2 / 6.0 + w3 / 24.0 + w4 / 120.0 + w5 / 600.0 == s * y by {
      SumTimes(Power(z, 1), Power(z, 2), Power(z, 3), Power(z, 4), Power(z, 5), y, s);
    }
    assert d * (s * y) == (z * s) * x by {
      assert d * (s * (lambda * x)) == ((d * lambda) * s) * x;
    }
    OneMorePower(z, 1);
    OneMorePower(z, 2);
    OneMorePower(z, 3);
    OneMorePower(z, 4);
    OneMorePower(z, 5);
    TimesSum6(z, Power(z, 1), Power(z, 2), Power(z, 3), Power(z, 4), Power(z, 5), s);
    assert Growth(z) == 1.0 + z * s;
    AddOne(z * s, x);
  }

  lemma AddOne(a: real, x: real)
    ensures x + a * x == (1.0 + a) * x
  {
  }

  lemma SumTimes(p1: real, p2: real, p3: real, p4: real, p5: real, y: real, s: real)
    requires s == 1.0 + p1 / 2.0 + p2 / 6.0 + p3 / 24.0 + p4 / 120.0 + p5 / 600.0
    ensures y + (p1 * y) / 2.0 + (p2 * y) / 6.0 + (p3 * y) / 24.0 + (p4 * y) / 120.0 + (p5 * y) / 600.0 == s * y
  {
  }

  lemma TimesSum6(z: real, p1: real, p2: real, p3: real, p4: real, p5: real, s: real)
    requires s == 1.0 + p1 / 2.0 + p2 / 6.0 + p3 / 24.0 + p4 / 120.0 + p5 / 600.0
    ensures z * s == z + (z * p1) / 2.0 + (z * p2) / 6.0 + (z * p3) / 24.0 + (z * p4) / 120.0 + (z * p5) / 600.0
  {
  }

  lemma ProportionalSetup(flow: (real, Vec) -> Vec, lambda: real, p: Point, d: real, z: real)
    requires Shaped(flow) && Proportional(flow, lambda) && p.dxdt == flow(p.t, p.x) && z == d * lambda
    ensures Setup(flow, ScalarMat(lambda, |p.x|), Zeros(|p.x|), p, d, ScalarKrylov(z, Scale(lambda, p.x)))
  {
    hide MulV, ScalarMat, Power, IsKrylov, Linear;
    FlowScales(flow, lambda, p.t, p.x);
    ProportionalIsLinear(flow, lambda, p.x);
    ScalarPowers(z, lambda, d, Scale(lambda, p.x));
  }

  /** One step multiplies every component by the stability function. */
  lemma StepGrows(flow: (real, Vec) -> Vec, lambda: real, p: Point, d: real, i: nat, z: real)
    requires Shaped(flow) && Proportional(flow, lambda) && |p.x| == |p.dxdt| && i < |p.x| && p.dxdt == flow(p.t, p.x)
    requires z == d * lambda
    ensures Step(flow, p, d).x[i] == Growth(z) * p.x[i]
  {
    hide Step, StageSlopes, ErrorEstimate, Growth, Setup, Power, Proportional, ScalarKrylov;
    var w := ScalarKrylov(z, Scale(lambda, p.x));
    ProportionalSetup(flow, lambda, p, d, z);
    StepOfLinear(flow, ScalarMat(lambda, |p.x|), Zeros(|p.x|), p, d, w, i);
    ScalarKrylovEntry(z, Scale(lambda, p.x), i);
    GrowthOfPowers(z, lambda, d, p.x[i], lambda * p.x[i], w[1][i], w[2][i], w[3][i], w[4][i], w[5][i]);
  }

  lemma FlowScales(flow: (real, Vec) -> Vec, lambda: real, t: real, x: Vec)
    requires Proportional(flow, lambda)
    ensures flow(t, x) == Scale(lambda, x)
  {
  }

  lemma ProportionalIsLinear(flow: (real, Vec) -> Vec, lambda: real, x: Vec)
    requires Shaped(flow) && Proportional(flow, lambda)
    ensures Linear(flow, ScalarMat(lambda, |x|), Zeros(|x|))
    ensures Scale(lambda, x) == Add(MulV(ScalarMat(lambda, |x|), x), Zeros(|x|))
  {
    hide MulV, ScalarMat, Proportional;
    ScalarAction(lambda, x);
    PlusZeros(Scale(lambda, x));
    forall t: real, v: Vec | |v| == |x|
      ensures flow(t, v) == Add(MulV(ScalarMat(lambda, |x|), v), Zeros(|x|))
    {
      FlowScales(flow, lambda, t, v);
      ScalarAction(lambda, v);
      PlusZeros(Scale(lambda, v));
    }
  }

  lemma PlusZeros(v: Vec)
    ensures Add(v, Zeros(|v|)) == v
  {
  }

  /** n steps multiply the state by the n-th power of the stability function. */
  lemma {:induction false} ConstStepsGrow(flow: (real, Vec) -> Vec, lambda: real, x: Vec, startTime: real, dt: real,
                                          n: nat, g: real)
    requires Shaped(flow) && Proportional(flow, lambda) && g == Growth(dt * lambda)
    ensures ConstPoint(flow, x, startTime, dt, n).x == Scale(Power(g, n), x)
  {
    hide Growth, Step, Proportional, Shaped;
    var r := ConstPoint(flow, x, startTime, dt, n).x;
    if n == 0 {
      assert r == Scale(1.0, x);
    } else {
      var p := ConstPoint(flow, x, startTime, dt, n - 1);
      ConstStepsGrow(flow, lambda, x, startTime, dt, n - 1, g);
      forall i | 0 <= i < |x|
        ensures r[i] == Scale(Power(g, n), x)[i]
      {
        StepGrows(flow, lambda, p, dt, i, dt * lambda);
        OneMoreStep(g, Power(g, n - 1), x[i], p.x[i], Power(g, n));
      }
    }
  }

  lemma OneMoreStep(g: real, p: real, x: real, px: real, p': real)
    requires px == p * x && p' == p * g
    ensures g * px == p' * x
  {
    assert g * (p * x) == (p * g) * x;
  }
}
