/** What the Dormand-Prince steps compute exactly: quadrature of polynomials, and steps of linear systems. */
module DormandPrinceAccuracy {
  import opened Vectors
  import opened Norms
  import opened Odes
  import opened Polynomials
  import opened DormandPrince

  // ----- the weights

  function Weighted(k1: real, k3: real, k4: real, k5: real, k6: real): real {
    C1 * k1 + C3 * k3 + C4 * k4 + C5 * k5 + C6 * k6
  }

  function Estimated(k1: real, k3: real, k4: real, k5: real, k6: real, k7: real): real {
    DC1 * k1 + DC3 * k3 + DC4 * k4 + DC5 * k5 + DC6 * k6 + DC7 * k7
  }

  /** The weights as numbers. */
  lemma WeightValues(k1: real, k3: real, k4: real, k5: real, k6: real)
    ensures Weighted(k1, k3, k4, k5, k6)
            == 35.0 / 384.0 * k1 + 500.0 / 1113.0 * k3 + 125.0 / 192.0 * k4 - 2187.0 / 6784.0 * k5 + 11.0 / 84.0 * k6
    ensures Estimated(k1, k3, k4, k5, k6, k6)
            == 71.0 / 57600.0 * k1 - 71.0 / 16695.0 * k3 + 71.0 / 1920.0 * k4 - 17253.0 / 339200.0 * k5
                + 22.0 / 525.0 * k6
               - 1.0 / 40.0 * k6
  {
  }

  lemma SixTerms(n: Vec, a: real)
    requires |n| == 6
    ensures Poly(n, a) == n[0] + a * (n[1] + a * (n[2] + a * (n[3] + a * (n[4] + a * n[5]))))
  {
    assert n[1..][1..] == n[2..] && n[2..][1..] == n[3..] && n[3..][1..] == n[4..] && n[4..][1..] == n[5..]
           && n[5..][1..] == [];
    assert Poly(n[5..], a) == n[5];
    assert Poly(n[4..], a) == n[4] + a * Poly(n[5..], a);
    assert Poly(n[3..], a) == n[3] + a * Poly(n[4..], a);
    assert Poly(n[2..], a) == n[2] + a * Poly(n[3..], a);
    assert Poly(n[1..], a) == n[1] + a * Poly(n[2..], a);
  }

  /** On samples of a quintic the weights give its mean, but for the leading term. */
  lemma WeightSamples(n: Vec, p1: real, p3: real, p4: real, p5: real, p6: real)
    requires |n| == 6 && p1 == Poly(n, 0.0) && p3 == Poly(n, 0.3) && p4 == Poly(n, 0.8) && p5 == Poly(n, 8.0 / 9.0)
             && p6 == Poly(n, 1.0)
    ensures Weighted(p1, p3, p4, p5, p6)
            == n[0] + n[1] / 2.0 + n[2] / 3.0 + n[3] / 4.0 + n[4] / 5.0 + n[5] / 6.0 - n[5] / 5400.0
    ensures Estimated(p1, p3, p4, p5, p6, p6) == 71.0 / 270000.0 * n[4] + 19099.0 / 24300000.0 * n[5]
  {
    hide Weighted, Estimated, Poly;
    SixTerms(n, 0.0);
    SixTerms(n, 0.3);
    SixTerms(n, 0.8);
    SixTerms(n, 8.0 / 9.0);
    SixTerms(n, 1.0);
    WeightValues(p1, p3, p4, p5, p6);
  }

  // ----- one step on the derivative of a polynomial of degree six

  /** The derivative of the polynomial q at t + d a, in terms of the fraction a of the step. */
  function StepSamples(q: Vec, t: real, d: real): (n: Vec)
    requires |q| == 7
    ensures |n| == 6
  {
    Rescale(Taylor(Derivative(q), t), d)
  }

  lemma SampleAt(q: Vec, t: real, d: real, a: real, s: real)
    requires |q| == 7 && s == t + d * a
    ensures Poly(Derivative(q), s) == Poly(StepSamples(q, t, d), a)
  {
    hide Derivative, Poly, Taylor, Rescale;
    TaylorExpands(Derivative(q), t, d * a);
    RescaleMeans(Taylor(Derivative(q), t), d, a, d * a);
  }

  lemma SampleEntries(q: Vec, t: real, d: real, j: nat, n: real)
    requires |q| == 7 && j < 6 && n == (j + 1) as real
    ensures StepSamples(q, t, d)[j] == n * Rescale(Taylor(q, t)[1..], d)[j]
  {
    hide Taylor, Rescale;
    DerivativeTaylor(q, t);
    var e := Taylor(q, t);
    RescaleEntry(Derivative(e), d, j);
    RescaleEntry(e[1..], d, j);
    assert (n * e[j+1]) * Power(d, j) == n * (e[j+1] * Power(d, j));
  }

  lemma Unfold(c: Vec, t: real)
    requires c != []
    ensures Poly(c, t) == c[0] + t * Poly(c[1..], t) && Poly(c, 0.0) == c[0]
  {
  }

  lemma SampleSum(q: Vec, t: real, d: real, n: Vec, p: real)
    requires |q| == 7 && n == StepSamples(q, t, d) && p == Poly(Taylor(q, t)[1..], d)
    ensures p == n[0] + n[1] / 2.0 + n[2] / 3.0 + n[3] / 4.0 + n[4] / 5.0 + n[5] / 6.0
  {
    hide Taylor, Rescale, Derivative, StepSamples, Poly;
    var e := Taylor(q, t);
    var m := Rescale(e[1..], d);
    RescaleMeans(e[1..], d, 1.0, d);
    SixTerms(m, 1.0);
    SampleEntries(q, t, d, 0, 1.0);
    SampleEntries(q, t, d, 1, 2.0);
    SampleEntries(q, t, d, 2, 3.0);
    SampleEntries(q, t, d, 3, 4.0);
    SampleEntries(q, t, d, 4, 5.0);
    SampleEntries(q, t, d, 5, 6.0);
    assert p == Poly(m, 1.0);
    assert Poly(m, 1.0) == m[0] + m[1] + m[2] + m[3] + m[4] + m[5];
  }

  /** The integral over the step. */
  lemma IntegralOverStep(q: Vec, t: real, d: real, s: real, n: Vec)
    requires |q| == 7 && n == StepSamples(q, t, d) && s == t + d
    ensures Poly(q, s) - Poly(q, t) == d * (n[0] + n[1] / 2.0 + n[2] / 3.0 + n[3] / 4.0 + n[4] / 5.0 + n[5] / 6.0)
  {
    hide Taylor, StepSamples, Poly;
    var e := Taylor(q, t);
    TaylorExpands(q, t, d);
    TaylorExpands(q, t, 0.0);
    Unfold(e, d);
    SampleSum(q, t, d, n, Poly(e[1..], d));
  }

  lemma LastSample(q: Vec, t: real, d: real)
    requires |q| == 7
    ensures StepSamples(q, t, d)[5] == 6.0 * q[6] * Power(d, 5)
    ensures q[6] == 0.0 ==> StepSamples(q, t, d)[4] == 5.0 * q[5] * Power(d, 4)
  {
    hide Taylor, Rescale;
    var r := Derivative(q);
    TaylorTop(r, t);
    RescaleEntry(Taylor(r, t), d, 5);
    if q[6] == 0.0 {
      assert r == r[..5] + [0.0];
      TaylorPad(r[..5], t);
      TaylorTop(r[..5], t);
      RescaleEntry(Taylor(r, t), d, 4);
    }
  }

  // ----- right-hand sides that are polynomial in time

  /** Component i of the flow is the derivative of the polynomial q[i] of degree six, whatever the state. */
  ghost predicate InTime(flow: (real, Vec) -> Vec, q: seq<Vec>) {
    && Shaped(flow)
    && (forall i | 0 <= i < |q| :: |q[i]| == 7)
    && forall t: real, x: Vec, i | |x| == |q| && 0 <= i < |q| :: flow(t, x)[i] == Poly(Derivative(q[i]), t)
  }

  lemma FlowEntry(flow: (real, Vec) -> Vec, q: seq<Vec>, t: real, d: real, a: real, s: real, x: Vec, i: nat)
    requires InTime(flow, q) && |x| == |q| && i < |q| && s == t + d * a
    ensures |q[i]| == 7 && |flow(s, x)| == |x| && flow(s, x)[i] == Poly(StepSamples(q[i], t, d), a)
  {
    hide Poly, Derivative, StepSamples;
    SampleAt(q[i], t, d, a, s);
  }

  lemma SlopesInTime(flow: (real, Vec) -> Vec, q: seq<Vec>, p: Point, d: real, i: nat, k: Slopes, n: Vec)
    requires Shaped(flow) && InTime(flow, q) && |p.x| == |p.dxdt| == |q| && i < |q| && |q[i]| == 7
             && p.dxdt == flow(p.t, p.x)
    requires k == StageSlopes(flow, p, d) && n == StepSamples(q[i], p.t, d)
    ensures k.k1[i] == Poly(n, 0.0) && k.k3[i] == Poly(n, 0.3) && k.k4[i] == Poly(n, 0.8)
            && k.k5[i] == Poly(n, 8.0 / 9.0)
    ensures k.k6[i] == Poly(n, 1.0) && Step(flow, p, d).dxdt[i] == Poly(n, 1.0)
  {
    hide Argument2, Argument3, Argument4, Argument5, Argument6, NextState, Poly, Derivative, StepSamples, InTime,
        Shaped;
    FlowEntry(flow, q, p.t, d, 0.0, p.t, p.x, i);
    FlowEntry(flow, q, p.t, d, 0.3, p.t + d * A3, Argument3(p.x, k.k1, k.k2, d), i);
    FlowEntry(flow, q, p.t, d, 0.8, p.t + d * A4, Argument4(p.x, k.k1, k.k2, k.k3, d), i);
    FlowEntry(flow, q, p.t, d, 8.0 / 9.0, p.t + d * A5, Argument5(p.x, k.k1, k.k2, k.k3, k.k4, d), i);
    FlowEntry(flow, q, p.t, d, 1.0, p.t + d, Argument6(p.x, k.k1, k.k2, k.k3, k.k4, k.k5, d), i);
    FlowEntry(flow, q, p.t, d, 1.0, p.t + d, NextState(p.x, k, d), i);
  }

  lemma NextStateEntry(x: Vec, k: Slopes, d: real, i: nat)
    requires |k.k1| == |k.k3| == |k.k4| == |k.k5| == |k.k6| == |x| && i < |x|
    ensures NextState(x, k, d)[i] == x[i] + d * Weighted(k.k1[i], k.k3[i], k.k4[i], k.k5[i], k.k6[i])
  {
  }

  lemma EstimateEntry(k: Slopes, k7: Vec, d: real, i: nat)
    requires |k.k1| == |k.k3| == |k.k4| == |k.k5| == |k.k6| == |k7| && i < |k7|
    ensures ErrorEstimate(k, k7, d)[i] == d * Estimated(k.k1[i], k.k3[i], k.k4[i], k.k5[i], k.k6[i], k7[i])
  {
  }

  /** Components of the points at which the stages are evaluated. */
  lemma ArgumentEntries(x: Vec, k1: Vec, k2: Vec, k3: Vec, k4: Vec, k5: Vec, d: real, i: nat)
    requires |x| == |k1| == |k2| == |k3| == |k4| == |k5| && i < |x|
    ensures Argument2(x, k1, d)[i] == x[i] + d * (1.0 / 5.0 * k1[i])
    ensures Argument3(x, k1, k2, d)[i] == x[i] + d * (3.0 / 40.0 * k1[i] + 9.0 / 40.0 * k2[i])
    ensures Argument4(x, k1, k2, k3, d)[i]
            == x[i] + d * (44.0 / 45.0 * k1[i] - 56.0 / 15.0 * k2[i] + 32.0 / 9.0 * k3[i])
    ensures Argument5(x, k1, k2, k3, k4, d)[i]
            == x[i] + d * (19372.0 / 6561.0 * k1[i] - 25360.0 / 2187.0 * k2[i] + 64448.0 / 6561.0 * k3[i]
                           - 212.0 / 729.0 * k4[i])
    ensures Argument6(x, k1, k2, k3, k4, k5, d)[i]
            == x[i] + d * (9017.0 / 3168.0 * k1[i] - 355.0 / 33.0 * k2[i] + 46732.0 / 5247.0 * k3[i]
                           + 49.0 / 176.0 * k4[i]
                           - 5103.0 / 18656.0 * k5[i])
  {
  }

  /**
   * What the step adds, component by component: the integral, but for a sixth-power term of the leading coefficient.
   */
  function Increment(q: Vec, t: real, t': real, d: real): real
    requires |q| == 7
  {
    Poly(q, t') - Poly(q, t) - q[6] * Power(d, 6) / 900.0
  }

  lemma LeadingTerm(d: real, n5: real, c: real, p5: real, p6: real)
    requires n5 == 6.0 * c * p5 && p6 == p5 * d
    ensures d * (n5 / 5400.0) == c * p6 / 900.0
  {
    assert d * (c * p5) == c * (p5 * d);
  }

  lemma StepInTime(flow: (real, Vec) -> Vec, q: seq<Vec>, p: Point, d: real, i: nat)
    requires Shaped(flow) && InTime(flow, q) && |p.x| == |p.dxdt| == |q| && i < |q| && |q[i]| == 7
             && p.dxdt == flow(p.t, p.x)
    ensures Step(flow, p, d).x[i] == p.x[i] + Increment(q[i], p.t, p.t + d, d)
    ensures q[i][6] == 0.0 ==>
            ErrorEstimate(StageSlopes(flow, p, d), Step(flow, p, d).dxdt, d)[i]
                == 71.0 / 54000.0 * q[i][5] * Power(d, 5)
  {
    hide Poly, Derivative, StepSamples, NextState, ErrorEstimate, StageSlopes, Weighted, Estimated, InTime;
    var k, n := StageSlopes(flow, p, d), StepSamples(q[i], p.t, d);
    SlopesInTime(flow, q, p, d, i, k, n);
    WeightSamples(n, k.k1[i], k.k3[i], k.k4[i], k.k5[i], k.k6[i]);
    NextStateEntry(p.x, k, d, i);
    IntegralOverStep(q[i], p.t, d, p.t + d, n);
    LastSample(q[i], p.t, d);
    LeadingTerm(d, n[5], q[i][6], Power(d, 5), Power(d, 6));
    EstimateEntry(k, Step(flow, p, d).dxdt, d, i);
    if q[i][6] == 0.0 {
      FifthTerm(d, n[4], q[i][5], Power(d, 4), Power(d, 5));
    }
  }

  lemma FifthTerm(d: real, n4: real, c: real, p4: real, p5: real)
    requires n4 == 5.0 * c * p4 && p5 == p4 * d
    ensures d * (71.0 / 270000.0 * n4) == 71.0 / 54000.0 * c * p5
  {
    assert d * (c * p4) == c * (p4 * d);
  }

  // ----- runs on right-hand sides that are polynomial in time

  /**
   * n steps of equal size: the integral up to degree four of the right-hand side, and the exact error at degree five.
   */
  lemma {:induction false} ConstStepsIntegrate(flow: (real, Vec) -> Vec, q: seq<Vec>, x: Vec, startTime: real, dt: real,
                                               n: nat, i: nat)
    requires Shaped(flow) && InTime(flow, q) && |x| == |q| && i < |q| && |q[i]| == 7
    ensures ConstPoint(flow, x, startTime, dt, n).x[i]
            == x[i] + (Poly(q[i], StepTime(startTime, n, dt)) - Poly(q[i], startTime))
               - (n as real) * (q[i][6] * Power(dt, 6) / 900.0)
  {
    hide Poly, Step, InTime, StepTime, Power;
    var e := q[i][6] * Power(dt, 6) / 900.0;
    ConstPointTime(flow, x, startTime, dt, n);
    if n == 0 {
      assert (n as real) * e == 0.0;
    } else {
      var p := ConstPoint(flow, x, startTime, dt, n - 1);
      ConstStepsIntegrate(flow, q, x, startTime, dt, n - 1, i);
      ConstPointTime(flow, x, startTime, dt, n - 1);
      NextStepTime(startTime, n - 1, dt);
      StepInTime(flow, q, p, dt, i);
      var here, next, k := Poly(q[i], p.t), Poly(q[i], p.t + dt), (n - 1) as real;
      assert p.x[i] == x[i] + (here - Poly(q[i], startTime)) - k * e;
      assert Step(flow, p, dt).x[i] == p.x[i] + (next - here - e);
      NextMultiple(k, e, n as real);
    }
  }

  lemma NextMultiple(k: real, e: real, n: real)
    requires n == k + 1.0
    ensures n * e == k * e + e
  {
  }

  /** Every observation of a run with constant steps is exact when the right-hand side has degree at most four. */
  lemma ConstRunIsExact(flow: (real, Vec) -> Vec, q: seq<Vec>, x: Vec, startTime: real, finalTime: real, dt: real,
                        observed: seq<Observation>, n: nat, i: nat)
    requires Shaped(flow) && InTime(flow, q) && |x| == |q| && i < |q| && |q[i]| == 7 && q[i][6] == 0.0
    requires ConstRun(flow, x, startTime, finalTime, dt, observed) && n < |observed|
    ensures |observed[n].x| == |q|
    ensures observed[n].x[i] == x[i] + (Poly(q[i], observed[n].t) - Poly(q[i], startTime))
  {
    hide Poly, InTime, ConstPoint, GoesOn, Power, StepTime;
    ConstStepsIntegrate(flow, q, x, startTime, dt, n, i);
  }

  /** So is every observation of an adaptive run, whichever step sizes it chose. */
  lemma {:induction false} AdaptiveRunIsExact(flow: (real, Vec) -> Vec, q: seq<Vec>, observed: seq<Observation>,
                                              tol: Tolerance, n: nat, i: nat)
    requires Shaped(flow) && InTime(flow, q) && i < |q| && |q[i]| == 7 && q[i][6] == 0.0 && tol.Valid()
    requires AdaptiveRun(flow, observed, tol) && n < |observed| && |observed[0].x| == |q|
    ensures |observed[n].x| == |q|
    ensures observed[n].x[i] == observed[0].x[i] + (Poly(q[i], observed[n].t) - Poly(q[i], observed[0].t))
  {
    hide Poly, InTime, TrialError, Step;
    if n > 0 {
      AdaptiveRunIsExact(flow, q, observed, tol, n - 1, i);
      assert AcceptedAt(flow, observed, n - 1, tol);
      var o := observed[n-1];
      var p, d := Point(o.x, flow(o.t, o.x), o.t), observed[n].t - o.t;
      StepInTime(flow, q, p, d, i);
    }
  }

  /** Every component is allowed some error. */
  ghost predicate AllAllowed(x: Vec, dxdt: Vec, d: real, tol: Tolerance)
    requires |x| == |dxdt| && tol.Valid()
  {
    forall i | 0 <= i < |x| :: tol.Allowed(x[i], dxdt[i], d) > 0.0
  }

  /**
   * Up to degree three the error estimate vanishes, so every trial step is accepted. The next one is 4.5 times as large
   * if every component is allowed some error, and otherwise of the same size.
   */
  lemma CubicsPassTheTest(flow: (real, Vec) -> Vec, q: seq<Vec>, p: Point, d: real, tol: Tolerance,
                          invRoot: (real, nat) -> real)
    requires Shaped(flow) && InTime(flow, q) && |p.x| == |p.dxdt| == |q| && p.dxdt == flow(p.t, p.x) && tol.Valid()
    requires IsInverseRoot(invRoot)
    requires forall i | 0 <= i < |q| :: |q[i]| == 7 && q[i][6] == 0.0 && q[i][5] == 0.0
    ensures ErrorEstimate(StageSlopes(flow, p, d), Step(flow, p, d).dxdt, d) == Zeros(|q|)
    ensures TrialError(flow, p, d, tol) <= 1.0
    ensures IncreaseStep(invRoot, d, TrialError(flow, p, d, tol))
            == if AllAllowed(p.x, p.dxdt, d, tol) then d * 4.5 else d
  {
    hide InTime, Step, StageSlopes, ErrorEstimate, IsInverseRoot, AllAllowed, MaxError;
    var e := ErrorEstimate(StageSlopes(flow, p, d), Step(flow, p, d).dxdt, d);
    forall i | 0 <= i < |q|
      ensures e[i] == 0.0
    {
      StepInTime(flow, q, p, d, i);
    }
    assert e == Zeros(|q|);
    NoError(p.x, p.dxdt, d, tol);
    LargestIncrease(invRoot, d);
  }

  lemma NoError(x: Vec, dxdt: Vec, d: real, tol: Tolerance)
    requires |x| == |dxdt| && tol.Valid()
    ensures MaxError(x, dxdt, Zeros(|x|), d, tol) == if AllAllowed(x, dxdt, d, tol) then 0.0 else UNDEFINED
  {
    hide Tolerance.Allowed, MaxAbsTo;
    var err := seq(|x|, i requires 0 <= i < |x| => Quotient(Zeros(|x|)[i], tol.Allowed(x[i], dxdt[i], d)));
    var m := MaxAbsTo(err, |err|);
    assert forall i | 0 <= i < |x| :: err[i] == if tol.Allowed(x[i], dxdt[i], d) > 0.0 then 0.0 else UNDEFINED;
    if !AllAllowed(x, dxdt, d, tol) {
      var i :| 0 <= i < |x| && tol.Allowed(x[i], dxdt[i], d) <= 0.0;
      assert Abs(err[i]) == UNDEFINED;
    }
  }

  lemma LargestIncrease(invRoot: (real, nat) -> real, d: real)
    requires IsInverseRoot(invRoot)
    ensures IncreaseStep(invRoot, d, 0.0) == d * 4.5
  {
    var e := 1.0 / 3125.0;
    var r := invRoot(e, 5);
    assert Power(r, 5) * e == 1.0;
    FifthPowers();
    RootBounds(r, e, 5, Power(r, 5), 5.0, 3125.0, 1.0);
    if r < 5.0 {
      PowerStrict(r, 5.0, 5);
    }
  }
}
