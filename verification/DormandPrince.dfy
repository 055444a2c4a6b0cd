/** The Dormand-Prince integrator. */
module DormandPrince {
  import opened Vectors
  import opened Norms
  import opened NumericTraits
  import opened Odes
  import opened Polynomials

  // ----- the Butcher tableau

  const A2 := 1.0 / 5.0
  const A3 := 3.0 / 10.0
  const A4 := 4.0 / 5.0
  const A5 := 8.0 / 9.0
  const B21 := 1.0 / 5.0
  const B31 := 3.0 / 40.0
  const B32 := 9.0 / 40.0
  const B41 := 44.0 / 45.0
  const B42 := -56.0 / 15.0
  const B43 := 32.0 / 9.0
  const B51 := 19372.0 / 6561.0
  const B52 := -25360.0 / 2187.0
  const B53 := 64448.0 / 6561.0
  const B54 := -212.0 / 729.0
  const B61 := 9017.0 / 3168.0
  const B62 := -355.0 / 33.0
  const B63 := 46732.0 / 5247.0
  const B64 := 49.0 / 176.0
  const B65 := -5103.0 / 18656.0
  const C1 := 35.0 / 384.0
  const C3 := 500.0 / 1113.0
  const C4 := 125.0 / 192.0
  const C5 := -2187.0 / 6784.0
  const C6 := 11.0 / 84.0
  const DC1 := C1 - 5179.0 / 57600.0
  const DC3 := C3 - 7571.0 / 16695.0
  const DC4 := C4 - 393.0 / 640.0
  const DC5 := C5 - -92097.0 / 339200.0
  const DC6 := C6 - 187.0 / 2100.0
  const DC7 := -1.0 / 40.0

  // ----- one step

  /** A state, the derivative the next step starts from, and the time. */
  datatype Point = Point(x: Vec, dxdt: Vec, t: real)

  datatype Slopes = Slopes(k1: Vec, k2: Vec, k3: Vec, k4: Vec, k5: Vec, k6: Vec)

  function Argument2(x: Vec, k1: Vec, dt: real): (r: Vec)
    requires |x| == |k1|
    ensures |r| == |x|
  {
    Add(x, Scale(dt * B21, k1))
  }

  function Argument3(x: Vec, k1: Vec, k2: Vec, dt: real): (r: Vec)
    requires |x| == |k1| == |k2|
    ensures |r| == |x|
  {
    Add(Add(x, Scale(dt * B31, k1)), Scale(dt * B32, k2))
  }

  function Argument4(x: Vec, k1: Vec, k2: Vec, k3: Vec, dt: real): (r: Vec)
    requires |x| == |k1| == |k2| == |k3|
    ensures |r| == |x|
  {
    Add(x, Scale(dt, Add(Add(Scale(B41, k1), Scale(B42, k2)), Scale(B43, k3))))
  }

  function Argument5(x: Vec, k1: Vec, k2: Vec, k3: Vec, k4: Vec, dt: real): (r: Vec)
    requires |x| == |k1| == |k2| == |k3| == |k4|
    ensures |r| == |x|
  {
    Add(x, Scale(dt, Add(Add(Add(Scale(B51, k1), Scale(B52, k2)), Scale(B53, k3)), Scale(B54, k4))))
  }

  function Argument6(x: Vec, k1: Vec, k2: Vec, k3: Vec, k4: Vec, k5: Vec, dt: real): (r: Vec)
    requires |x| == |k1| == |k2| == |k3| == |k4| == |k5|
    ensures |r| == |x|
  {
    Add(x, Scale(dt, Add(Add(Add(Add(Scale(B61, k1), Scale(B62, k2)), Scale(B63, k3)), Scale(B64, k4)),
                         Scale(B65, k5))))
  }

  /** The six slopes of a step; the first is the derivative the step starts from. */
  function StageSlopes(flow: (real, Vec) -> Vec, p: Point, dt: real): (k: Slopes)
    requires Shaped(flow) && |p.x| == |p.dxdt|
    ensures |k.k1| == |k.k2| == |k.k3| == |k.k4| == |k.k5| == |k.k6| == |p.x|
  {
    var k1 := p.dxdt;
    var k2 := flow(p.t + dt * A2, Argument2(p.x, k1, dt));
    var k3 := flow(p.t + dt * A3, Argument3(p.x, k1, k2, dt));
    var k4 := flow(p.t + dt * A4, Argument4(p.x, k1, k2, k3, dt));
    var k5 := flow(p.t + dt * A5, Argument5(p.x, k1, k2, k3, k4, dt));
    var k6 := flow(p.t + dt, Argument6(p.x, k1, k2, k3, k4, k5, dt));
    Slopes(k1, k2, k3, k4, k5, k6)
  }

  function NextState(x: Vec, k: Slopes, dt: real): (r: Vec)
    requires |k.k1| == |k.k3| == |k.k4| == |k.k5| == |k.k6| == |x|
    ensures |r| == |x|
  {
    Add(x, Scale(dt, Add(Add(Add(Add(Scale(C1, k.k1), Scale(C3, k.k3)), Scale(C4, k.k4)), Scale(C5, k.k5)),
                         Scale(C6, k.k6))))
  }

  function Step(flow: (real, Vec) -> Vec, p: Point, dt: real): (r: Point)
    requires Shaped(flow) && |p.x| == |p.dxdt|
    ensures |r.x| == |r.dxdt| == |p.x| && r.t == p.t + dt
  {
    var x := NextState(p.x, StageSlopes(flow, p, dt), dt);
    Point(x, flow(p.t + dt, x), p.t + dt)
  }

  /** Difference between the results of order five and order four. */
  function ErrorEstimate(k: Slopes, k7: Vec, dt: real): (r: Vec)
    requires |k.k1| == |k.k3| == |k.k4| == |k.k5| == |k.k6| == |k7|
    ensures |r| == |k7|
  {
    Scale(dt, Add(Add(Add(Add(Add(Scale(DC1, k.k1), Scale(DC3, k.k3)), Scale(DC4, k.k4)), Scale(DC5, k.k5)),
                      Scale(DC6, k.k6)),
                  Scale(DC7, k7)))
  }

  // ----- the error test and the step size

  /** Tolerances of the error test. */
  datatype Tolerance = Tolerance(absTol: real, relTol: real) {
    predicate Valid() {
      absTol >= 0.0 && relTol >= 0.0
    }

    /** Error allowed in a component with value x and derivative d. */
    function Allowed(x: real, d: real, dt: real): (r: real)
      requires Valid()
      ensures r >= 0.0
    {
      NonnegativeProduct(Abs(dt), Abs(d));
      NonnegativeProduct(relTol, Abs(x) + Abs(dt) * Abs(d));
      absTol + relTol * (Abs(x) + Abs(dt) * Abs(d))
    }
  }

  /**
   * The allowance is the sum of what each tolerance allows alone: the absolute one the same everywhere, the relative
   * one in proportion to the value and to the increment over the step.
   */
  lemma AllowanceAdds(tol: Tolerance, x: real, d: real, dt: real)
    requires tol.Valid()
    ensures tol.Allowed(x, d, dt) == Tolerance(tol.absTol, 0.0).Allowed(x, d, dt)
                                     + Tolerance(0.0, tol.relTol).Allowed(x, 0.0, dt)
                                     + Tolerance(0.0, tol.relTol).Allowed(0.0, d, dt)
    ensures Tolerance(tol.absTol, 0.0).Allowed(x, d, dt) == tol.absTol
    ensures Tolerance(0.0, tol.relTol).Allowed(x, 0.0, dt) == tol.relTol * Abs(x)
    ensures Tolerance(0.0, tol.relTol).Allowed(0.0, d, dt) == tol.relTol * Abs(dt * d)
  {
    AbsProduct(dt, d, dt * d);
    Distribute(Abs(x), Abs(dt) * Abs(d), tol.relTol);
  }

  /** In other units of the state the test is the same. */
  lemma AllowanceScales(tol: Tolerance, x: real, d: real, dt: real, c: real)
    requires tol.Valid() && c >= 0.0
    ensures c * tol.absTol >= 0.0
    ensures Tolerance(c * tol.absTol, tol.relTol).Allowed(c * x, c * d, dt) == c * tol.Allowed(x, d, dt)
  {
    NonnegativeProduct(c, tol.absTol);
    AbsProduct(c, x, c * x);
    AbsProduct(c, d, c * d);
    AllowanceFactor(tol.absTol, tol.relTol, Abs(x), Abs(dt), Abs(d), c);
  }

  lemma AllowanceFactor(a: real, r: real, x: real, t: real, d: real, c: real)
    ensures c * a + r * (c * x + t * (c * d)) == c * (a + r * (x + t * d))
  {
    assert t * (c * d) == c * (t * d);
    assert c * x + c * (t * d) == c * (x + t * d);
    assert r * (c * (x + t * d)) == c * (r * (x + t * d));
  }

  /** Largest magnitude among the first k components; zero when there are none. */
  function MaxAbsTo(a: Vec, k: nat): (r: real)
    requires k <= |a|
    ensures r >= 0.0
    ensures forall i | 0 <= i < k :: Abs(a[i]) <= r
    ensures r == 0.0 || exists i | 0 <= i < k :: Abs(a[i]) == r
  {
    if k == 0 then 0.0 else
      var m := MaxAbsTo(a, k - 1);
      if Abs(a[k-1]) > m then Abs(a[k-1]) else m
  }

  /** Stands for an infinite error: UnboundedErrorsShrinkAlike shows that its size makes no difference. */
  const UNBOUNDED := 125.0

  /** Stands for a quotient that is not a number: it passes the test, and is too large to lengthen the step. */
  const UNDEFINED := 1.0

  /** Error relative to the allowance. Where nothing is allowed, no error is undefined and any other is unbounded. */
  function Quotient(error: real, allowed: real): (r: real)
    ensures allowed > 0.0 ==> r * allowed == error
  {
    if allowed > 0.0 then error / allowed else if error == 0.0 then UNDEFINED else UNBOUNDED
  }

  function MaxError(x: Vec, dxdt: Vec, xErr: Vec, dt: real, tol: Tolerance): (r: real)
    requires |x| == |dxdt| == |xErr| && tol.Valid()
    ensures r >= 0.0
  {
    var err := seq(|x|, i requires 0 <= i < |x| => Quotient(xErr[i], tol.Allowed(x[i], dxdt[i], dt)));
    MaxAbsTo(err, |err|)
  }

  /** What is assumed of pow(e, -1/n). */
  ghost predicate IsInverseRoot(invRoot: (real, nat) -> real) {
    forall e: real, n: nat | e > 0.0 && n > 0 :: invRoot(e, n) > 0.0 && Power(invRoot(e, n), n) * e == 1.0
  }

  function DecreaseStep(invRoot: (real, nat) -> real, dt: real, error: real): real {
    var factor := 0.9 * invRoot(error, 3);
    dt * (if factor < 0.2 then 0.2 else factor)
  }

  function IncreaseStep(invRoot: (real, nat) -> real, dt: real, error: real): real {
    if error < 0.5 then
      var smallest := 1.0 / 3125.0;
      var e := if smallest < error then error else smallest;
      dt * (0.9 * invRoot(e, 5))
    else dt
  }

  lemma QuotientBound(e: real, a: real)
    requires a >= 0.0
    ensures Abs(Quotient(e, a)) <= 1.0 <==> Abs(e) <= a
  {
    if a > 0.0 {
      RatioBound(e, a, e / a);
    }
  }

  lemma RatioBound(e: real, a: real, q: real)
    requires a > 0.0 && q * a == e
    ensures Abs(q) <= 1.0 <==> Abs(e) <= a
  {
    if q > 1.0 {
      Strict(1.0, q, a);
      assert e > a;
    } else if q < -1.0 {
      Strict(q, -1.0, a);
      assert e < -a;
    } else {
      Monotone(q, 1.0, a);
      Monotone(-1.0, q, a);
      assert -a <= e <= a;
    }
  }

  lemma Strict(p: real, q: real, c: real)
    requires p < q && c > 0.0
    ensures p * c < q * c
  {
    if (q - p) * c <= 0.0 {
      ZeroProduct(q - p, c);
    }
  }

  /** The error test passes exactly when every component is within its own allowance. */
  lemma ErrorTestIsComponentwise(x: Vec, dxdt: Vec, xErr: Vec, dt: real, tol: Tolerance)
    requires |x| == |dxdt| == |xErr| && tol.Valid()
    ensures MaxError(x, dxdt, xErr, dt, tol) <= 1.0
            <==> forall i | 0 <= i < |x| :: Abs(xErr[i]) <= tol.Allowed(x[i], dxdt[i], dt)
  {
    hide Quotient;
    var err := seq(|x|, i requires 0 <= i < |x| => Quotient(xErr[i], tol.Allowed(x[i], dxdt[i], dt)));
    forall i | 0 <= i < |x|
      ensures Abs(err[i]) <= 1.0 <==> Abs(xErr[i]) <= tol.Allowed(x[i], dxdt[i], dt)
    {
      QuotientBound(xErr[i], tol.Allowed(x[i], dxdt[i], dt));
    }
  }

  lemma ComparesWith(p: real, q: real, e: real, a: real, b: real)
    requires e > 0.0 && a == p * e && b == q * e
    ensures p < q ==> a < b
    ensures p == q ==> a == b
    ensures p > q ==> a > b
  {
    if p < q {
      Strict(p, q, e);
    } else if p > q {
      Strict(q, p, e);
    }
  }

  /** The bound is above a root when its own power is too large, and below it when its own power is too small. */
  lemma RootBounds(r: real, e: real, n: nat, p: real, bound: real, power: real, product: real)
    requires r > 0.0 && e > 0.0 && n > 0 && p == Power(r, n) && p * e == 1.0 && bound > 0.0
    requires power == Power(bound, n) && product == power * e
    ensures product >= 1.0 ==> r <= bound
    ensures product > 1.0 ==> r < bound
    ensures product < 1.0 ==> r > bound
  {
    ComparesWith(p, power, e, 1.0, product);
    if r > bound {
      PowerStrict(bound, r, n);
    } else if r < bound {
      PowerStrict(r, bound, n);
    }
  }

  lemma PowerStrict(a: real, b: real, n: nat)
    requires 0.0 < a < b && n > 0
    ensures Power(a, n) < Power(b, n)
  {
    PowerMonotone(a, b, n - 1);
    Strict(a, b, Power(b, n - 1));
    Monotone(Power(a, n - 1), Power(b, n - 1), a);
  }

  lemma {:induction false} PowerMonotone(a: real, b: real, n: nat)
    requires 0.0 < a <= b
    ensures 0.0 < Power(a, n) <= Power(b, n)
  {
    if n > 0 {
      PowerMonotone(a, b, n - 1);
      Strict(0.0, Power(a, n - 1), a);
      Monotone(a, b, Power(b, n - 1));
      Monotone(Power(a, n - 1), Power(b, n - 1), a);
    }
  }

  /**
   * A rejected step is retried with the same sign and a fifth to nine tenths of the size: nine tenths of the factor
   * that would bring an error of third order down to one, but no less than a fifth.
   */
  lemma DecreaseShrinks(invRoot: (real, nat) -> real, dt: real, error: real) returns (factor: real)
    requires IsInverseRoot(invRoot) && error > 1.0
    ensures 0.2 <= factor < 0.9 && DecreaseStep(invRoot, dt, error) == dt * factor
    ensures if factor > 0.2 then Power(factor / 0.9, 3) * error == 1.0 else Power(factor / 0.9, 3) * error >= 1.0
  {
    hide Power;
    var r := invRoot(error, 3);
    assert Power(r, 3) * error == 1.0;
    PowerOne(3);
    RootBounds(r, error, 3, Power(r, 3), 1.0, 1.0, error);
    factor := if 0.9 * r < 0.2 then 0.2 else 0.9 * r;
    if 0.9 * r < 0.2 {
      PowerMonotone(r, factor / 0.9, 3);
      Monotone(Power(r, 3), Power(factor / 0.9, 3), error);
    } else {
      assert factor / 0.9 == r;
    }
  }

  /** From a certain size on the error does not matter: the step is cut to a fifth. */
  lemma UnboundedErrorsShrinkAlike(invRoot: (real, nat) -> real, dt: real, error: real)
    requires IsInverseRoot(invRoot) && error >= UNBOUNDED
    ensures DecreaseStep(invRoot, dt, error) == dt * 0.2
  {
    var r, fifth := invRoot(error, 3), 0.2;
    assert Power(r, 3) * error == 1.0;
    assert Power(fifth, 1) == fifth && Power(fifth, 2) == 0.04;
    RootBounds(r, error, 3, Power(r, 3), fifth, 0.008, 0.008 * error);
  }

  lemma {:induction false} PowerOne(n: nat)
    ensures Power(1.0, n) == 1.0
  {
    if n > 0 {
      PowerOne(n - 1);
    }
  }

  lemma FifthPowers()
    ensures Power(5.0, 5) == 3125.0 && Power(10.0 / 9.0, 5) < 2.0
  {
    var a, b := 5.0, 10.0 / 9.0;
    assert Power(a, 2) == 25.0 && Power(a, 4) == 625.0;
    assert Power(b, 1) == b && Power(b, 2) == 100.0 / 81.0;
    assert Power(b, 3) == 1000.0 / 729.0;
    assert Power(b, 4) == 10000.0 / 6561.0;
  }

  /**
   * An accepted step is followed by one of the same sign, at least as large and at most four and a half times as large:
   * nine tenths of the factor that would bring an error of fifth order up to one, errors counting as 5^-5 at least. An
   * error of one half or more leaves the step as it is.
   */
  lemma IncreaseGrows(invRoot: (real, nat) -> real, dt: real, error: real) returns (factor: real)
    requires IsInverseRoot(invRoot)
    ensures 1.0 <= factor <= 4.5 && IncreaseStep(invRoot, dt, error) == dt * factor
    ensures if error >= 0.5 then factor == 1.0
            else Power(factor / 0.9, 5) * (if error > 1.0 / 3125.0 then error else 1.0 / 3125.0) == 1.0
  {
    hide Power;
    factor := 1.0;
    if error < 0.5 {
      var smallest := 1.0 / 3125.0;
      var e := if smallest < error then error else smallest;
      var r := invRoot(e, 5);
      assert Power(r, 5) * e == 1.0;
      FifthPowers();
      RootBounds(r, e, 5, Power(r, 5), 5.0, 3125.0, 3125.0 * e);
      Monotone(Power(10.0 / 9.0, 5), 2.0, e);
      RootBounds(r, e, 5, Power(r, 5), 10.0 / 9.0, Power(10.0 / 9.0, 5), Power(10.0 / 9.0, 5) * e);
      factor := 0.9 * r;
      assert factor / 0.9 == r;
    }
  }

  // ----- the stepper

  /** Counter after `calls` evaluations, or after the one that throws. */
  function Counted(before: nat, calls: nat, maxNumSteps: nat): (after: nat) {
    if before + calls <= maxNumSteps then before + calls
    else if before <= maxNumSteps then maxNumSteps + 1 else before + 1
  }

  /** The trial step from p with size dt: its slopes and the error measured for it. */
  function TrialError(flow: (real, Vec) -> Vec, p: Point, dt: real, tol: Tolerance): (r: real)
    requires Shaped(flow) && |p.x| == |p.dxdt| && tol.Valid()
    ensures r >= 0.0
  {
    MaxError(p.x, p.dxdt, ErrorEstimate(StageSlopes(flow, p, dt), Step(flow, p, dt).dxdt, dt), dt, tol)
  }

  class Stepper {
    /** The slopes of the last step. */
    var k: Slopes

    constructor ()
    {
      k := Slopes([], [], [], [], [], []);
    }

    /** The slopes of a step, kept in the stepper. */
    method ComputeSlopes(system: Ode, maxNumSteps: nat, x0: Vec, dxdt: Vec, t: real, dt: real) returns (ok: bool)
      requires Shaped(system.flow) && |x0| == |dxdt|
      modifies this`k, system`numFunctionCalls
      ensures ok <==> system.numFunctionCalls <= maxNumSteps
      ensures system.numFunctionCalls == Counted(old(system.numFunctionCalls), 5, maxNumSteps)
      ensures ok ==> k == StageSlopes(system.flow, Point(x0, dxdt, t), dt)
    {
      hide Argument2, Argument3, Argument4, Argument5, Argument6;
      var k2, k3, k4, k5, k6;
      ok, k2, k3, k4 := FirstSlopes(system, maxNumSteps, x0, dxdt, t, dt);
      if !ok { return; }
      ok, k5 := SystemFunction(system, maxNumSteps, Argument5(x0, dxdt, k2, k3, k4, dt), t + dt * A5);
      if !ok { return; }
      ok, k6 := SystemFunction(system, maxNumSteps, Argument6(x0, dxdt, k2, k3, k4, k5, dt), t + dt);
      k := Slopes(dxdt, k2, k3, k4, k5, k6);
    }

    method FirstSlopes(system: Ode, maxNumSteps: nat, x0: Vec, k1: Vec, t: real, dt: real)
      returns (ok: bool, k2: Vec, k3: Vec, k4: Vec)
      requires Shaped(system.flow) && |x0| == |k1|
      modifies system`numFunctionCalls
      ensures ok <==> system.numFunctionCalls <= maxNumSteps
      ensures system.numFunctionCalls == Counted(old(system.numFunctionCalls), 3, maxNumSteps)
      ensures ok ==> var k := StageSlopes(system.flow, Point(x0, k1, t), dt); k2 == k.k2 && k3 == k.k3 && k4 == k.k4
    {
      hide Argument2, Argument3, Argument4, Argument5, Argument6;
      k3, k4 := [], [];
      ok, k2 := SystemFunction(system, maxNumSteps, Argument2(x0, k1, dt), t + dt * A2);
      if !ok { return; }
      ok, k3 := SystemFunction(system, maxNumSteps, Argument3(x0, k1, k2, dt), t + dt * A3);
      if !ok { return; }
      ok, k4 := SystemFunction(system, maxNumSteps, Argument4(x0, k1, k2, k3, dt), t + dt * A4);
    }

    /** One step; the outputs may be the cells of the inputs. ok is false when the counter runs out. */
    method DoStep(system: Ode, maxNumSteps: nat, x0: Cell, dxdt: Cell, t: real, dt: real, xOut: Cell, dxdtOut: Cell)
      returns (ok: bool)
      requires Shaped(system.flow) && |x0.value| == |dxdt.value| && xOut != dxdtOut
      modifies this, system`numFunctionCalls, xOut, dxdtOut
      ensures ok <==> old(system.numFunctionCalls) + 6 <= maxNumSteps
      ensures system.numFunctionCalls == Counted(old(system.numFunctionCalls), 6, maxNumSteps)
      ensures ok ==> var p := Point(old(x0.value), old(dxdt.value), t);
                     && k == StageSlopes(system.flow, p, dt)
                     && Point(xOut.value, dxdtOut.value, t + dt) == Step(system.flow, p, dt)
    {
      hide NextState, StageSlopes;
      ok := ComputeSlopes(system, maxNumSteps, x0.value, dxdt.value, t, dt);
      if !ok { return; }
      xOut.value := NextState(x0.value, k, dt);
      var slope;
      ok, slope := SystemFunction(system, maxNumSteps, xOut.value, t + dt);
      dxdtOut.value := slope;
    }

    /** A trial step: advances when the error test passes, otherwise only shortens the step. */
    method TryStep(system: Ode, maxNumSteps: nat, invRoot: (real, nat) -> real, x: Cell, dxdt: Cell, t: real, dt: real,
                   tol: Tolerance)
      returns (ok: bool, accepted: bool, t': real, dt': real)
      requires Shaped(system.flow) && |x.value| == |dxdt.value| && x != dxdt && tol.Valid()
      modifies this, system`numFunctionCalls, x, dxdt
      ensures ok <==> old(system.numFunctionCalls) + 6 <= maxNumSteps
      ensures system.numFunctionCalls == Counted(old(system.numFunctionCalls), 6, maxNumSteps)
      ensures !ok ==> x.value == old(x.value) && dxdt.value == old(dxdt.value) && t' == t && dt' == dt
      ensures ok ==> var p := Point(old(x.value), old(dxdt.value), t); var error := TrialError(system.flow, p, dt, tol);
                     && (accepted <==> error <= 1.0)
                     && Point(x.value, dxdt.value, t') == (if accepted then Step(system.flow, p, dt) else p)
                     && dt' == if accepted then IncreaseStep(invRoot, dt, error) else DecreaseStep(invRoot, dt, error)
    {
      hide ErrorEstimate, MaxError, StageSlopes, IncreaseStep, DecreaseStep;
      var xOut := new Cell([]);
      var dxdtOut := new Cell([]);
      accepted, t', dt' := false, t, dt;
      ok := DoStep(system, maxNumSteps, x, dxdt, t, dt, xOut, dxdtOut);
      if !ok { return; }
      var xErr := ErrorEstimate(k, dxdtOut.value, dt);
      var error := MaxError(x.value, dxdt.value, xErr, dt, tol);
      if error > 1.0 {
        dt' := DecreaseStep(invRoot, dt, error);
      } else {
        t' := t + dt;
        x.value := xOut.value;
        dxdt.value := dxdtOut.value;
        dt' := IncreaseStep(invRoot, dt, error);
        accepted := true;
      }
    }
  }

  // ----- comparisons along the direction of integration

  predicate LessWithSign(t1: real, t2: real, dt: real) {
    if dt > 0.0 then t2 - t1 > MACHINE_EPSILON else t1 - t2 > MACHINE_EPSILON
  }

  function MinAbs(t1: real, t2: real): real {
    if t1 > 0.0 then (if t2 < t1 then t2 else t1) else (if t1 < t2 then t2 else t1)
  }

  function MaxAbs(t1: real, t2: real): real {
    if t1 > 0.0 then (if t1 < t2 then t2 else t1) else (if t2 < t1 then t2 else t1)
  }

  datatype Observation = Observation(x: Vec, t: real)

  // ----- equidistant integration

  /** State after n steps of the same size. */
  function ConstPoint(flow: (real, Vec) -> Vec, x: Vec, startTime: real, dt: real, n: nat): (p: Point)
    requires Shaped(flow)
    ensures |p.x| == |p.dxdt| == |x| && p.dxdt == flow(p.t, p.x)
  {
    if n == 0 then Point(x, flow(startTime, x), startTime) else
      var p := ConstPoint(flow, x, startTime, dt, n - 1);
      StepDerivative(flow, p, dt);
      Step(flow, p, dt)
  }

  function StepTime(startTime: real, n: nat, dt: real): real {
    startTime + (n as real) * dt
  }

  lemma NextStepTime(startTime: real, n: nat, dt: real)
    ensures StepTime(startTime, n + 1, dt) == StepTime(startTime, n, dt) + dt
  {
    Distribute(n as real, 1.0, dt);
  }

  lemma NoStepTime(startTime: real, dt: real)
    ensures StepTime(startTime, 0, dt) == startTime
  {
  }

  lemma {:induction false} ConstPointTime(flow: (real, Vec) -> Vec, x: Vec, startTime: real, dt: real, n: nat)
    requires Shaped(flow)
    ensures ConstPoint(flow, x, startTime, dt, n).t == StepTime(startTime, n, dt)
  {
    hide Step, StepTime;
    if n == 0 {
      NoStepTime(startTime, dt);
    } else {
      ConstPointTime(flow, x, startTime, dt, n - 1);
      NextStepTime(startTime, n - 1, dt);
    }
  }

  /** Whether another step is made after n of them. */
  predicate GoesOn(startTime: real, finalTime: real, dt: real, n: nat) {
    LessWithSign(StepTime(startTime, n, dt) + dt, finalTime + 0.1 * dt, dt)
  }

  function ConstObservation(flow: (real, Vec) -> Vec, x: Vec, startTime: real, dt: real, n: nat): Observation
    requires Shaped(flow)
  {
    Observation(ConstPoint(flow, x, startTime, dt, n).x, StepTime(startTime, n, dt))
  }

  /** The observations are those of the steps 0, 1, ..., and every step but possibly the last one was due. */
  ghost predicate ConstRun(flow: (real, Vec) -> Vec, x: Vec, startTime: real, finalTime: real, dt: real,
                           observed: seq<Observation>)
    requires Shaped(flow)
  {
    && (forall n: nat | n < |observed| :: observed[n] == ConstObservation(flow, x, startTime, dt, n))
    && (forall n: nat | n + 1 < |observed| :: GoesOn(startTime, finalTime, dt, n))
  }

  /** One more observation, and where the next step leads. */
  lemma ConstRunGrows(flow: (real, Vec) -> Vec, x: Vec, startTime: real, finalTime: real, dt: real,
                      observed: seq<Observation>, n: nat, o: Observation)
    requires Shaped(flow) && ConstRun(flow, x, startTime, finalTime, dt, observed) && n == |observed|
    requires o == Observation(ConstPoint(flow, x, startTime, dt, n).x, StepTime(startTime, n, dt))
    requires n > 0 ==> GoesOn(startTime, finalTime, dt, n - 1)
    ensures ConstRun(flow, x, startTime, finalTime, dt, observed + [o])
    ensures ConstPoint(flow, x, startTime, dt, n + 1) == Step(flow, ConstPoint(flow, x, startTime, dt, n), dt)
    ensures StepTime(startTime, n + 1, dt) == StepTime(startTime, n, dt) + dt
    ensures GoesOn(startTime, finalTime, dt, n)
            <==> LessWithSign(StepTime(startTime, n, dt) + dt, finalTime + 0.1 * dt, dt)
  {
    hide Step, LessWithSign, StepTime;
    NextStepTime(startTime, n, dt);
  }

  method RunIntegrateConst(system: Ode, maxNumSteps: nat, initialState: Vec, startTime: real, finalTime: real, dt: real)
    returns (ok: bool, observed: seq<Observation>)
    requires Shaped(system.flow)
    modifies system`numFunctionCalls
    ensures ConstRun(system.flow, initialState, startTime, finalTime, dt, observed)
    ensures ok ==> |observed| > 0 && !GoesOn(startTime, finalTime, dt, |observed| - 1)
    ensures ok ==> system.numFunctionCalls == old(system.numFunctionCalls) + 1 + 6 * (|observed| - 1) <= maxNumSteps
    ensures !ok ==> old(system.numFunctionCalls) + 1 + 6 * |observed| > maxNumSteps
  {
    hide ConstRun, GoesOn, ConstPoint, Step, LessWithSign, StageSlopes;
    observed := [];
    var finalTime' := finalTime + 0.1 * dt;
    var stepper := new Stepper();
    var t := startTime;
    var x := new Cell(initialState);
    var slope;
    ok, slope := SystemFunction(system, maxNumSteps, x.value, t);
    ConstRunStarts(system.flow, initialState, startTime, finalTime, dt);
    if !ok { return; }
    var dxdt := new Cell(slope);
    var step: nat := 0;
    while LessWithSign(t + dt, finalTime', dt)
      invariant fresh(x) && fresh(dxdt) && fresh(stepper) && x != dxdt
      invariant t == StepTime(startTime, step, dt) && step == |observed|
      invariant Point(x.value, dxdt.value, t) == ConstPoint(system.flow, initialState, startTime, dt, step)
      invariant ConstRun(system.flow, initialState, startTime, finalTime, dt, observed)
      invariant step > 0 ==> GoesOn(startTime, finalTime, dt, step - 1)
      invariant system.numFunctionCalls == old(system.numFunctionCalls) + 1 + 6 * step <= maxNumSteps
      decreases maxNumSteps - system.numFunctionCalls
    {
      ConstRunGrows(system.flow, initialState, startTime, finalTime, dt, observed, step, Observation(x.value, t));
      observed := observed + [Observation(x.value, t)];
      ok := stepper.DoStep(system, maxNumSteps, x, dxdt, t, dt, x, dxdt);
      if !ok { return; }
      step := step + 1;
      t := startTime + (step as real) * dt;
    }
    ConstRunGrows(system.flow, initialState, startTime, finalTime, dt, observed, step, Observation(x.value, t));
    observed := observed + [Observation(x.value, t)];
  }

  lemma ConstRunStarts(flow: (real, Vec) -> Vec, x: Vec, startTime: real, finalTime: real, dt: real)
    requires Shaped(flow)
    ensures ConstRun(flow, x, startTime, finalTime, dt, [])
    ensures ConstPoint(flow, x, startTime, dt, 0) == Point(x, flow(startTime, x), startTime)
            && StepTime(startTime, 0, dt) == startTime
  {
  }

  /**
   * A run with constant steps ends less than nine tenths of a step before the final time, up to the comparison
   * tolerance, and less than a tenth of one after it.
   */
  lemma ConstRunEnds(flow: (real, Vec) -> Vec, x: Vec, startTime: real, finalTime: real, dt: real,
                     observed: seq<Observation>)
    requires Shaped(flow) && ConstRun(flow, x, startTime, finalTime, dt, observed) && observed != []
    requires !GoesOn(startTime, finalTime, dt, |observed| - 1)
    ensures var last := observed[|observed|-1].t;
            && (dt > 0.0 ==> finalTime - 0.9 * dt - MACHINE_EPSILON <= last
                             && (|observed| > 1 ==> last < finalTime + 0.1 * dt))
            && (dt < 0.0 ==> last <= finalTime - 0.9 * dt + MACHINE_EPSILON
                             && (|observed| > 1 ==> finalTime + 0.1 * dt < last))
            && (dt == 0.0 ==> last == startTime <= finalTime + MACHINE_EPSILON)
  {
    hide ConstPoint, StepTime;
    var n: nat := |observed| - 1;
    if n > 0 {
      NextStepTime(startTime, n - 1, dt);
      assert GoesOn(startTime, finalTime, dt, n - 1);
    }
    if dt == 0.0 {
      StandsStill(startTime, n);
    }
  }

  lemma StandsStill(startTime: real, n: nat)
    ensures StepTime(startTime, n, 0.0) == startTime
  {
  }

  // ----- adaptive integration

  const MAX_NUM_STEPS_RETRIES := 100

  datatype Outcome = Finished | CallsExceeded | RetriesExceeded

  /** q follows from p by a step that passes the error test. */
  ghost predicate Accepted(flow: (real, Vec) -> Vec, p: Point, q: Point, tol: Tolerance)
    requires Shaped(flow) && tol.Valid()
  {
    && |p.x| == |p.dxdt|
    && q == Step(flow, p, q.t - p.t)
    && TrialError(flow, p, q.t - p.t, tol) <= 1.0
  }

  /** t' lies on the way from t to t + dt; it has moved unless dt is zero. */
  predicate OnTheWay(t: real, t': real, dt: real) {
    && (dt > 0.0 ==> t < t' <= t + dt)
    && (dt < 0.0 ==> t + dt <= t' < t)
    && (dt == 0.0 ==> t' == t)
  }

  predicate SameSign(a: real, b: real) {
    (a > 0.0 <==> b > 0.0) && (a < 0.0 <==> b < 0.0)
  }

  predicate NoLonger(a: real, b: real) {
    (b >= 0.0 ==> a <= b) && (b <= 0.0 ==> b <= a)
  }

  /** What a trial step does to the step size, whichever way the error test goes. */
  lemma StepSizeAfterTrial(invRoot: (real, nat) -> real, dt: real, error: real)
    requires IsInverseRoot(invRoot)
    ensures SameSign(IncreaseStep(invRoot, dt, error), dt)
    ensures error > 1.0 ==> SameSign(DecreaseStep(invRoot, dt, error), dt)
    ensures error > 1.0 ==> NoLonger(DecreaseStep(invRoot, dt, error), dt)
  {
    hide IsInverseRoot, IncreaseStep, DecreaseStep;
    var up := IncreaseGrows(invRoot, dt, error);
    Scaled(dt, up);
    if error > 1.0 {
      var down := DecreaseShrinks(invRoot, dt, error);
      Scaled(dt, down);
    }
  }

  lemma Scaled(dt: real, factor: real)
    requires factor > 0.0
    ensures SameSign(dt * factor, dt)
    ensures factor <= 1.0 ==> NoLonger(dt * factor, dt)
  {
    if dt > 0.0 {
      Strict(0.0, dt, factor);
      if factor <= 1.0 {
        Monotone(factor, 1.0, dt);
      }
    } else if dt < 0.0 {
      Strict(dt, 0.0, factor);
      if factor <= 1.0 {
        Monotone(factor, 1.0, -dt);
      }
    }
  }

  /** Size of the trial after m rejected ones. */
  function Attempt(flow: (real, Vec) -> Vec, invRoot: (real, nat) -> real, tol: Tolerance, p: Point, dt: real,
                   m: nat): real
    requires Shaped(flow) && tol.Valid() && |p.x| == |p.dxdt|
  {
    if m == 0 then dt else
      var d := Attempt(flow, invRoot, tol, p, dt, m - 1);
      DecreaseStep(invRoot, d, TrialError(flow, p, d, tol))
  }

  ghost predicate AllRejected(flow: (real, Vec) -> Vec, invRoot: (real, nat) -> real, tol: Tolerance, p: Point,
                              dt: real, m: nat)
    requires Shaped(flow) && tol.Valid() && |p.x| == |p.dxdt|
  {
    forall l: nat | l < m :: RejectedAt(flow, invRoot, tol, p, dt, l)
  }

  predicate RejectedAt(flow: (real, Vec) -> Vec, invRoot: (real, nat) -> real, tol: Tolerance, p: Point, dt: real,
                       l: nat)
    requires Shaped(flow) && tol.Valid() && |p.x| == |p.dxdt|
  {
    TrialError(flow, p, Attempt(flow, invRoot, tol, p, dt, l), tol) > 1.0
  }

  /** q is where the first accepted trial leads, after m rejected ones, and next is the step size it leaves. */
  ghost predicate Stepped(flow: (real, Vec) -> Vec, invRoot: (real, nat) -> real, tol: Tolerance, p: Point, dt: real,
                          m: nat, q: Point, next: real)
    requires Shaped(flow) && tol.Valid()
  {
    && |p.x| == |p.dxdt| && m <= MAX_NUM_STEPS_RETRIES && AllRejected(flow, invRoot, tol, p, dt, m)
    && var d := Attempt(flow, invRoot, tol, p, dt, m);
       var error := TrialError(flow, p, d, tol);
       error <= 1.0 && q == Step(flow, p, d) && next == IncreaseStep(invRoot, d, error)
  }

  lemma OneMoreRejected(flow: (real, Vec) -> Vec, invRoot: (real, nat) -> real, tol: Tolerance, p: Point, dt: real,
                        m: nat, d: real)
    requires Shaped(flow) && tol.Valid() && |p.x| == |p.dxdt| && AllRejected(flow, invRoot, tol, p, dt, m)
    requires d == Attempt(flow, invRoot, tol, p, dt, m) && TrialError(flow, p, d, tol) > 1.0
    ensures AllRejected(flow, invRoot, tol, p, dt, m + 1)
    ensures Attempt(flow, invRoot, tol, p, dt, m + 1) == DecreaseStep(invRoot, d, TrialError(flow, p, d, tol))
  {
  }

  /** The inner loop: trial steps until one is accepted, with at most 100 rejections. */
  method TakeStep(stepper: Stepper, system: Ode, maxNumSteps: nat, invRoot: (real, nat) -> real, x: Cell, dxdt: Cell,
                  t: real, dt: real, tol: Tolerance)
    returns (outcome: Outcome, t': real, dt': real, ghost rejected: nat)
    requires Shaped(system.flow) && |x.value| == |dxdt.value| && x != dxdt && tol.Valid() && IsInverseRoot(invRoot)
    requires system.numFunctionCalls <= maxNumSteps
    modifies stepper, system`numFunctionCalls, x, dxdt
    ensures SameSign(dt', dt)
    ensures outcome.Finished? ==>
      Stepped(system.flow, invRoot, tol, Point(old(x.value), old(dxdt.value), t), dt, rejected,
              Point(x.value, dxdt.value, t'), dt')
    ensures outcome.RetriesExceeded? ==>
      AllRejected(system.flow, invRoot, tol, Point(old(x.value), old(dxdt.value), t), dt, MAX_NUM_STEPS_RETRIES + 1)
    ensures outcome.Finished? ==>
      && OnTheWay(t, t', dt)
      && Accepted(system.flow, Point(old(x.value), old(dxdt.value), t), Point(x.value, dxdt.value, t'), tol)
      && system.numFunctionCalls <= maxNumSteps
      && system.numFunctionCalls <= old(system.numFunctionCalls) + 6 * (MAX_NUM_STEPS_RETRIES + 1)
    ensures system.numFunctionCalls > old(system.numFunctionCalls)
    ensures !outcome.CallsExceeded? ==> (system.numFunctionCalls - old(system.numFunctionCalls)) % 6 == 0
    ensures outcome.CallsExceeded? <==> system.numFunctionCalls > maxNumSteps
    ensures outcome.RetriesExceeded?
            ==> system.numFunctionCalls == old(system.numFunctionCalls) + 6 * (MAX_NUM_STEPS_RETRIES + 1)
    ensures !outcome.Finished? ==> x.value == old(x.value) && dxdt.value == old(dxdt.value)
  {
    hide IsInverseRoot, IncreaseStep, DecreaseStep, Step, TrialError, AllRejected, Attempt;
    t', dt' := t, dt;
    var tries: nat := 0;
    ghost var start := Point(x.value, dxdt.value, t);
    rejected := 0;
    FirstAttempt(system.flow, invRoot, tol, start, dt);
    var ok, accepted := true, false;
    while !accepted
      invariant SameSign(dt', dt) && |start.x| == |start.dxdt| && rejected == tries
      invariant AllRejected(system.flow, invRoot, tol, start, dt, tries)
      invariant !accepted ==> dt' == Attempt(system.flow, invRoot, tol, start, dt, tries)
      invariant accepted ==>
        Stepped(system.flow, invRoot, tol, start, dt, tries, Point(x.value, dxdt.value, t'), dt')
      invariant !accepted ==> t' == t && NoLonger(dt', dt) && x.value == old(x.value) && dxdt.value == old(dxdt.value)
      invariant accepted ==> OnTheWay(t, t', dt) && Accepted(system.flow, start, Point(x.value, dxdt.value, t'), tol)
      invariant tries <= MAX_NUM_STEPS_RETRIES
      invariant system.numFunctionCalls
                == old(system.numFunctionCalls) + 6 * (tries + if accepted then 1 else 0) <= maxNumSteps
      decreases !accepted, maxNumSteps - system.numFunctionCalls
    {
      ghost var size, error := dt', TrialError(system.flow, start, dt', tol);
      StepSizeAfterTrial(invRoot, dt', error);
      ok, accepted, t', dt' := stepper.TryStep(system, maxNumSteps, invRoot, x, dxdt, t', dt', tol);
      if !ok {
        return CallsExceeded, t', dt', rejected;
      }
      if accepted {
        assert t' - t == size;
      } else {
        OneMoreRejected(system.flow, invRoot, tol, start, dt, tries, size);
        tries := tries + 1;
        rejected := tries;
        if tries > MAX_NUM_STEPS_RETRIES {
          return RetriesExceeded, t', dt', rejected;
        }
      }
    }
    outcome := Finished;
  }

  lemma FirstAttempt(flow: (real, Vec) -> Vec, invRoot: (real, nat) -> real, tol: Tolerance, p: Point, dt: real)
    requires Shaped(flow) && tol.Valid() && |p.x| == |p.dxdt|
    ensures AllRejected(flow, invRoot, tol, p, dt, 0) && Attempt(flow, invRoot, tol, p, dt, 0) == dt
  {
  }

  /** Consecutive observations are one accepted step apart. */
  ghost predicate AcceptedAt(flow: (real, Vec) -> Vec, observed: seq<Observation>, i: nat, tol: Tolerance)
    requires Shaped(flow) && tol.Valid() && i + 1 < |observed|
  {
    var p, q := observed[i], observed[i+1];
    Accepted(flow, Point(p.x, flow(p.t, p.x), p.t), Point(q.x, flow(q.t, q.x), q.t), tol)
  }

  ghost predicate AdaptiveRun(flow: (real, Vec) -> Vec, observed: seq<Observation>, tol: Tolerance)
    requires Shaped(flow) && tol.Valid()
  {
    forall i: nat | i + 1 < |observed| :: AcceptedAt(flow, observed, i, tol)
  }

  /** Times move in the direction of dt, and no further than the tolerance beyond the final time. */
  ghost predicate Approaches(observed: seq<Observation>, finalTime: real, dt: real) {
    forall i: nat | i + 1 < |observed| :: Nearer(observed[i].t, observed[i+1].t, finalTime, dt)
  }

  predicate Nearer(t: real, t': real, finalTime: real, dt: real) {
    && (dt > 0.0 ==> t < t' <= finalTime + MACHINE_EPSILON)
    && (dt < 0.0 ==> finalTime - MACHINE_EPSILON <= t' < t)
  }

  /** Where the next observation has to be. */
  ghost predicate Follows(flow: (real, Vec) -> Vec, observed: seq<Observation>, x: Vec, t: real, finalTime: real,
                          dt: real, tol: Tolerance)
    requires Shaped(flow) && tol.Valid()
  {
    var more := observed + [Observation(x, t)];
    AdaptiveRun(flow, more, tol) && Approaches(more, finalTime, dt)
  }

  lemma FollowsAfterStep(flow: (real, Vec) -> Vec, observed: seq<Observation>, p: Point, q: Point, finalTime: real,
                         dt: real, tol: Tolerance)
    requires Shaped(flow) && tol.Valid() && Follows(flow, observed, p.x, p.t, finalTime, dt, tol)
    requires p.dxdt == flow(p.t, p.x) && Accepted(flow, p, q, tol)
    requires Nearer(p.t, q.t, finalTime, dt)
    ensures Follows(flow, observed + [Observation(p.x, p.t)], q.x, q.t, finalTime, dt, tol)
    ensures q.dxdt == flow(q.t, q.x)
  {
    hide Step, TrialError;
    var more := observed + [Observation(p.x, p.t)];
    var most := more + [Observation(q.x, q.t)];
    assert q == Step(flow, p, q.t - p.t);
    StepDerivative(flow, p, q.t - p.t);
    forall i: nat | i + 1 < |most|
      ensures AcceptedAt(flow, most, i, tol)
    {
      if i + 1 < |more| {
        assert AcceptedAt(flow, more, i, tol);
        assert most[i] == more[i] && most[i+1] == more[i+1];
      } else {
        assert most[i] == Observation(p.x, p.t) && most[i+1] == Observation(q.x, q.t);
      }
    }
    forall i: nat | i + 1 < |most|
      ensures Nearer(most[i].t, most[i+1].t, finalTime, dt)
    {
      assert i + 1 < |more| ==> most[i] == more[i] && most[i+1] == more[i+1];
    }
  }

  lemma StepDerivative(flow: (real, Vec) -> Vec, p: Point, dt: real)
    requires Shaped(flow) && |p.x| == |p.dxdt|
    ensures Step(flow, p, dt).dxdt == flow(Step(flow, p, dt).t, Step(flow, p, dt).x)
  {
  }

  /** A step that would lead beyond the final time ends there. */
  function Limited(t: real, dt: real, finalTime: real): real {
    if LessWithSign(finalTime, t + dt, dt) then finalTime - t else dt
  }

  /** That is the longest step, up to the given one, that does not pass the final time by more than the tolerance. */
  lemma LimitedIsLongest(t: real, dt: real, finalTime: real, s: real)
    requires LessWithSign(t, finalTime, dt)
    ensures dt > 0.0 ==>
      && 0.0 < Limited(t, dt, finalTime) <= dt && t + Limited(t, dt, finalTime) <= finalTime + MACHINE_EPSILON
      && (s <= dt && t + s <= finalTime ==> s <= Limited(t, dt, finalTime))
    ensures dt < 0.0 ==>
      && dt <= Limited(t, dt, finalTime) < 0.0 && finalTime - MACHINE_EPSILON <= t + Limited(t, dt, finalTime)
      && (dt <= s && finalTime <= t + s ==> Limited(t, dt, finalTime) <= s)
  {
  }

  /** One step of an adaptive run, from the step size that the step before left. */
  ghost predicate SteppedFrom(flow: (real, Vec) -> Vec, invRoot: (real, nat) -> real, tol: Tolerance, o: Observation,
                              dt: real, next: Observation, dt': real, finalTime: real)
    requires Shaped(flow) && tol.Valid()
  {
    exists m: nat :: Stepped(flow, invRoot, tol, Point(o.x, flow(o.t, o.x), o.t), Limited(o.t, dt, finalTime), m,
                             Point(next.x, flow(next.t, next.x), next.t), dt')
  }

  /** Every step starts from the size that the one before left. */
  ghost predicate Controlled(flow: (real, Vec) -> Vec, invRoot: (real, nat) -> real, tol: Tolerance,
                             observed: seq<Observation>, sizes: seq<real>, finalTime: real)
    requires Shaped(flow) && tol.Valid()
  {
    && |sizes| == |observed|
    && forall i: nat | i + 1 < |observed| ::
         SteppedFrom(flow, invRoot, tol, observed[i], sizes[i], observed[i+1], sizes[i+1], finalTime)
  }

  lemma ControlledGrows(flow: (real, Vec) -> Vec, invRoot: (real, nat) -> real, tol: Tolerance,
                        observed: seq<Observation>, sizes: seq<real>, finalTime: real, next: Observation, dt: real)
    requires Shaped(flow) && tol.Valid() && Controlled(flow, invRoot, tol, observed, sizes, finalTime)
    requires observed != [] ==>
      SteppedFrom(flow, invRoot, tol, observed[|observed|-1], sizes[|sizes|-1], next, dt, finalTime)
    ensures Controlled(flow, invRoot, tol, observed + [next], sizes + [dt], finalTime)
  {
    hide SteppedFrom;
    var more, most := observed + [next], sizes + [dt];
    forall i: nat | i + 1 < |more|
      ensures SteppedFrom(flow, invRoot, tol, more[i], most[i], more[i+1], most[i+1], finalTime)
    {
      assert i + 1 < |observed| ==> more[i+1] == observed[i+1] && most[i+1] == sizes[i+1];
    }
  }

  lemma ControlledStarts(flow: (real, Vec) -> Vec, invRoot: (real, nat) -> real, tol: Tolerance, o: Observation,
                         dt: real, finalTime: real)
    requires Shaped(flow) && tol.Valid()
    ensures Controlled(flow, invRoot, tol, [], [], finalTime)
    ensures Controlled(flow, invRoot, tol, [] + [o], [] + [dt], finalTime)
  {
  }

  lemma StepTaken(flow: (real, Vec) -> Vec, invRoot: (real, nat) -> real, tol: Tolerance, o: Observation, dt: real,
                  m: nat, next: Observation, dt': real, finalTime: real)
    requires Shaped(flow) && tol.Valid()
    requires Stepped(flow, invRoot, tol, Point(o.x, flow(o.t, o.x), o.t), Limited(o.t, dt, finalTime), m,
                     Point(next.x, flow(next.t, next.x), next.t), dt')
    ensures SteppedFrom(flow, invRoot, tol, o, dt, next, dt', finalTime)
  {
  }

  /** What an accepted step adds to a run. */
  lemma AdaptiveStepTaken(flow: (real, Vec) -> Vec, invRoot: (real, nat) -> real, tol: Tolerance,
                          observed: seq<Observation>, sizes: seq<real>, p: Point, q: Point, dt: real, m: nat,
                          dt': real, finalTime: real, dtInitial: real)
    requires Shaped(flow) && tol.Valid() && Follows(flow, observed, p.x, p.t, finalTime, dtInitial, tol)
    requires Controlled(flow, invRoot, tol, observed + [Observation(p.x, p.t)], sizes + [dt], finalTime)
    requires p.dxdt == flow(p.t, p.x) && Accepted(flow, p, q, tol) && Nearer(p.t, q.t, finalTime, dtInitial)
    requires Stepped(flow, invRoot, tol, p, Limited(p.t, dt, finalTime), m, q, dt')
    ensures q.dxdt == flow(q.t, q.x)
    ensures Follows(flow, observed + [Observation(p.x, p.t)], q.x, q.t, finalTime, dtInitial, tol)
    ensures Controlled(flow, invRoot, tol, observed + [Observation(p.x, p.t)] + [Observation(q.x, q.t)],
                       sizes + [dt] + [dt'], finalTime)
  {
    hide Follows, Accepted, Controlled, Stepped, SteppedFrom, Nearer, Limited;
    var o, next := Observation(p.x, p.t), Observation(q.x, q.t);
    FollowsAfterStep(flow, observed, p, q, finalTime, dtInitial, tol);
    StepTaken(flow, invRoot, tol, o, dt, m, next, dt', finalTime);
    ControlledGrows(flow, invRoot, tol, observed + [o], sizes + [dt], finalTime, next, dt');
  }

  method RunIntegrateAdaptive(system: Ode, maxNumSteps: nat, invRoot: (real, nat) -> real, initialState: Vec,
                              startTime: real, finalTime: real, dtInitial: real, tol: Tolerance)
    returns (outcome: Outcome, observed: seq<Observation>, ghost sizes: seq<real>)
    requires Shaped(system.flow) && tol.Valid() && IsInverseRoot(invRoot)
    modifies system`numFunctionCalls
    ensures observed != [] ==> observed[0] == Observation(initialState, startTime)
    ensures Controlled(system.flow, invRoot, tol, observed, sizes, finalTime) && (sizes != [] ==> sizes[0] == dtInitial)
    ensures AdaptiveRun(system.flow, observed, tol) && Approaches(observed, finalTime, dtInitial)
    ensures outcome.Finished? ==> observed != [] && !LessWithSign(observed[|observed|-1].t, finalTime, dtInitial)
    ensures outcome.Finished? && dtInitial > 0.0 ==>
      if startTime <= finalTime + MACHINE_EPSILON then Abs(observed[|observed|-1].t - finalTime) <= MACHINE_EPSILON
      else |observed| == 1
    ensures outcome.Finished? && dtInitial < 0.0 ==>
      if startTime >= finalTime - MACHINE_EPSILON then Abs(observed[|observed|-1].t - finalTime) <= MACHINE_EPSILON
      else |observed| == 1
    ensures dtInitial == 0.0 ==>
      && (outcome.Finished? <==> startTime - finalTime <= MACHINE_EPSILON && old(system.numFunctionCalls) < maxNumSteps)
      && (outcome.Finished? ==> |observed| == 1)
    ensures outcome.Finished? ==> 6 * (|observed| - 1) <= system.numFunctionCalls - old(system.numFunctionCalls) - 1
                                  <= 6 * (MAX_NUM_STEPS_RETRIES + 1) * (|observed| - 1)
    ensures outcome.CallsExceeded? <==> system.numFunctionCalls > maxNumSteps
  {
    hide Follows, AdaptiveRun, Approaches, IsInverseRoot, Accepted, Controlled, Stepped, SteppedFrom, AllRejected, Step,
        TrialError;
    observed, sizes := [], [];
    Nothing(system.flow, initialState, startTime, finalTime, dtInitial, tol);
    var stepper := new Stepper();
    var t, dt := startTime, dtInitial;
    var x := new Cell(initialState);
    var ok, slope := SystemFunction(system, maxNumSteps, x.value, t);
    ControlledStarts(system.flow, invRoot, tol, Observation(x.value, t), dt, finalTime);
    if !ok { return CallsExceeded, [], []; }
    var dxdt := new Cell(slope);
    while LessWithSign(t, finalTime, dt)
      invariant fresh(x) && fresh(dxdt) && fresh(stepper) && x != dxdt
      invariant Controlled(system.flow, invRoot, tol, observed + [Observation(x.value, t)], sizes + [dt], finalTime)
      invariant |sizes| == |observed| && (if sizes == [] then dt else sizes[0]) == dtInitial
      invariant SameSign(dt, dtInitial) && dxdt.value == system.flow(t, x.value)
      invariant if observed == [] then x.value == initialState
                && t == startTime else observed[0] == Observation(initialState, startTime)
      invariant Follows(system.flow, observed, x.value, t, finalTime, dtInitial, tol)
      invariant dt > 0.0 ==> if startTime <= finalTime + MACHINE_EPSILON then t <= finalTime + MACHINE_EPSILON
                else observed == []
      invariant dt < 0.0 ==> if startTime >= finalTime - MACHINE_EPSILON then t >= finalTime - MACHINE_EPSILON
                else observed == []
      invariant dt == 0.0 ==> t == startTime && (observed != [] ==> startTime - finalTime > MACHINE_EPSILON)
      invariant 6 * |observed| <= system.numFunctionCalls - old(system.numFunctionCalls) - 1
                <= 6 * (MAX_NUM_STEPS_RETRIES + 1) * |observed|
      invariant system.numFunctionCalls <= maxNumSteps
      decreases maxNumSteps - system.numFunctionCalls
    {
      ghost var p := Point(x.value, dxdt.value, t);
      FollowsPrefix(system.flow, observed, x.value, t, finalTime, dtInitial, tol);
      ghost var before := observed;
      observed, sizes := observed + [Observation(x.value, t)], sizes + [dt];
      ghost var size, rejected := dt, 0;
      if LessWithSign(finalTime, t + dt, dt) {
        dt := finalTime - t;
      }
      outcome, t, dt, rejected := TakeStep(stepper, system, maxNumSteps, invRoot, x, dxdt, t, dt, tol);
      if !outcome.Finished? { return; }
      AdaptiveStepTaken(system.flow, invRoot, tol, before, sizes[..|before|], p, Point(x.value, dxdt.value, t), size,
                        rejected, dt, finalTime, dtInitial);
    }
    FollowsPrefix(system.flow, observed, x.value, t, finalTime, dtInitial, tol);
    observed, sizes := observed + [Observation(x.value, t)], sizes + [dt];
    outcome := Finished;
  }

  lemma Nothing(flow: (real, Vec) -> Vec, x: Vec, t: real, finalTime: real, dt: real, tol: Tolerance)
    requires Shaped(flow) && tol.Valid()
    ensures AdaptiveRun(flow, [], tol) && Approaches([], finalTime, dt) && Follows(flow, [], x, t, finalTime, dt, tol)
  {
  }

  lemma FollowsPrefix(flow: (real, Vec) -> Vec, observed: seq<Observation>, x: Vec, t: real, finalTime: real, dt: real,
                      tol: Tolerance)
    requires Shaped(flow) && tol.Valid() && Follows(flow, observed, x, t, finalTime, dt, tol)
    ensures AdaptiveRun(flow, observed + [Observation(x, t)], tol)
            && Approaches(observed + [Observation(x, t)], finalTime, dt)
  {
  }

  // ----- integration to given times

  /** A point on the way, and the step size the integrator holds there. */
  datatype Waypoint = Waypoint(p: Point, size: real)

  /** Among numbers of one sign MinAbs picks the smaller magnitude, and MaxAbs the larger. */
  lemma MagnitudesCompared(a: real, b: real)
    requires SameSign(a, b)
    ensures Abs(MinAbs(a, b)) == if Abs(a) <= Abs(b) then Abs(a) else Abs(b)
    ensures Abs(MaxAbs(a, b)) == if Abs(a) <= Abs(b) then Abs(b) else Abs(a)
    ensures MinAbs(a, b) in [a, b] && MaxAbs(a, b) in [a, b]
  {
    assert [a, b][0] == a && [a, b][1] == b;
  }

  /**
   * The first trial is the step size, or the rest of the way if that is shorter. A size that only the target cut short
   * is taken up again; after a rejection the size that was accepted counts.
   */
  ghost predicate SteppedTo(flow: (real, Vec) -> Vec, invRoot: (real, nat) -> real, tol: Tolerance, v: Waypoint,
                            w: Waypoint, target: real, m: nat, next: real)
    requires Shaped(flow) && tol.Valid()
  {
    var first := MinAbs(v.size, target - v.p.t);
    && Stepped(flow, invRoot, tol, v.p, first, m, w.p, next)
    && w.size == MaxAbs(if m == 0 then v.size else Attempt(flow, invRoot, tol, v.p, first, m), next)
  }

  /** v to w is an accepted step towards the target that does not go beyond it, from the size held at v. */
  ghost predicate StepTowards(flow: (real, Vec) -> Vec, invRoot: (real, nat) -> real, tol: Tolerance, v: Waypoint,
                              w: Waypoint, target: real, dt: real)
    requires Shaped(flow) && tol.Valid()
  {
    && Accepted(flow, v.p, w.p, tol)
    && (dt > 0.0 ==> v.p.t < w.p.t <= target)
    && (dt < 0.0 ==> target <= w.p.t < v.p.t)
    && exists m: nat, next: real :: SteppedTo(flow, invRoot, tol, v, w, target, m, next)
  }

  /** Accepted steps towards the target. */
  ghost predicate Path(flow: (real, Vec) -> Vec, invRoot: (real, nat) -> real, tol: Tolerance, path: seq<Waypoint>,
                       target: real, dt: real)
    requires Shaped(flow) && tol.Valid()
  {
    && path != []
    && forall k: nat | k + 1 < |path| :: StepTowards(flow, invRoot, tol, path[k], path[k+1], target, dt)
  }

  lemma PathGrows(flow: (real, Vec) -> Vec, invRoot: (real, nat) -> real, tol: Tolerance, path: seq<Waypoint>,
                  w: Waypoint, target: real, dt: real)
    requires Shaped(flow) && tol.Valid() && Path(flow, invRoot, tol, path, target, dt)
    requires StepTowards(flow, invRoot, tol, path[|path|-1], w, target, dt)
    ensures Path(flow, invRoot, tol, path + [w], target, dt)
  {
    hide StepTowards;
    var more := path + [w];
    forall k: nat | k + 1 < |more|
      ensures StepTowards(flow, invRoot, tol, more[k], more[k+1], target, dt)
    {
      assert more[k] == path[k];
      assert k + 1 < |path| ==> more[k+1] == path[k+1];
    }
  }

  /** Steps from t to the target, to within the comparison tolerance. */
  method IntegrateTo(stepper: Stepper, system: Ode, maxNumSteps: nat, invRoot: (real, nat) -> real, x: Cell, dxdt: Cell,
                     startTime: real, target: real, dt: real, tol: Tolerance, ghost direction: real)
    returns (outcome: Outcome, dt': real, ghost path: seq<Waypoint>)
    requires Shaped(system.flow) && |x.value| == |dxdt.value| && x != dxdt && tol.Valid() && IsInverseRoot(invRoot)
    requires system.numFunctionCalls <= maxNumSteps && SameSign(dt, direction)
    modifies stepper, system`numFunctionCalls, x, dxdt
    ensures SameSign(dt', direction)
    ensures path != [] && Path(system.flow, invRoot, tol, path, target, direction)
            && path[0] == Waypoint(Point(old(x.value), old(dxdt.value), startTime), dt)
    ensures outcome.Finished? ==>
      && !LessWithSign(path[|path|-1].p.t, target, direction)
      && path[|path|-1] == Waypoint(Point(x.value, dxdt.value, path[|path|-1].p.t), dt')
      && |x.value| == |dxdt.value|
    ensures outcome.CallsExceeded? <==> system.numFunctionCalls > maxNumSteps
    ensures !LessWithSign(startTime, target, direction) ==>
      outcome.Finished? && x.value == old(x.value) && system.numFunctionCalls == old(system.numFunctionCalls)
    ensures direction == 0.0 && LessWithSign(startTime, target, direction) ==> !outcome.Finished?
    ensures system.numFunctionCalls >= old(system.numFunctionCalls) + 6 * (|path| - 1)
    ensures outcome.Finished? ==>
      system.numFunctionCalls <= old(system.numFunctionCalls) + 6 * (MAX_NUM_STEPS_RETRIES + 1) * (|path| - 1)
  {
    hide IsInverseRoot, IncreaseStep, DecreaseStep, Step, TrialError, Path, AllRejected, Attempt, StepTowards;
    var t := startTime;
    dt' := dt;
    path := [Waypoint(Point(x.value, dxdt.value, t), dt)];
    PathStarts(system.flow, invRoot, tol, path, target, direction);
    var tries: nat := 0;
    ghost var first := MinAbs(dt, target - t);
    FirstAttempt(system.flow, invRoot, tol, path[0].p, first);
    while LessWithSign(t, target, dt')
      invariant SameSign(dt', direction) && tries <= MAX_NUM_STEPS_RETRIES
      invariant tries > 0 ==> LessWithSign(t, target, dt')
      invariant direction == 0.0 ==> t == startTime
      invariant !LessWithSign(startTime, target, direction) ==>
        t == startTime && x.value == old(x.value) && system.numFunctionCalls == old(system.numFunctionCalls)
      invariant path != [] && Path(system.flow, invRoot, tol, path, target, direction)
      invariant path[0] == Waypoint(Point(old(x.value), old(dxdt.value), startTime), dt)
      invariant path[|path|-1].p == Point(x.value, dxdt.value, t) && |x.value| == |dxdt.value|
      invariant first == MinAbs(path[|path|-1].size, target - t)
      invariant tries == 0 ==> dt' == path[|path|-1].size
      invariant tries > 0 ==> MinAbs(dt', target - t) == dt'
      invariant AllRejected(system.flow, invRoot, tol, path[|path|-1].p, first, tries)
      invariant Attempt(system.flow, invRoot, tol, path[|path|-1].p, first, tries) == if tries == 0 then first else dt'
      invariant system.numFunctionCalls <= maxNumSteps
      invariant 6 * (|path| - 1 + tries) <= system.numFunctionCalls - old(system.numFunctionCalls)
                <= 6 * (MAX_NUM_STEPS_RETRIES + 1) * (|path| - 1) + 6 * tries
      decreases maxNumSteps - system.numFunctionCalls
    {
      var dtCurrent := MinAbs(dt', target - t);
      ghost var v, size := path[|path|-1], dtCurrent;
      StepSizeAfterTrial(invRoot, dtCurrent, TrialError(system.flow, v.p, dtCurrent, tol));
      var ok, accepted;
      ok, accepted, t, dtCurrent := stepper.TryStep(system, maxNumSteps, invRoot, x, dxdt, t, dtCurrent, tol);
      if !ok { return CallsExceeded, dt', path; }
      if accepted {
        dt' := MaxAbs(dt', dtCurrent);
        ghost var w := Waypoint(Point(x.value, dxdt.value, t), dt');
        TowardsTarget(system.flow, invRoot, tol, v, w, target, direction, tries, dtCurrent, size);
        PathGrows(system.flow, invRoot, tol, path, w, target, direction);
        path := path + [w];
        tries := 0;
        first := MinAbs(dt', target - t);
        FirstAttempt(system.flow, invRoot, tol, w.p, first);
      } else {
        OneMoreRejected(system.flow, invRoot, tol, v.p, first, tries, size);
        tries := tries + 1;
        dt' := dtCurrent;
        if tries > MAX_NUM_STEPS_RETRIES {
          return RetriesExceeded, dt', path;
        }
      }
    }
    outcome := Finished;
  }

  /** What one accepted trial adds to the path. */
  lemma TowardsTarget(flow: (real, Vec) -> Vec, invRoot: (real, nat) -> real, tol: Tolerance, v: Waypoint, w: Waypoint,
                      target: real, dt: real, m: nat, next: real, size: real)
    requires Shaped(flow) && tol.Valid() && |v.p.x| == |v.p.dxdt| && m <= MAX_NUM_STEPS_RETRIES
    requires AllRejected(flow, invRoot, tol, v.p, MinAbs(v.size, target - v.p.t), m)
    requires size == Attempt(flow, invRoot, tol, v.p, MinAbs(v.size, target - v.p.t), m)
    requires TrialError(flow, v.p, size, tol) <= 1.0 && w.p == Step(flow, v.p, size)
    requires next == IncreaseStep(invRoot, size, TrialError(flow, v.p, size, tol))
    requires w.size == MaxAbs(if m == 0 then v.size else size, next)
    requires dt > 0.0 ==> 0.0 < size <= target - v.p.t
    requires dt < 0.0 ==> target - v.p.t <= size < 0.0
    ensures StepTowards(flow, invRoot, tol, v, w, target, dt)
  {
    hide AllRejected, Attempt, TrialError, IncreaseStep;
    assert w.p.t - v.p.t == size;
    assert SteppedTo(flow, invRoot, tol, v, w, target, m, next);
  }

  lemma PathStarts(flow: (real, Vec) -> Vec, invRoot: (real, nat) -> real, tol: Tolerance, path: seq<Waypoint>,
                   target: real, dt: real)
    requires Shaped(flow) && tol.Valid() && |path| == 1
    ensures Path(flow, invRoot, tol, path, target, dt)
  {
  }

  /** The derivative and the step size that a stretch starts with. */
  datatype Held = Held(dxdt: Vec, size: real)

  /** The path leads from one observation to the next, and starts with what is held. */
  ghost predicate Links(flow: (real, Vec) -> Vec, invRoot: (real, nat) -> real, tol: Tolerance, path: seq<Waypoint>,
                        p: Observation, q: Observation, held: Held, dt: real)
    requires Shaped(flow) && tol.Valid()
  {
    && Path(flow, invRoot, tol, path, q.t, dt)
    && path[0] == Waypoint(Point(p.x, held.dxdt, p.t), held.size)
    && !LessWithSign(path[|path|-1].p.t, q.t, dt)
    && q.x == path[|path|-1].p.x
  }

  /**
   * The observations are made at the given times, in order; each path leads from one to the next and starts with
   * the derivative and the step size the path before ended with.
   */
  ghost predicate TimesRun(flow: (real, Vec) -> Vec, invRoot: (real, nat) -> real, tol: Tolerance, times: seq<real>,
                           observed: seq<Observation>, paths: seq<seq<Waypoint>>, start: Vec, dt: real)
    requires Shaped(flow) && tol.Valid()
  {
    && |observed| <= |times| && |paths| == (if observed == [] then 0 else |observed| - 1)
    && (forall i: nat | i < |observed| :: observed[i].t == times[i])
    && (forall i: nat | i < |paths| ::
        Links(flow, invRoot, tol, paths[i], observed[i], observed[i+1], HeldAt(paths, start, dt, i), dt))
  }

  function HeldAt(paths: seq<seq<Waypoint>>, start: Vec, dt: real, i: nat): Held {
    if i == 0 || i > |paths| || paths[i-1] == [] then Held(start, dt) else
      var last := paths[i-1][|paths[i-1]|-1];
      Held(last.p.dxdt, last.size)
  }

  lemma HeldKept(paths: seq<seq<Waypoint>>, path: seq<Waypoint>, start: Vec, dt: real, i: nat)
    requires i <= |paths|
    ensures HeldAt(paths + [path], start, dt, i) == HeldAt(paths, start, dt, i)
  {
    assert i > 0 ==> (paths + [path])[i-1] == paths[i-1];
  }

  lemma TimesRunGrows(flow: (real, Vec) -> Vec, invRoot: (real, nat) -> real, tol: Tolerance, times: seq<real>,
                      observed: seq<Observation>, paths: seq<seq<Waypoint>>, path: seq<Waypoint>, start: Vec, dt: real,
                      o: Observation)
    requires Shaped(flow) && tol.Valid() && TimesRun(flow, invRoot, tol, times, observed, paths, start, dt)
    requires observed != [] && |observed| < |times| && o.t == times[|observed|]
    requires Links(flow, invRoot, tol, path, observed[|observed|-1], o, HeldAt(paths, start, dt, |paths|), dt)
    ensures TimesRun(flow, invRoot, tol, times, observed + [o], paths + [path], start, dt)
  {
    hide Links, HeldAt;
    var moreO, moreP := observed + [o], paths + [path];
    forall i: nat | i < |moreP|
      ensures Links(flow, invRoot, tol, moreP[i], moreO[i], moreO[i+1], HeldAt(moreP, start, dt, i), dt)
    {
      HeldKept(paths, path, start, dt, i);
      assert moreO[i] == observed[i];
      if i < |paths| {
        assert moreP[i] == paths[i] && moreO[i+1] == observed[i+1];
      }
    }
  }

  /** No step back by more than the comparison tolerance among the first n times. */
  predicate NeverBack(times: seq<real>, n: nat)
    requires n <= |times|
  {
    forall i | 0 <= i < n - 1 :: times[i] - times[i+1] <= MACHINE_EPSILON
  }

  method RunIntegrateTimes(system: Ode, maxNumSteps: nat, invRoot: (real, nat) -> real, initialState: Vec,
                           times: seq<real>, dtInitial: real, tol: Tolerance)
    returns (outcome: Outcome, observed: seq<Observation>, ghost paths: seq<seq<Waypoint>>)
    requires Shaped(system.flow) && tol.Valid() && IsInverseRoot(invRoot) && times != []
    modifies system`numFunctionCalls
    ensures observed != [] ==> observed[0] == Observation(initialState, times[0])
    ensures forall i: nat | i < |observed| :: i < |times| && observed[i].t == times[i]
    ensures outcome.Finished? ==> |observed| == |times|
    ensures TimesRun(system.flow, invRoot, tol, times, observed, paths, system.flow(times[0], initialState), dtInitial)
    ensures outcome.CallsExceeded? <==> system.numFunctionCalls > maxNumSteps
    ensures dtInitial == 0.0 ==>
      && (outcome.Finished? <==> NeverBack(times, |times|) && old(system.numFunctionCalls) < maxNumSteps)
      && (outcome.Finished? ==> forall i: nat | i < |observed| :: observed[i].x == initialState)
  {
    hide TimesRun, IsInverseRoot, Path;
    observed, paths := [], [];
    var stepper := new Stepper();
    var dt := dtInitial;
    var x := new Cell(initialState);
    var ok, slope := SystemFunction(system, maxNumSteps, x.value, times[0]);
    TimesRunStarts(system.flow, invRoot, tol, times, slope, dt);
    if !ok { return CallsExceeded, [], []; }
    var dxdt := new Cell(slope);
    var next: nat := 0;
    ghost var path: seq<Waypoint> := [];
    while true
      invariant fresh(x) && fresh(dxdt) && fresh(stepper) && x != dxdt && |x.value| == |dxdt.value|
      invariant next < |times| && |observed| == next && |paths| == if next == 0 then 0 else next - 1
      invariant SameSign(dt, dtInitial) && system.numFunctionCalls <= maxNumSteps
      invariant TimesRun(system.flow, invRoot, tol, times, observed, paths, slope, dtInitial)
      invariant next == 0 ==> x.value == initialState && dxdt.value == slope && dt == dtInitial
      invariant dtInitial == 0.0 ==>
        && NeverBack(times, next + 1) && x.value == initialState
        && old(system.numFunctionCalls) < maxNumSteps
        && forall i: nat | i < next :: observed[i].x == initialState
      invariant next > 0 ==> observed[0] == Observation(initialState, times[0])
      invariant next > 0 ==>
        && path != [] && path[|path|-1].p.dxdt == dxdt.value && path[|path|-1].size == dt
        && Links(system.flow, invRoot, tol, path, observed[next-1], Observation(x.value, times[next]),
                 HeldAt(paths, slope, dtInitial, |paths|), dtInitial)
      decreases |times| - next
    {
      var t := times[next];
      next := next + 1;
      if observed == [] {
        TimesRunFirst(system.flow, invRoot, tol, times, initialState, slope, dtInitial);
      } else {
        TimesRunGrows(system.flow, invRoot, tol, times, observed, paths, path, slope, dtInitial,
                      Observation(x.value, t));
        paths := paths + [path];
      }
      observed := observed + [Observation(x.value, t)];
      if next == |times| { break; }
      outcome, dt, path := IntegrateTo(stepper, system, maxNumSteps, invRoot, x, dxdt, t, times[next], dt, tol,
                                       dtInitial);
      if !outcome.Finished? {
        TimesRunTimes(system.flow, invRoot, tol, times, observed, paths, slope, dtInitial);
        return;
      }
    }
    TimesRunTimes(system.flow, invRoot, tol, times, observed, paths, slope, dtInitial);
    outcome := Finished;
  }

  lemma TimesRunStarts(flow: (real, Vec) -> Vec, invRoot: (real, nat) -> real, tol: Tolerance, times: seq<real>,
                       start: Vec, dt: real)
    requires Shaped(flow) && tol.Valid() && times != []
    ensures TimesRun(flow, invRoot, tol, times, [], [], start, dt)
  {
  }

  lemma TimesRunFirst(flow: (real, Vec) -> Vec, invRoot: (real, nat) -> real, tol: Tolerance, times: seq<real>, x: Vec,
                      start: Vec, dt: real)
    requires Shaped(flow) && tol.Valid() && times != []
    ensures TimesRun(flow, invRoot, tol, times, [] + [Observation(x, times[0])], [], start, dt)
  {
  }

  lemma TimesRunTimes(flow: (real, Vec) -> Vec, invRoot: (real, nat) -> real, tol: Tolerance, times: seq<real>,
                      observed: seq<Observation>, paths: seq<seq<Waypoint>>, start: Vec, dt: real)
    requires Shaped(flow) && tol.Valid() && TimesRun(flow, invRoot, tol, times, observed, paths, start, dt)
    ensures forall i: nat | i < |observed| :: i < |times| && observed[i].t == times[i]
  {
  }
}
