/** Controllers of the projected problem and what they leave of the linearised constraint. */
module ProjectedControllers {
  import opened Vectors
  import opened NumericTraits
  import opened Types
  import opened ConstraintProjection
  import opened ChangeOfInputs
  import opened Controllers
  import opened Interpolation

  datatype ModelData = ModelData(
    time: real, stateDim: nat, inputDim: int,
    dynamicsBias: Vec, dynamics: LinearApprox, cost: QuadraticApprox,
    stateEqConstraint: Vec, stateInputEqConstraint: LinearApprox)

  ghost predicate ModelFits(m: ModelData, nu: nat) {
    && CostFits(m.cost, m.stateDim, nu) && Symmetric(m.cost.dfduu) && m.inputDim == nu
    && LinearFits(m.dynamics, m.stateDim, nu) && |m.dynamicsBias| == |m.dynamics.f|
    && LinearFits(m.stateInputEqConstraint, m.stateDim, nu)
    && |m.stateInputEqConstraint.f| <= nu
  }

  /** The null space basis spans all inputs without constraints; with constraints both projectors have their shapes. */
  ghost predicate ProjectorsFit(m: ModelData, rangeProjector: Mat, nullProjector: Mat, nu: nat) {
    && |nullProjector.rows| == nu
    && (|m.stateInputEqConstraint.f| > 0 ==>
          |rangeProjector.rows| == nu && rangeProjector.cols == |m.stateInputEqConstraint.f|)
  }

  function Negated(a: Mat): (r: Mat)
    ensures SameShape(r, a)
  {
    MScale(-1.0, a)
  }

  /** The input that a reduced input v stands for. */
  function ReducedInput(m: ModelData, rangeProjector: Mat, nullProjector: Mat, x: Vec, v: Vec): (u: Vec)
    requires ModelFits(m, |nullProjector.rows|) && ProjectorsFit(m, rangeProjector, nullProjector, |nullProjector.rows|)
    requires |x| == m.stateDim && |v| == nullProjector.cols
  {
    var c := m.stateInputEqConstraint;
    if |c.f| == 0 then MulV(nullProjector, v)
    else Add(Add(MulV(nullProjector, v), Scale(-1.0, MulV(Mul(rangeProjector, c.dfdx), x))),
             Scale(-1.0, MulV(rangeProjector, c.f)))
  }

  /**
   * The projected problem has the dynamics and the cost of the original one at the reduced input, for every x and v.
   */
  method ProjectLQ(m: ModelData, rangeProjector: Mat, nullProjector: Mat) returns (p: ModelData)
    requires ModelFits(m, |nullProjector.rows|) && ProjectorsFit(m, rangeProjector, nullProjector, |nullProjector.rows|)
    ensures p.time == m.time && p.stateDim == m.stateDim && p.inputDim == m.inputDim - |m.stateInputEqConstraint.f|
    ensures p.stateEqConstraint == []
    ensures LinearFits(p.dynamics, m.stateDim, nullProjector.cols) && |p.dynamics.f| == |m.dynamics.f|
    ensures CostFits(p.cost, m.stateDim, nullProjector.cols)
            && p.cost.dfduu == Mul(Transpose(nullProjector), Mul(m.cost.dfduu, nullProjector))
    ensures forall x: Vec, v: Vec | |x| == m.stateDim && |v| == nullProjector.cols ::
              && LinearValue(p.dynamics, x, v)
                 == LinearValue(m.dynamics, x, ReducedInput(m, rangeProjector, nullProjector, x, v))
              && QuadraticValue(p.cost, x, v)
                 == QuadraticValue(m.cost, x, ReducedInput(m, rangeProjector, nullProjector, x, v))
    ensures |m.stateInputEqConstraint.f| > 0 ==>
              && p.stateInputEqConstraint.f == MulV(rangeProjector, m.stateInputEqConstraint.f)
              && p.stateInputEqConstraint.dfdx == Mul(rangeProjector, m.stateInputEqConstraint.dfdx)
              && p.stateInputEqConstraint.dfdu == Mul(rangeProjector, m.stateInputEqConstraint.dfdu)
              && p.dynamicsBias == Add(m.dynamicsBias, MulV(m.dynamics.dfdu, Scale(-1.0, p.stateInputEqConstraint.f)))
    ensures |m.stateInputEqConstraint.f| == 0 ==>
              && p.stateInputEqConstraint.f == Zeros(m.inputDim)
              && p.stateInputEqConstraint.dfdx == ZeroMat(m.inputDim, m.stateDim)
              && p.dynamicsBias == m.dynamicsBias
  {
    hide QuadraticValue, LinearValue, MulV, Mul, Scale;
    var c := m.stateInputEqConstraint;
    var px, u0 := Mat(0, []), [];
    p := m.(inputDim := m.inputDim - |c.f|, stateEqConstraint := []);
    if |c.f| == 0 {
      p := p.(stateInputEqConstraint :=
        LinearApprox(Zeros(m.inputDim), ZeroMat(m.inputDim, m.stateDim), ZeroMat(m.inputDim, m.inputDim)));
    } else {
      p := p.(stateInputEqConstraint :=
        LinearApprox(MulV(rangeProjector, c.f), Mul(rangeProjector, c.dfdx), Mul(rangeProjector, c.dfdu)));
      px := Negated(p.stateInputEqConstraint.dfdx);
      u0 := Scale(-1.0, p.stateInputEqConstraint.f);
      p := p.(dynamicsBias := Add(m.dynamicsBias, MulV(m.dynamics.dfdu, u0)));
    }
    var dynamics := ChangeLinear(m.dynamics, nullProjector, px, u0);
    var cost := ChangeQuadratic(m.cost, nullProjector, px, u0);
    p := p.(dynamics := dynamics, cost := cost);
    forall x: Vec, v: Vec | |x| == m.stateDim && |v| == nullProjector.cols
      ensures Input(nullProjector, px, u0, x, v) == ReducedInput(m, rangeProjector, nullProjector, x, v)
    {
      if |c.f| == 0 {
        PlainInput(nullProjector, x, v);
      } else {
        SubstitutedInput(m, rangeProjector, nullProjector, x, v);
      }
    }
  }

  lemma PlainInput(pu: Mat, x: Vec, v: Vec)
    requires |v| == pu.cols
    ensures Input(pu, Mat(0, []), [], x, v) == MulV(pu, v)
  {
    AddZeros(MulV(pu, v));
  }

  lemma SubstitutedInput(m: ModelData, rangeProjector: Mat, nullProjector: Mat, x: Vec, v: Vec)
    requires ModelFits(m, |nullProjector.rows|) && ProjectorsFit(m, rangeProjector, nullProjector, |nullProjector.rows|)
    requires |x| == m.stateDim && |v| == nullProjector.cols && |m.stateInputEqConstraint.f| > 0
    ensures var c := m.stateInputEqConstraint;
            var px, u0 := Negated(Mul(rangeProjector, c.dfdx)), Scale(-1.0, MulV(rangeProjector, c.f));
            SubstitutionFits(nullProjector, px, u0, |x|, |nullProjector.rows|)
            && Input(nullProjector, px, u0, x, v) == ReducedInput(m, rangeProjector, nullProjector, x, v)
  {
    var a := Mul(rangeProjector, m.stateInputEqConstraint.dfdx);
    MScaleMulV(-1.0, a, x);
    assert HasMat(Negated(a)) || Scale(-1.0, MulV(a, x)) == Zeros(|a.rows|);
  }

  // ----- projectors of a node

  datatype Factorisations = Factorisations(llt: CholeskyFactorisation, qr: QrFactorisation, solve: TriangularSolver) {
    ghost predicate Valid() {
      FactorisesDefinite(llt) && FactorisesTall(qr) && SolvesTriangular(solve)
    }

    /** The triangular factor of the constraint d weighted by the inverse of h, before clipping. */
    function ConstraintFactor(h: Mat, d: Mat): Mat
      requires |InverseUUT(h, llt, solve).rows| == d.cols
    {
      qr(Mul(Transpose(InverseUUT(h, llt, solve)), Transpose(d))).1
    }
  }

  /** Whether the pseudo inverse is exact: there are no constraints, or no diagonal entry of their factor is clipped. */
  ghost predicate Exact(f: Factorisations, h: Mat, d: Mat) {
    |d.rows| > 0 ==>
      && |InverseUUT(h, f.llt, f.solve).rows| == d.cols
      && var r := f.ConstraintFactor(h, d); |r.rows| == r.cols && WellConditioned(r, WEAK_EPSILON)
  }

  /** Range and null space projectors of the constraint d in the weight h. */
  method ComputeProjections(f: Factorisations, h: Mat, d: Mat) returns (rangeProjector: Mat, nullProjector: Mat)
    requires f.Valid() && Symmetric(h) && Definite(h) && |d.rows| <= d.cols == h.cols
    ensures |rangeProjector.rows| == |nullProjector.rows| == d.cols
    ensures rangeProjector.cols == |d.rows| && nullProjector.cols == d.cols - |d.rows|
    ensures Mul(d, nullProjector) == ZeroMat(|d.rows|, nullProjector.cols)
    ensures Mul(Transpose(nullProjector), Mul(h, nullProjector)) == Identity(nullProjector.cols)
    ensures Mul(d, rangeProjector) == Identity(|d.rows|) <==> Exact(f, h, d)
    ensures Mul(Transpose(rangeProjector), Mul(h, nullProjector)) == ZeroMat(|d.rows|, nullProjector.cols)
  {
    hide FactorisesDefinite, FactorisesTall, SolvesTriangular, Definite, Mul, Transpose, WellConditioned;
    var u := ComputeInverseMatrixUUT(h, f.llt, f.solve);
    if |d.rows| == 0 {
      rangeProjector, nullProjector := ZeroMat(d.cols, 0), u;
      EmptyRange(d.cols, Mul(h, nullProjector));
    } else {
      var weight;
      rangeProjector, weight, nullProjector := ComputeConstraintProjection(d, u, f.qr, f.solve);
    }
  }

  lemma EmptyRange(n: nat, a: Mat)
    requires |a.rows| == n
    ensures Mul(Transpose(ZeroMat(n, 0)), a) == ZeroMat(0, a.cols)
  {
    assert Transpose(ZeroMat(n, 0)).rows == [];
    assert Mul(Transpose(ZeroMat(n, 0)), a).rows == [];
  }

  // ----- nodes of the controller

  function NodeGain(cm: Mat, nullProjector: Mat, km: Mat): (r: Mat)
    requires |cm.rows| == |nullProjector.rows| && nullProjector.cols == |km.rows| && km.cols == cm.cols
  {
    MAdd(Negated(cm), Mul(nullProjector, km))
  }

  function NodeBias(gain: Mat, nominalState: Vec, nominalInput: Vec): (r: Vec)
    requires gain.cols == |nominalState| && |gain.rows| == |nominalInput|
  {
    Sub(nominalInput, MulV(gain, nominalState))
  }

  function NodeDelta(ev: Vec, nullProjector: Mat, lv: Vec): (r: Vec)
    requires |ev| == |nullProjector.rows| && nullProjector.cols == |lv|
  {
    Add(Scale(-1.0, ev), MulV(nullProjector, lv))
  }

  ghost predicate NodeFits(p: ModelData, nullProjector: Mat, km: Mat, lv: Vec, nominalState: Vec, nominalInput: Vec) {
    && |p.stateInputEqConstraint.f| == |p.stateInputEqConstraint.dfdx.rows| == |nullProjector.rows| == |nominalInput|
    && p.stateInputEqConstraint.dfdx.cols == km.cols == |nominalState|
    && nullProjector.cols == |km.rows| == |lv|
  }

  /** The worker of the discrete-time solver: km and lv come out of the Riccati map. */
  method CalculateControllerWorker(timeIndex: nat, p: ModelData, nullProjector: Mat, km: Mat, lv: Vec,
                                   nominalState: Vec, nominalInput: Vec, dst: LinearController)
    requires NodeFits(p, nullProjector, km, lv, nominalState, nominalInput)
    requires timeIndex < |dst.gainArray| == |dst.biasArray| == |dst.deltaBiasArray|
    modifies dst
    ensures dst.timeStamp == old(dst.timeStamp)
    ensures var gain := NodeGain(p.stateInputEqConstraint.dfdx, nullProjector, km);
            && dst.gainArray == old(dst.gainArray)[timeIndex := gain]
            && dst.biasArray == old(dst.biasArray)[timeIndex := NodeBias(gain, nominalState, nominalInput)]
            && dst.deltaBiasArray
               == old(dst.deltaBiasArray)[timeIndex := NodeDelta(p.stateInputEqConstraint.f, nullProjector, lv)]
  {
    var gain := Negated(p.stateInputEqConstraint.dfdx);
    gain := MAdd(gain, Mul(nullProjector, km));
    dst.gainArray := dst.gainArray[timeIndex := gain];
    var bias := nominalInput;
    bias := Sub(bias, MulV(dst.gainArray[timeIndex], nominalState));
    dst.biasArray := dst.biasArray[timeIndex := bias];
    var delta := Scale(-1.0, p.stateInputEqConstraint.f);
    delta := Add(delta, MulV(nullProjector, lv));
    dst.deltaBiasArray := dst.deltaBiasArray[timeIndex := delta];
  }

  /** The worker of the continuous-time solver derives km and lv from the value function first. */
  method CalculateSlqControllerWorker(timeIndex: nat, p: ModelData, nullProjector: Mat, deltaGm: Mat, deltaGv: Vec,
                                      sm: Mat, sv: Vec, nominalState: Vec, nominalInput: Vec, dst: LinearController)
    returns (km: Mat, lv: Vec)
    requires SameShape(deltaGm, p.cost.dfdux)
             && |deltaGv| == |p.cost.dfdu| == p.dynamics.dfdu.cols == |p.cost.dfdux.rows|
    requires |p.dynamics.dfdu.rows| == |sm.rows| == |sv| && sm.cols == p.cost.dfdux.cols
    requires |p.stateInputEqConstraint.f| == |p.stateInputEqConstraint.dfdx.rows| == |nullProjector.rows|
             == |nominalInput|
    requires p.stateInputEqConstraint.dfdx.cols == p.cost.dfdux.cols == |nominalState|
    requires nullProjector.cols == p.dynamics.dfdu.cols
    requires timeIndex < |dst.gainArray| == |dst.biasArray| == |dst.deltaBiasArray|
    modifies dst
    ensures NodeFits(p, nullProjector, km, lv, nominalState, nominalInput)
    ensures km == MAdd(Negated(MAdd(deltaGm, p.cost.dfdux)), Negated(Mul(Transpose(p.dynamics.dfdu), sm)))
    ensures lv == Sub(Scale(-1.0, Add(deltaGv, p.cost.dfdu)), MulV(Transpose(p.dynamics.dfdu), sv))
    ensures dst.timeStamp == old(dst.timeStamp)
    ensures var gain := NodeGain(p.stateInputEqConstraint.dfdx, nullProjector, km);
            && dst.gainArray == old(dst.gainArray)[timeIndex := gain]
            && dst.biasArray == old(dst.biasArray)[timeIndex := NodeBias(gain, nominalState, nominalInput)]
            && dst.deltaBiasArray
               == old(dst.deltaBiasArray)[timeIndex := NodeDelta(p.stateInputEqConstraint.f, nullProjector, lv)]
  {
    km := Negated(MAdd(deltaGm, p.cost.dfdux));
    km := MAdd(km, Negated(Mul(Transpose(p.dynamics.dfdu), sm)));
    lv := Scale(-1.0, Add(deltaGv, p.cost.dfdu));
    lv := Sub(lv, MulV(Transpose(p.dynamics.dfdu), sv));
    CalculateControllerWorker(timeIndex, p, nullProjector, km, lv, nominalState, nominalInput, dst);
  }

  /** The controller of a line-search candidate. */
  method IncrementController(stepLength: real, unoptimized: LinearController, controller: LinearController)
    requires unoptimized != controller
    requires |unoptimized.timeStamp| == |unoptimized.biasArray| == |unoptimized.deltaBiasArray|
    requires forall k | 0 <= k < |unoptimized.biasArray| ::
             |unoptimized.biasArray[k]| == |unoptimized.deltaBiasArray[k]|
    modifies controller
    ensures controller.timeStamp == unoptimized.timeStamp && controller.gainArray == unoptimized.gainArray
    ensures controller.deltaBiasArray == []
    ensures |controller.biasArray| == |unoptimized.biasArray|
    ensures forall k | 0 <= k < |controller.biasArray| ::
              controller.biasArray[k] == Add(unoptimized.biasArray[k], Scale(stepLength, unoptimized.deltaBiasArray[k]))
  {
    controller.Clear();
    controller.timeStamp := unoptimized.timeStamp;
    controller.gainArray := unoptimized.gainArray;
    var bias: seq<Vec> := [];
    for k := 0 to |unoptimized.timeStamp|
      invariant |bias| == k
      invariant forall l | 0 <= l < k ::
                  bias[l] == Add(unoptimized.biasArray[l], Scale(stepLength, unoptimized.deltaBiasArray[l]))
    {
      bias := bias + [Add(unoptimized.biasArray[k], Scale(stepLength, unoptimized.deltaBiasArray[k]))];
    }
    controller.biasArray := bias;
  }

  // ----- the constraint residual

  /** Input of a node with step length a at state x. */
  function NodeInput(gain: Mat, bias: Vec, delta: Vec, a: real, x: Vec): Vec
    requires gain.cols == |x| && |gain.rows| == |bias| == |delta|
  {
    Add(Add(bias, Scale(a, delta)), MulV(gain, x))
  }

  function Residual(c: LinearApprox, dx: Vec, du: Vec): Vec
    requires LinearFits(c, |dx|, |du|)
  {
    LinearValue(c, dx, du)
  }

  /** du = gain dx + a delta, so the nominal input cancels. */
  lemma InputDeviation(gain: Mat, delta: Vec, nominalState: Vec, nominalInput: Vec, a: real, x: Vec)
    requires gain.cols == |x| == |nominalState| && |gain.rows| == |nominalInput| == |delta|
    ensures Sub(NodeInput(gain, NodeBias(gain, nominalState, nominalInput), delta, a, x), nominalInput)
            == Add(MulV(gain, Sub(x, nominalState)), Scale(a, delta))
  {
    var dx := Sub(x, nominalState);
    assert Add(nominalState, dx) == x;
    MulVAdd(gain, nominalState, dx);
  }

  /** With e = d dagger the product of the constraint and its pseudo inverse, d maps -(dagger y) + null z to -(e y). */
  lemma ProjectedOut(d: Mat, dagger: Mat, nullProjector: Mat, y: Vec, z: Vec)
    requires d.cols == |dagger.rows| == |nullProjector.rows| && dagger.cols == |y| && nullProjector.cols == |z|
    requires Mul(d, nullProjector) == ZeroMat(|d.rows|, nullProjector.cols)
    ensures MulV(d, Add(Scale(-1.0, MulV(dagger, y)), MulV(nullProjector, z))) == Scale(-1.0, MulV(Mul(d, dagger), y))
  {
    MulVAdd(d, Scale(-1.0, MulV(dagger, y)), MulV(nullProjector, z));
    MulVScale(-1.0, d, MulV(dagger, y));
    MulMulV(d, dagger, y);
    MulMulV(d, nullProjector, z);
    ZeroMatMulV(|d.rows|, z);
    AddZeros(Scale(-1.0, MulV(Mul(d, dagger), y)));
  }

  lemma GainActs(dagger: Mat, c: Mat, nullProjector: Mat, km: Mat, dx: Vec)
    requires dagger.cols == |c.rows| && c.cols == km.cols == |dx|
    requires |dagger.rows| == |nullProjector.rows| && nullProjector.cols == |km.rows|
    ensures MulV(NodeGain(Mul(dagger, c), nullProjector, km), dx)
            == Add(Scale(-1.0, MulV(dagger, MulV(c, dx))), MulV(nullProjector, MulV(km, dx)))
  {
    MAddMulV(Negated(Mul(dagger, c)), Mul(nullProjector, km), dx);
    MScaleMulV(-1.0, Mul(dagger, c), dx);
    MulMulV(dagger, c, dx);
    MulMulV(nullProjector, km, dx);
  }

  ghost predicate ConstraintSetup(c: LinearApprox, dagger: Mat, nullProjector: Mat, km: Mat, lv: Vec, nx: nat) {
    && LinearFits(c, nx, |dagger.rows|) && dagger.cols == |c.f|
    && |nullProjector.rows| == |dagger.rows| && nullProjector.cols == |km.rows| == |lv| && km.cols == nx
    && Mul(c.dfdu, nullProjector) == ZeroMat(|c.f|, nullProjector.cols)
  }

  /**
   * The change of input with step length a at a deviation dx of the state: the pseudo inverse takes back C dx and the
   * fraction a of e, and the null space carries the feedback and the fraction a of the feedforward.
   */
  function NodeDeviation(c: LinearApprox, dagger: Mat, nullProjector: Mat, km: Mat, lv: Vec, a: real, dx: Vec): (r: Vec)
    requires LinearFits(c, |dx|, |dagger.rows|) && dagger.cols == |c.f|
    requires |nullProjector.rows| == |dagger.rows| && nullProjector.cols == |km.rows| == |lv| && km.cols == |dx|
    ensures |r| == |dagger.rows|
  {
    Add(Scale(-1.0, Add(MulV(dagger, MulV(c.dfdx, dx)), Scale(a, MulV(dagger, c.f)))),
        MulV(nullProjector, Add(MulV(km, dx), Scale(a, lv))))
  }

  /** The entries of a node ask for this input. */
  lemma EntriesDeviate(c: LinearApprox, dagger: Mat, nullProjector: Mat, km: Mat, lv: Vec, nominalState: Vec,
                       nominalInput: Vec, a: real, x: Vec)
    requires LinearFits(c, |x|, |dagger.rows|) && dagger.cols == |c.f| && km.cols == |x| == |nominalState|
    requires |nullProjector.rows| == |dagger.rows| == |nominalInput| && nullProjector.cols == |km.rows| == |lv|
    ensures var gain := NodeGain(Mul(dagger, c.dfdx), nullProjector, km);
            var bias := NodeBias(gain, nominalState, nominalInput);
            var delta := NodeDelta(MulV(dagger, c.f), nullProjector, lv);
            Sub(NodeInput(gain, bias, delta, a, x), nominalInput)
            == NodeDeviation(c, dagger, nullProjector, km, lv, a, Sub(x, nominalState))
  {
    hide MulV, Mul;
    var gain := NodeGain(Mul(dagger, c.dfdx), nullProjector, km);
    var delta := NodeDelta(MulV(dagger, c.f), nullProjector, lv);
    var dx := Sub(x, nominalState);
    InputDeviation(gain, delta, nominalState, nominalInput, a, x);
    GainActs(dagger, c.dfdx, nullProjector, km, dx);
    MulVAdd(nullProjector, MulV(km, dx), Scale(a, lv));
    MulVScale(a, nullProjector, lv);
    DeviationArithmetic(MulV(dagger, MulV(c.dfdx, dx)), MulV(dagger, c.f), MulV(nullProjector, MulV(km, dx)),
                        MulV(nullProjector, lv), a);
  }

  lemma DeviationArithmetic(y: Vec, e: Vec, k: Vec, l: Vec, a: real)
    requires |y| == |e| == |k| == |l|
    ensures Add(Add(Scale(-1.0, y), k), Scale(a, Add(Scale(-1.0, e), l)))
            == Add(Scale(-1.0, Add(y, Scale(a, e))), Add(k, Scale(a, l)))
  {
    var r, t := Add(Add(Scale(-1.0, y), k), Scale(a, Add(Scale(-1.0, e), l))),
        Add(Scale(-1.0, Add(y, Scale(a, e))), Add(k, Scale(a, l)));
    forall i | 0 <= i < |y|
      ensures r[i] == t[i]
    {
      Distribute(-1.0 * e[i], l[i], a);
    }
  }

  lemma Distribute(p: real, q: real, a: real)
    ensures a * (p + q) == a * p + a * q
  {
  }

  /** A full step is the reduced input at km dx + lv. */
  lemma FullStepIsReducedInput(m: ModelData, dagger: Mat, nullProjector: Mat, km: Mat, lv: Vec, dx: Vec)
    requires ModelFits(m, |nullProjector.rows|) && ProjectorsFit(m, dagger, nullProjector, |nullProjector.rows|)
    requires |dagger.rows| == |nullProjector.rows| && dagger.cols == |m.stateInputEqConstraint.f|
    requires nullProjector.cols == |km.rows| == |lv| && km.cols == |dx| == m.stateDim
    ensures NodeDeviation(m.stateInputEqConstraint, dagger, nullProjector, km, lv, 1.0, dx)
            == ReducedInput(m, dagger, nullProjector, dx, Add(MulV(km, dx), lv))
  {
    hide Mul;
    var c := m.stateInputEqConstraint;
    assert Scale(1.0, lv) == lv;
    MulMulV(dagger, c.dfdx, dx);
    if |c.f| == 0 {
      MulVZeros(dagger);
    }
  }

  /** The residual in general: (I - E) C dx + (I - a E) e, with E = D dagger. */
  lemma GeneralResidual(c: LinearApprox, dagger: Mat, nullProjector: Mat, km: Mat, lv: Vec, a: real, dx: Vec)
    requires ConstraintSetup(c, dagger, nullProjector, km, lv, |dx|)
    ensures var e, y := Mul(c.dfdu, dagger), MulV(c.dfdx, dx);
            Residual(c, dx, NodeDeviation(c, dagger, nullProjector, km, lv, a, dx))
            == Add(Sub(y, MulV(e, y)), Sub(c.f, Scale(a, MulV(e, c.f))))
  {
    hide MulV, Mul;
    var e, y := Mul(c.dfdu, dagger), MulV(c.dfdx, dx);
    var w := Add(y, Scale(a, c.f));
    MulVAdd(dagger, y, Scale(a, c.f));
    MulVScale(a, dagger, c.f);
    ProjectedOut(c.dfdu, dagger, nullProjector, w, Add(MulV(km, dx), Scale(a, lv)));
    MulVAdd(e, y, Scale(a, c.f));
    MulVScale(a, e, c.f);
    ResidualArithmetic(y, MulV(e, y), c.f, MulV(e, c.f), a);
  }

  lemma ResidualArithmetic(y: Vec, ey: Vec, f: Vec, ef: Vec, a: real)
    requires |y| == |ey| == |f| == |ef|
    ensures Add(Add(y, Scale(-1.0, Add(ey, Scale(a, ef)))), f) == Add(Sub(y, ey), Sub(f, Scale(a, ef)))
  {
  }

  /** With an exact pseudo inverse a step of length a leaves exactly (1 - a) e; a full step meets the constraint. */
  lemma ResidualOfDeviation(c: LinearApprox, dagger: Mat, nullProjector: Mat, km: Mat, lv: Vec, a: real, dx: Vec)
    requires ConstraintSetup(c, dagger, nullProjector, km, lv, |dx|)
    requires |c.f| > 0 ==> Mul(c.dfdu, dagger) == Identity(|c.f|)
    ensures Residual(c, dx, NodeDeviation(c, dagger, nullProjector, km, lv, a, dx)) == Scale(1.0 - a, c.f)
  {
    GeneralResidual(c, dagger, nullProjector, km, lv, a, dx);
    var y := MulV(c.dfdx, dx);
    IdentityMulV(y);
    IdentityMulV(c.f);
    var r := Add(Sub(y, y), Sub(c.f, Scale(a, c.f)));
    forall i | 0 <= i < |c.f|
      ensures r[i] == Scale(1.0 - a, c.f)[i]
    {
      assert c.f[i] - a * c.f[i] == (1.0 - a) * c.f[i];
    }
  }

  /** The same of the entries that a node is given. */
  lemma ResidualAfterStep(c: LinearApprox, dagger: Mat, nullProjector: Mat, km: Mat, lv: Vec, nominalState: Vec,
                          nominalInput: Vec, a: real, x: Vec)
    requires ConstraintSetup(c, dagger, nullProjector, km, lv, |x|)
    requires |nominalState| == |x| && |nominalInput| == |dagger.rows|
    requires Mul(c.dfdu, dagger) == Identity(|c.f|)
    ensures var gain := NodeGain(Mul(dagger, c.dfdx), nullProjector, km);
            var bias := NodeBias(gain, nominalState, nominalInput);
            var delta := NodeDelta(MulV(dagger, c.f), nullProjector, lv);
            Residual(c, Sub(x, nominalState), Sub(NodeInput(gain, bias, delta, a, x), nominalInput))
                == Scale(1.0 - a, c.f)
  {
    EntriesDeviate(c, dagger, nullProjector, km, lv, nominalState, nominalInput, a, x);
    ResidualOfDeviation(c, dagger, nullProjector, km, lv, a, Sub(x, nominalState));
  }

  /**
   * With the projectors computed for D, a full step meets the constraint for every C, e, feedback and state
   * exactly when the triangular factor needed no clipping.
   */
  lemma FullStepMeetsConstraintIff(d: Mat, u: Mat, r: Mat, dagger: Mat, weightUUT: Mat, nullProjector: Mat)
    requires Projects(d, u, r, dagger, weightUUT, nullProjector)
    ensures WellConditioned(r, WEAK_EPSILON)
            <==> forall c: LinearApprox, km: Mat, lv: Vec, dx: Vec
                   | c.dfdu == d && ConstraintSetup(c, dagger, nullProjector, km, lv, |dx|) ::
                   Residual(c, dx, NodeDeviation(c, dagger, nullProjector, km, lv, 1.0, dx)) == Zeros(|d.rows|)
  {
    var e := Mul(d, dagger);
    if WellConditioned(r, WEAK_EPSILON) {
      forall c: LinearApprox, km: Mat, lv: Vec, dx: Vec
        | c.dfdu == d && ConstraintSetup(c, dagger, nullProjector, km, lv, |dx|)
        ensures Residual(c, dx, NodeDeviation(c, dagger, nullProjector, km, lv, 1.0, dx)) == Zeros(|d.rows|)
      {
        GeneralResidual(c, dagger, nullProjector, km, lv, 1.0, dx);
        IdentityMulV(MulV(c.dfdx, dx));
        IdentityMulV(c.f);
      }
    } else if forall c: LinearApprox, km: Mat, lv: Vec, dx: Vec
                | c.dfdu == d && ConstraintSetup(c, dagger, nullProjector, km, lv, |dx|) ::
                Residual(c, dx, NodeDeviation(c, dagger, nullProjector, km, lv, 1.0, dx)) == Zeros(|d.rows|) {
      forall y: Vec | |y| == |d.rows|
        ensures MulV(e, y) == MulV(Identity(|d.rows|), y)
      {
        ConstantProbe(d, dagger, nullProjector, y);
        IdentityMulV(y);
      }
      SameAction(e, Identity(|d.rows|));
    }
  }

  /** The residual of the constraint with no state dependence and offset y is y - E y. */
  lemma ConstantProbe(d: Mat, dagger: Mat, nullProjector: Mat, y: Vec)
    requires d.cols == |dagger.rows| == |nullProjector.rows| && dagger.cols == |d.rows| == |y|
    requires Mul(d, nullProjector) == ZeroMat(|d.rows|, nullProjector.cols)
    ensures var c, km, lv := LinearApprox(y, ZeroMat(|y|, 0), d), ZeroMat(nullProjector.cols, 0),
            Zeros(nullProjector.cols);
            && ConstraintSetup(c, dagger, nullProjector, km, lv, 0)
            && (Residual(c, [], NodeDeviation(c, dagger, nullProjector, km, lv, 1.0, [])) == Zeros(|y|) ==>
                  MulV(Mul(d, dagger), y) == y)
  {
    var c, km, lv := LinearApprox(y, ZeroMat(|y|, 0), d), ZeroMat(nullProjector.cols, 0), Zeros(nullProjector.cols);
    GeneralResidual(c, dagger, nullProjector, km, lv, 1.0, []);
    ZeroMatMulV(|y|, []);
    MulVZeros(Mul(d, dagger));
    var ey := MulV(Mul(d, dagger), y);
    var r := Add(Sub(Zeros(|y|), Zeros(|y|)), Sub(y, Scale(1.0, ey)));
    if r == Zeros(|y|) {
      forall i | 0 <= i < |y|
        ensures ey[i] == y[i]
      {
        assert r[i] == 0.0;
      }
    }
  }

  // ----- from the node's data to the controller of a step

  /**
   * What the backward pass leaves for the controller of a node: in iLQR the projected feedback and feedforward, in SLQ
   * the Riccati modification and the value function they are computed from.
   */
  datatype Riccati =
    | Gains(km: Mat, lv: Vec)
    | ValueFunction(deltaGm: Mat, deltaGv: Vec, sm: Mat, sv: Vec)
  {
    ghost predicate Fits(nx: nat, nv: int, rows: nat) {
      match this
      case Gains(km, lv) => km.cols == nx && |km.rows| == |lv| == nv
      case ValueFunction(gm, gv, sm, sv) =>
        gm.cols == nx && |gm.rows| == |gv| == nv && |sm.rows| == |sv| == rows && sm.cols == nx
    }
  }

  /**
   * The problem at a node, the Hessian of its Hamiltonian, its nominal point, and what the backward pass left for it.
   */
  datatype NodeData = NodeData(model: ModelData, hessian: Mat, state: Vec, input: Vec, riccati: Riccati) {
    ghost predicate Valid() {
      && var nu, nc := |input|, |model.stateInputEqConstraint.f|;
      && ModelFits(model, nu) && Symmetric(hessian) && Definite(hessian) && hessian.cols == nu
      && |state| == model.stateDim && riccati.Fits(|state|, nu - nc, |model.dynamics.f|)
    }
  }

  /** The projectors of a node, and its feedback and feedforward in the coordinates of the null space. */
  datatype NodeStep = NodeStep(range: Mat, nullSpace: Mat, km: Mat, lv: Vec) {
    ghost predicate Fits(n: NodeData) {
      && |range.rows| == |nullSpace.rows| == |n.input| && range.cols == |n.model.stateInputEqConstraint.f|
      && nullSpace.cols == |lv| == |km.rows| == |n.input| - |n.model.stateInputEqConstraint.f|
      && km.cols == n.model.stateDim
    }
  }

  /** The projectors are those of the constraint of the node, weighted by its Hessian. */
  ghost predicate ProjectsNode(f: Factorisations, n: NodeData, s: NodeStep)
    requires n.Valid() && s.Fits(n)
  {
    var d := n.model.stateInputEqConstraint.dfdu;
    && Mul(d, s.nullSpace) == ZeroMat(|d.rows|, s.nullSpace.cols)
    && Mul(Transpose(s.nullSpace), Mul(n.hessian, s.nullSpace)) == Identity(s.nullSpace.cols)
    && Mul(Transpose(s.range), Mul(n.hessian, s.nullSpace)) == ZeroMat(|d.rows|, s.nullSpace.cols)
    && (Mul(d, s.range) == Identity(|d.rows|) <==> Exact(f, n.hessian, d))
  }

  /**
   * Cost of the node plus slope of the value function along its dynamics, at the reduced input v: the Hamiltonian, with
   * the Riccati modification. The curvature of the cost in v is replaced by the one of the identity.
   */
  function Hamiltonian(n: NodeData, s: NodeStep, dx: Vec, v: Vec): real
    requires n.Valid() && s.Fits(n) && n.riccati.ValueFunction? && |dx| == n.model.stateDim && |v| == s.nullSpace.cols
  {
    var u, w := ReducedInput(n.model, s.range, s.nullSpace, dx, v), MulV(s.nullSpace, v);
    QuadraticValue(n.model.cost, dx, u)
    + Dot(Add(MulV(n.riccati.sm, dx), n.riccati.sv), LinearValue(n.model.dynamics, dx, u))
    + Dot(v, Add(MulV(n.riccati.deltaGm, dx), n.riccati.deltaGv))
    + 0.5 * (Dot(v, v) - Dot(w, MulV(n.model.cost.dfduu, w)))
  }

  /**
   * Feedback and feedforward are the given ones, or minimise the Hamiltonian: any other reduced input costs half the
   * square of its distance more.
   */
  ghost predicate Feeds(n: NodeData, s: NodeStep)
    requires n.Valid() && s.Fits(n)
  {
    match n.riccati
    case Gains(km, lv) => s.km == km && s.lv == lv
    case ValueFunction(_, _, _, _) =>
      forall dx: Vec, v: Vec | |dx| == n.model.stateDim && |v| == |s.lv| :: CostsMore(n, s, dx, v)
  }

  ghost predicate CostsMore(n: NodeData, s: NodeStep, dx: Vec, v: Vec)
    requires n.Valid() && s.Fits(n) && n.riccati.ValueFunction? && |dx| == n.model.stateDim && |v| == |s.lv|
  {
    var best := Add(MulV(s.km, dx), s.lv);
    Hamiltonian(n, s, dx, v) == Hamiltonian(n, s, dx, best) + 0.5 * Dot(Sub(v, best), Sub(v, best))
  }

  /** With this gain and bias every state gets the input of a step of length a. */
  ghost predicate Steers(n: NodeData, s: NodeStep, gain: Mat, bias: Vec, a: real)
    requires n.Valid() && s.Fits(n)
  {
    && gain.cols == n.model.stateDim && |gain.rows| == |bias| == |n.input|
    && forall x: Vec | |x| == n.model.stateDim ::
         Sub(Add(bias, MulV(gain, x)), n.input)
         == NodeDeviation(n.model.stateInputEqConstraint, s.range, s.nullSpace, s.km, s.lv, a, Sub(x, n.state))
  }

  // ----- the feedforward of SLQ minimises the Hamiltonian

  ghost predicate ProjectionFits(n: NodeData, s: NodeStep, p: ModelData)
    requires n.Valid() && s.Fits(n)
  {
    var nx, nv := n.model.stateDim, s.nullSpace.cols;
    LinearFits(p.dynamics, nx, nv) && |p.dynamics.f| == |n.model.dynamics.f| && CostFits(p.cost, nx, nv)
  }

  /** What the workers know of the projected problem of a node. */
  ghost predicate ProjectionOf(n: NodeData, s: NodeStep, p: ModelData)
    requires n.Valid() && s.Fits(n) && ProjectionFits(n, s, p)
  {
    && p.cost.dfduu == Mul(Transpose(s.nullSpace), Mul(n.model.cost.dfduu, s.nullSpace))
    && forall x: Vec, v: Vec | |x| == n.model.stateDim && |v| == s.nullSpace.cols ::
         && LinearValue(p.dynamics, x, v)
            == LinearValue(n.model.dynamics, x, ReducedInput(n.model, s.range, s.nullSpace, x, v))
         && QuadraticValue(p.cost, x, v)
            == QuadraticValue(n.model.cost, x, ReducedInput(n.model, s.range, s.nullSpace, x, v))
  }

  /** The curvature of the projected cost along v is the one of the cost along the input it stands for. */
  lemma ProjectedCurvature(r: Mat, z: Mat, v: Vec)
    requires |r.rows| == r.cols == |z.rows| && |v| == z.cols
    ensures Dot(v, MulV(Mul(Transpose(z), Mul(r, z)), v)) == Dot(MulV(z, v), MulV(r, MulV(z, v)))
  {
    hide Dot, MulV, Mul;
    MulMulV(Transpose(z), Mul(r, z), v);
    MulMulV(r, z, v);
    MoveAcross(v, Transpose(z), MulV(r, MulV(z, v)));
    TransposeTwice(z);
  }

  /** The slope of the Hamiltonian in v at v = 0. */
  function Slope(p: ModelData, b: Vec, dx: Vec, modification: Vec): (g: Vec)
    requires CostFits(p.cost, |dx|, |modification|) && |b| == |p.dynamics.dfdu.rows|
    requires p.dynamics.dfdu.cols == |modification|
    ensures |g| == |modification|
  {
    Add(Add(Add(p.cost.dfdu, MulV(p.cost.dfdux, dx)), MulV(Transpose(p.dynamics.dfdu), b)), modification)
  }

  lemma SumOfForms(v: Vec, r: Vec, px: Vec, t: Vec, m: Vec)
    requires |v| == |r| == |px| == |t| == |m|
    ensures Dot(v, Add(Add(Add(r, px), t), m)) == Dot(r, v) + Dot(v, px) + Dot(t, v) + Dot(v, m)
  {
    DotAdd(v, Add(Add(r, px), t), m);
    DotAdd(v, Add(r, px), t);
    DotAdd(v, r, px);
    DotCommutes(v, r);
    DotCommutes(v, t);
  }

  function HamiltonianAtZero(p: ModelData, b: Vec, dx: Vec): real
    requires CostFits(p.cost, |dx|, |p.cost.dfdu|) && p.dynamics.dfdx.cols == |dx|
    requires |b| == |p.dynamics.f| == |p.dynamics.dfdx.rows|
  {
    p.cost.f + Dot(p.cost.dfdx, dx) + 0.5 * Dot(dx, MulV(p.cost.dfdxx, dx))
    + Dot(b, Add(MulV(p.dynamics.dfdx, dx), p.dynamics.f))
  }

  /** Cost and slope of the value function of the projected problem, sorted by powers of v. */
  lemma ProjectedForm(p: ModelData, b: Vec, m: Vec, dx: Vec, v: Vec)
    requires LinearFits(p.dynamics, |dx|, |v|) && CostFits(p.cost, |dx|, |v|) && |b| == |p.dynamics.f| && |m| == |v|
    ensures QuadraticValue(p.cost, dx, v) + Dot(b, LinearValue(p.dynamics, dx, v)) + Dot(v, m)
            == HamiltonianAtZero(p, b, dx) + Dot(v, Slope(p, b, dx, m)) + 0.5 * Dot(v, MulV(p.cost.dfduu, v))
  {
    hide Dot, MulV, Mul;
    var d, c := p.dynamics, p.cost;
    var ax, bv := MulV(d.dfdx, dx), MulV(d.dfdu, v);
    DotAdd(b, Add(ax, bv), d.f);
    DotAdd(b, ax, bv);
    DotAdd(b, ax, d.f);
    MoveAcross(b, d.dfdu, v);
    SumOfForms(v, c.dfdu, MulV(c.dfdux, dx), MulV(Transpose(d.dfdu), b), m);
  }

  /** The Hamiltonian is a constant plus a slope and half the square of v. */
  lemma HamiltonianForm(n: NodeData, s: NodeStep, p: ModelData, b: Vec, m: Vec, dx: Vec, v: Vec)
    requires n.Valid() && s.Fits(n) && ProjectionFits(n, s, p) && ProjectionOf(n, s, p) && n.riccati.ValueFunction?
    requires |dx| == n.model.stateDim && |v| == s.nullSpace.cols
    requires b == Add(MulV(n.riccati.sm, dx), n.riccati.sv) && m == Add(MulV(n.riccati.deltaGm, dx), n.riccati.deltaGv)
    ensures Hamiltonian(n, s, dx, v)
            == HamiltonianAtZero(p, b, dx) + Dot(v, Slope(p, b, dx, m)) + 0.5 * Dot(v, v)
  {
    hide Dot, MulV, Mul, Symmetric, Definite, ReducedInput, Slope, HamiltonianAtZero, QuadraticValue, LinearValue;
    ProjectedCurvature(n.model.cost.dfduu, s.nullSpace, v);
    ProjectedForm(p, b, m, dx, v);
  }

  lemma SquareGap(v: Vec, b: Vec, g: Vec)
    requires |v| == |b| == |g| && b == Scale(-1.0, g)
    ensures Dot(v, g) + 0.5 * Dot(v, v) == Dot(b, g) + 0.5 * Dot(b, b) + 0.5 * Dot(Sub(v, b), Sub(v, b))
  {
    hide Dot;
    var d := Sub(v, b);
    assert v == Add(d, b) && g == Scale(-1.0, b);
    DotAdd(v, d, b);
    AddDot(d, b, d);
    AddDot(d, b, b);
    DotScale(-1.0, v, b);
    DotScale(-1.0, b, b);
    DotCommutes(b, d);
  }

  /** km dx + lv is minus the slope. */
  lemma FeedIsMinusSlope(p: ModelData, km: Mat, lv: Vec, gm: Mat, gv: Vec, sm: Mat, sv: Vec, dx: Vec)
    requires CostFits(p.cost, |dx|, |lv|) && p.dynamics.dfdu.cols == |lv| == |gv|
    requires SameShape(gm, p.cost.dfdux) && |p.dynamics.dfdu.rows| == |sm.rows| == |sv| && sm.cols == |dx|
    requires km == MAdd(Negated(MAdd(gm, p.cost.dfdux)), Negated(Mul(Transpose(p.dynamics.dfdu), sm)))
    requires lv == Sub(Scale(-1.0, Add(gv, p.cost.dfdu)), MulV(Transpose(p.dynamics.dfdu), sv))
    ensures Add(MulV(km, dx), lv)
            == Scale(-1.0, Slope(p, Add(MulV(sm, dx), sv), dx, Add(MulV(gm, dx), gv)))
  {
    hide MulV, Mul;
    var bt, px := Transpose(p.dynamics.dfdu), p.cost.dfdux;
    MAddMulV(Negated(MAdd(gm, px)), Negated(Mul(bt, sm)), dx);
    MScaleMulV(-1.0, MAdd(gm, px), dx);
    MAddMulV(gm, px, dx);
    MScaleMulV(-1.0, Mul(bt, sm), dx);
    MulMulV(bt, sm, dx);
    MulVAdd(bt, MulV(sm, dx), sv);
  }

  /** The feedback and feedforward of the SLQ worker minimise the Hamiltonian at every state. */
  lemma SlqFeedMinimises(n: NodeData, s: NodeStep, p: ModelData, dx: Vec, v: Vec)
    requires n.Valid() && s.Fits(n) && ProjectionFits(n, s, p) && ProjectionOf(n, s, p) && n.riccati.ValueFunction?
    requires |dx| == n.model.stateDim && |v| == |s.lv|
    requires s.km == MAdd(Negated(MAdd(n.riccati.deltaGm, p.cost.dfdux)),
                          Negated(Mul(Transpose(p.dynamics.dfdu), n.riccati.sm)))
    requires s.lv == Sub(Scale(-1.0, Add(n.riccati.deltaGv, p.cost.dfdu)),
                         MulV(Transpose(p.dynamics.dfdu), n.riccati.sv))
    ensures CostsMore(n, s, dx, v)
  {
    hide Dot, MulV, Mul, Symmetric, Definite, Slope, Hamiltonian, HamiltonianAtZero, ProjectionOf;
    var r := n.riccati;
    var best, b, m := Add(MulV(s.km, dx), s.lv), Add(MulV(r.sm, dx), r.sv), Add(MulV(r.deltaGm, dx), r.deltaGv);
    HamiltonianForm(n, s, p, b, m, dx, v);
    HamiltonianForm(n, s, p, b, m, dx, best);
    FeedIsMinusSlope(p, s.km, s.lv, r.deltaGm, r.deltaGv, r.sm, r.sv, dx);
    SquareGap(v, best, Slope(p, b, dx, m));
  }

  /** With the Hessian of the cost for the weight, as in SLQ, the identity is the curvature of the cost. */
  lemma CurvatureIsIdentity(f: Factorisations, n: NodeData, s: NodeStep, v: Vec)
    requires n.Valid() && s.Fits(n) && ProjectsNode(f, n, s) && n.hessian == n.model.cost.dfduu
    requires |v| == s.nullSpace.cols
    ensures var w := MulV(s.nullSpace, v); Dot(w, MulV(n.model.cost.dfduu, w)) == Dot(v, v)
  {
    hide Dot, MulV, Mul, Symmetric, Definite;
    ProjectedCurvature(n.hessian, s.nullSpace, v);
    IdentityMulV(v);
  }

  // ----- one node

  /** The linearised constraint of the node has residual factor * e at every state, with this gain and bias. */
  ghost predicate LeavesOfConstraint(n: NodeData, gain: Mat, bias: Vec, factor: real) {
    && gain.cols == n.model.stateDim && |gain.rows| == |bias| == |n.input|
    && LinearFits(n.model.stateInputEqConstraint, n.model.stateDim, |n.input|)
    && |n.state| == n.model.stateDim
    && forall x: Vec | |x| == n.model.stateDim ::
         Residual(n.model.stateInputEqConstraint, Sub(x, n.state), Sub(Add(bias, MulV(gain, x)), n.input))
         == Scale(factor, n.model.stateInputEqConstraint.f)
  }

  /** A step of length a leaves (1 - a) e, unless the factor is clipped. */
  lemma SteeringLeaves(f: Factorisations, n: NodeData, s: NodeStep, gain: Mat, bias: Vec, a: real)
    requires n.Valid() && s.Fits(n) && ProjectsNode(f, n, s) && Steers(n, s, gain, bias, a)
    requires Exact(f, n.hessian, n.model.stateInputEqConstraint.dfdu)
    ensures LeavesOfConstraint(n, gain, bias, 1.0 - a)
  {
    hide Symmetric, Definite, CostFits, MulV, Mul, Identity, ZeroMat, LinearValue, Exact, NodeDeviation;
    var c := n.model.stateInputEqConstraint;
    forall x: Vec | |x| == n.model.stateDim
      ensures Residual(c, Sub(x, n.state), Sub(Add(bias, MulV(gain, x)), n.input)) == Scale(1.0 - a, c.f)
    {
      ResidualOfDeviation(c, s.range, s.nullSpace, s.km, s.lv, a, Sub(x, n.state));
    }
  }

  /** Projectors, feedback and feedforward belong to the node, and its entries steer with them at every step length. */
  ghost predicate NodeControlled(f: Factorisations, n: NodeData, s: NodeStep, gain: Mat, bias: Vec, delta: Vec) {
    && n.Valid() && s.Fits(n) && |bias| == |delta| && ProjectsNode(f, n, s) && Feeds(n, s)
    && forall a: real :: Steers(n, s, gain, Add(bias, Scale(a, delta)), a)
  }

  /**
   * One node: project with the computed projectors, write the controller entries.
   */
  method CalculateNode(f: Factorisations, timeIndex: nat, n: NodeData, dst: LinearController)
    returns (ghost s: NodeStep)
    requires f.Valid() && n.Valid()
    requires timeIndex < |dst.gainArray| == |dst.biasArray| == |dst.deltaBiasArray|
    modifies dst
    ensures dst.timeStamp == old(dst.timeStamp)
    ensures |dst.gainArray| == |old(dst.gainArray)| == |dst.biasArray| == |dst.deltaBiasArray|
    ensures forall k | 0 <= k < |dst.gainArray| && k != timeIndex ::
              && dst.gainArray[k] == old(dst.gainArray)[k] && dst.biasArray[k] == old(dst.biasArray)[k]
              && dst.deltaBiasArray[k] == old(dst.deltaBiasArray)[k]
    ensures NodeControlled(f, n, s, dst.gainArray[timeIndex], dst.biasArray[timeIndex], dst.deltaBiasArray[timeIndex])
  {
    hide Symmetric, Definite, Factorisations.Valid, Exact, NodeControlled, LinearValue, QuadraticValue, MulV, Mul,
        ReducedInput;
    var c := n.model.stateInputEqConstraint;
    var rangeProjector, nullProjector := ComputeProjections(f, n.hessian, c.dfdu);
    var projected := ProjectLQ(n.model, rangeProjector, nullProjector);
    var km, lv;
    match n.riccati {
      case Gains(m, v) =>
        km, lv := m, v;
        CalculateControllerWorker(timeIndex, projected, nullProjector, km, lv, n.state, n.input, dst);
      case ValueFunction(gm, gv, sm, sv) =>
        km, lv := CalculateSlqControllerWorker(timeIndex, projected, nullProjector, gm, gv, sm, sv, n.state, n.input,
                                               dst);
    }
    s := NodeStep(rangeProjector, nullProjector, km, lv);
    NodeIsControlled(f, n, s, projected, dst.gainArray[timeIndex], dst.biasArray[timeIndex],
                     dst.deltaBiasArray[timeIndex]);
  }

  /** Without constraints the products of the pseudo inverse are the zeros that the projection puts in their place. */
  lemma NoConstraint(dagger: Mat, c: LinearApprox)
    requires dagger.cols == |c.f| == |c.dfdx.rows| == 0
    ensures Mul(dagger, c.dfdx) == ZeroMat(|dagger.rows|, c.dfdx.cols) && MulV(dagger, c.f) == Zeros(|dagger.rows|)
  {
    assert Mul(dagger, c.dfdx).rows == ZeroMat(|dagger.rows|, c.dfdx.cols).rows;
  }

  lemma EntriesSteer(n: NodeData, s: NodeStep, q: LinearApprox, gain: Mat, bias: Vec, delta: Vec, a: real)
    requires n.Valid() && s.Fits(n)
    requires q.f == MulV(s.range, n.model.stateInputEqConstraint.f)
    requires q.dfdx == Mul(s.range, n.model.stateInputEqConstraint.dfdx)
    requires gain == NodeGain(q.dfdx, s.nullSpace, s.km)
    requires bias == NodeBias(gain, n.state, n.input) && delta == NodeDelta(q.f, s.nullSpace, s.lv)
    ensures |bias| == |delta| && Steers(n, s, gain, Add(bias, Scale(a, delta)), a)
  {
    hide Symmetric, Definite, CostFits, MulV, Mul, NodeDeviation;
    forall x: Vec | |x| == n.model.stateDim
      ensures Sub(Add(Add(bias, Scale(a, delta)), MulV(gain, x)), n.input)
              == NodeDeviation(n.model.stateInputEqConstraint, s.range, s.nullSpace, s.km, s.lv, a, Sub(x, n.state))
    {
      EntriesDeviate(n.model.stateInputEqConstraint, s.range, s.nullSpace, s.km, s.lv, n.state, n.input, a, x);
    }
  }

  lemma NodeIsControlled(f: Factorisations, n: NodeData, s: NodeStep, p: ModelData, gain: Mat, bias: Vec, delta: Vec)
    requires n.Valid() && s.Fits(n) && ProjectsNode(f, n, s) && ProjectionFits(n, s, p) && ProjectionOf(n, s, p)
    requires match n.riccati
             case Gains(km, lv) => s.km == km && s.lv == lv
             case ValueFunction(gm, gv, sm, sv) =>
               && s.km == MAdd(Negated(MAdd(gm, p.cost.dfdux)), Negated(Mul(Transpose(p.dynamics.dfdu), sm)))
               && s.lv == Sub(Scale(-1.0, Add(gv, p.cost.dfdu)), MulV(Transpose(p.dynamics.dfdu), sv))
    requires var c, q := n.model.stateInputEqConstraint, p.stateInputEqConstraint;
             && |q.f| == |q.dfdx.rows| == |n.input| && q.dfdx.cols == n.model.stateDim
             && (|c.f| > 0 ==> q.f == MulV(s.range, c.f) && q.dfdx == Mul(s.range, c.dfdx))
             && (|c.f| == 0 ==> q.f == Zeros(|n.input|) && q.dfdx == ZeroMat(|n.input|, n.model.stateDim))
             && gain == NodeGain(q.dfdx, s.nullSpace, s.km)
             && bias == NodeBias(gain, n.state, n.input) && delta == NodeDelta(q.f, s.nullSpace, s.lv)
    ensures NodeControlled(f, n, s, gain, bias, delta)
  {
    hide Symmetric, Definite, CostFits, MulV, Mul, Identity, ZeroMat, LinearValue, QuadraticValue, Exact, ProjectionOf,
        Steers, CostsMore, NodeGain, NodeBias, NodeDelta, ProjectsNode, ReducedInput;
    var c, q := n.model.stateInputEqConstraint, p.stateInputEqConstraint;
    if |c.f| == 0 {
      NoConstraint(s.range, c);
    }
    EntriesSteer(n, s, q, gain, bias, delta, 0.0);
    forall a: real
      ensures Steers(n, s, gain, Add(bias, Scale(a, delta)), a)
    {
      EntriesSteer(n, s, q, gain, bias, delta, a);
    }
    if n.riccati.ValueFunction? {
      forall dx: Vec, v: Vec | |dx| == n.model.stateDim && |v| == |s.lv|
        ensures CostsMore(n, s, dx, v)
      {
        SlqFeedMinimises(n, s, p, dx, v);
      }
    }
  }

  // ----- from the node's data to the controller of a step

  /** The first k nodes of the controller are those of their own data. */
  ghost predicate NodesControlled(f: Factorisations, nodes: seq<NodeData>, steps: seq<NodeStep>, gains: seq<Mat>,
                                  biases: seq<Vec>, deltas: seq<Vec>, k: nat)
  {
    && k <= |nodes| == |steps| == |gains| == |biases| == |deltas|
    && forall i | 0 <= i < k :: NodeControlled(f, nodes[i], steps[i], gains[i], biases[i], deltas[i])
  }

  /**
   * The controller of a solved problem. What the Riccati map gives for the last node means nothing unless it is a
   * post-event node, so the node before it is used there too.
   */
  method CalculateController(f: Factorisations, times: seq<real>, postEvents: seq<nat>, nodes: seq<NodeData>,
                             dst: LinearController)
    returns (ghost steps: seq<NodeStep>)
    requires f.Valid() && |times| == |nodes| && forall k | 0 <= k < |nodes| :: nodes[k].Valid()
    modifies dst
    ensures dst.timeStamp == times && |dst.gainArray| == |dst.biasArray| == |dst.deltaBiasArray| == |times|
    ensures forall k | 0 <= k < |times| :: |dst.biasArray[k]| == |dst.deltaBiasArray[k]|
    ensures NodesControlled(f, nodes, steps, dst.gainArray, dst.biasArray, dst.deltaBiasArray,
                            if LastIsCopied(postEvents, |times|) then |times| - 1 else |times|)
    ensures LastIsCopied(postEvents, |times|) ==>
              && dst.gainArray[|times|-1] == dst.gainArray[|times|-2]
              && dst.biasArray[|times|-1] == dst.biasArray[|times|-2]
              && dst.deltaBiasArray[|times|-1] == dst.deltaBiasArray[|times|-2]
  {
    hide NodeData.Valid, Factorisations.Valid, NodeControlled;
    var n := |times|;
    dst.Clear();
    dst.timeStamp := times;
    dst.gainArray := seq(n, _ => Mat(0, []));
    dst.biasArray := seq(n, _ => []);
    dst.deltaBiasArray := seq(n, _ => []);
    steps := seq(n, _ => NodeStep(Mat(0, []), Mat(0, []), Mat(0, []), []));
    for k := 0 to n
      invariant dst.timeStamp == times && |dst.gainArray| == |dst.biasArray| == |dst.deltaBiasArray| == n
      invariant NodesControlled(f, nodes, steps, dst.gainArray, dst.biasArray, dst.deltaBiasArray, k)
      invariant forall i | 0 <= i < k :: |dst.biasArray[i]| == |dst.deltaBiasArray[i]|
    {
      ghost var s := CalculateNode(f, k, nodes[k], dst);
      steps := steps[k := s];
      SameLength(f, nodes[k], s, dst.gainArray[k], dst.biasArray[k], dst.deltaBiasArray[k]);
    }
    if LastIsCopied(postEvents, n) {
      dst.gainArray := dst.gainArray[n-1 := dst.gainArray[n-2]];
      dst.biasArray := dst.biasArray[n-1 := dst.biasArray[n-2]];
      dst.deltaBiasArray := dst.deltaBiasArray[n-1 := dst.deltaBiasArray[n-2]];
    }
  }

  lemma SameLength(f: Factorisations, n: NodeData, s: NodeStep, gain: Mat, bias: Vec, delta: Vec)
    requires NodeControlled(f, n, s, gain, bias, delta)
    ensures |bias| == |delta|
  {
  }

  /** There are two nodes and the last is not a post-event node. */
  predicate LastIsCopied(postEvents: seq<nat>, n: nat) {
    n >= 2 && (postEvents == [] || postEvents[|postEvents|-1] != n - 1)
  }

  /** The controller of a step of length a at one node: whose projectors and feed it uses, and what it asks for. */
  ghost predicate StepsNode(f: Factorisations, n: NodeData, s: NodeStep, gain: Mat, bias: Vec, a: real) {
    && n.Valid() && s.Fits(n) && ProjectsNode(f, n, s) && Feeds(n, s) && Steers(n, s, gain, bias, a)
    && (Exact(f, n.hessian, n.model.stateInputEqConstraint.dfdu) ==> LeavesOfConstraint(n, gain, bias, 1.0 - a))
  }

  /**
   * End to end: at every node but a copied last one, a step of length a asks at every state for the nominal input, less
   * what the pseudo inverse takes back of C dx + a e, plus the feedback and a times the feedforward in the null space;
   * so it leaves exactly (1 - a) e of the linearised constraint, unless the node's triangular factor is clipped.
   */
  method StepController(f: Factorisations, times: seq<real>, postEvents: seq<nat>, nodes: seq<NodeData>,
                        stepLength: real, unoptimized: LinearController, controller: LinearController)
    returns (ghost steps: seq<NodeStep>)
    requires f.Valid() && |times| == |nodes| && forall k | 0 <= k < |nodes| :: nodes[k].Valid()
    requires unoptimized != controller
    modifies unoptimized, controller
    ensures controller.timeStamp == times && |controller.gainArray| == |controller.biasArray| == |steps| == |times|
    ensures forall k | 0 <= k < |times| && (|times| < 2 || k < |times| - 1
                                            || (postEvents != [] && postEvents[|postEvents|-1] == k)) ::
              StepsNode(f, nodes[k], steps[k], controller.gainArray[k], controller.biasArray[k], stepLength)
    ensures |times| >= 2 && (postEvents == [] || postEvents[|postEvents|-1] != |times| - 1) ==>
              && controller.gainArray[|times|-1] == controller.gainArray[|times|-2]
              && controller.biasArray[|times|-1] == controller.biasArray[|times|-2]
  {
    hide NodeData.Valid, Factorisations.Valid, NodeControlled, StepsNode;
    steps := CalculateController(f, times, postEvents, nodes, unoptimized);
    IncrementController(stepLength, unoptimized, controller);
    forall k | 0 <= k < |times| && !(k == |times| - 1 && LastIsCopied(postEvents, |times|))
      ensures StepsNode(f, nodes[k], steps[k], controller.gainArray[k], controller.biasArray[k], stepLength)
    {
      ControlledSteps(f, nodes[k], steps[k], unoptimized.gainArray[k], unoptimized.biasArray[k],
                      unoptimized.deltaBiasArray[k], stepLength);
    }
  }

  /**
   * u is the input of a step of length a at the state x. So the residual of the linearised constraint is (1 - a) e, and
   * a full step is the reduced input at km dx + lv.
   */
  ghost predicate InputOfStep(f: Factorisations, n: NodeData, s: NodeStep, a: real, x: Vec, u: Vec)
    requires n.Valid() && s.Fits(n) && |x| == n.model.stateDim && |u| == |n.input|
  {
    var c, dx, du := n.model.stateInputEqConstraint, Sub(x, n.state), Sub(u, n.input);
    && du == NodeDeviation(c, s.range, s.nullSpace, s.km, s.lv, a, dx)
    && (Exact(f, n.hessian, c.dfdu) ==> Residual(c, dx, du) == Scale(1.0 - a, c.f))
    && (a == 1.0 ==> du == ReducedInput(n.model, s.range, s.nullSpace, dx, Add(MulV(s.km, dx), s.lv)))
  }

  /** What the controller computes at the time of a node is the step of that node, at every state. */
  lemma ComputedInputSteers(f: Factorisations, n: NodeData, s: NodeStep, law: Law, k: nat, a: real, x: Vec)
    requires law.Consistent() && Nondecreasing(law.timeStamp) && k < |law.timeStamp|
    requires k > 0 ==> law.timeStamp[k-1] < law.timeStamp[k]
    requires StepsNode(f, n, s, law.gain[k], law.bias[k], a) && |x| == n.model.stateDim
    ensures n.Valid() && s.Fits(n) && law.Accepts(law.timeStamp[k], x)
    ensures var u := law.Input(law.timeStamp[k], x); |u| == |n.input| && InputOfStep(f, n, s, a, x, u)
  {
    hide MulV, InputOfStep, TimeSegment, InterpolateVec, InterpolateMat, Law.Input, StepsNode, NodeData.Valid;
    StepAtState(f, n, s, law.gain[k], law.bias[k], a, x);
    InputAtSample(law, k, x);
  }

  lemma StepAtState(f: Factorisations, n: NodeData, s: NodeStep, gain: Mat, bias: Vec, a: real, x: Vec)
    requires StepsNode(f, n, s, gain, bias, a) && |x| == n.model.stateDim
    ensures n.Valid() && s.Fits(n) && gain.cols == |x| && |gain.rows| == |bias| == |n.input|
    ensures InputOfStep(f, n, s, a, x, Add(bias, MulV(gain, x)))
  {
    hide Symmetric, Definite, MulV, LinearValue, Exact, ReducedInput, Feeds, ProjectsNode, NodeDeviation;
    if a == 1.0 {
      FullStepIsReducedInput(n.model, s.range, s.nullSpace, s.km, s.lv, Sub(x, n.state));
    }
  }

  lemma ControlledSteps(f: Factorisations, n: NodeData, s: NodeStep, gain: Mat, bias: Vec, delta: Vec, a: real)
    requires NodeControlled(f, n, s, gain, bias, delta)
    ensures |bias| == |delta| && StepsNode(f, n, s, gain, Add(bias, Scale(a, delta)), a)
  {
    hide Symmetric, Definite, Exact, LeavesOfConstraint, Steers, NodeData.Valid, Feeds, ProjectsNode;
    if Exact(f, n.hessian, n.model.stateInputEqConstraint.dfdu) {
      SteeringLeaves(f, n, s, gain, Add(bias, Scale(a, delta)), a);
    }
  }
}
