/** Filters given by their zeros and poles. */
module LoopshapingFilters {
  import opened Vectors
  import opened Types
  import opened DescendingPolynomials
  import opened StateSpaces
  import opened TransferFunctionBases

  /** (s - z[0]) (s - z[1]) ... at s. */
  function RootProduct(z: Vec, s: real): real {
    if z == [] then 1.0 else RootProduct(z[..|z|-1], s) * (s - z[|z|-1])
  }

  /** Coefficients of the monic polynomial with the given roots. */
  function RootPolynomial(z: Vec): (p: Vec)
    ensures |p| == |z| + 1
  {
    if z == [] then [1.0] else
      var p := RootPolynomial(z[..|z|-1]);
      Sub(p + [0.0], Scale(z[|z|-1], [0.0] + p))
  }

  lemma RootStep(p: Vec, z: real, s: real)
    ensures Eval(Sub(p + [0.0], Scale(z, [0.0] + p)), s) == Eval(p, s) * (s - z)
  {
    var a, b := p + [0.0], Scale(z, [0.0] + p);
    assert Sub(a, b) == Add(a, Scale(-1.0, b));
    EvalAdd(a, Scale(-1.0, b), s);
    EvalScale(-1.0, b, s);
    EvalScale(z, [0.0] + p, s);
    assert Zeros(1) == [0.0];
    EvalPrepend(1, p, s);
    EvalAppend(p, 0.0, s);
    assert Eval(p, s) * s - z * Eval(p, s) == Eval(p, s) * (s - z);
  }

  lemma {:induction false} RootPolynomialMeans(z: Vec, s: real)
    ensures Eval(RootPolynomial(z), s) == RootProduct(z, s)
  {
    if z == [] {
      assert [1.0][..0] == [];
      assert Eval([1.0], s) == 0.0 * s + 1.0;
    } else {
      RootPolynomialMeans(z[..|z|-1], s);
      RootStep(RootPolynomial(z[..|z|-1]), z[|z|-1], s);
    }
  }

  lemma {:induction false} RootPolynomialMonic(z: Vec)
    ensures RootPolynomial(z)[0] == 1.0
  {
    if z != [] {
      RootPolynomialMonic(z[..|z|-1]);
      assert z[|z|-1] * 0.0 == 0.0;
    }
  }

  /** The polynomial vanishes exactly at the given roots. */
  lemma VanishesAtRoots(z: Vec, s: real)
    ensures Eval(RootPolynomial(z), s) == 0.0 <==> s in z
  {
    RootPolynomialMeans(z, s);
    RootProductVanishes(z, s);
  }

  lemma {:induction false} RootProductVanishes(z: Vec, s: real)
    ensures RootProduct(z, s) == 0.0 <==> s in z
  {
    if z != [] {
      RootProductVanishes(z[..|z|-1], s);
      var p, q := RootProduct(z[..|z|-1], s), s - z[|z|-1];
      if p != 0.0 && q != 0.0 {
        NonzeroProduct(p, q);
      }
      assert z == z[..|z|-1] + [z[|z|-1]];
    }
  }

  /** The loop over roots. */
  method ExpandRoots(roots: Vec) returns (r: Vec)
    ensures r == RootPolynomial(roots)
  {
    var p := new real[|roots| + 1](_ => 0.0);
    p[0] := 1.0;
    assert p[..] == RootPolynomial(roots[..0]) + Zeros(|roots|);
    for z := 0 to |roots|
      invariant p[..] == RootPolynomial(roots[..z]) + Zeros(|roots| - z)
    {
      ghost var before := p[..];
      SubtractRoot(p, roots[z], z);
      RootSubtracted(roots, z, before, p[..]);
    }
    AllRoots(roots, p[..]);
    r := p[..];
  }

  /** Coefficient i less the root times the coefficient before it, for coefficients 1 to k. */
  function Lowered(p: Vec, root: real, k: nat, i: nat): real
    requires i < |p|
  {
    if 1 <= i <= k then p[i] - root * p[i-1] else p[i]
  }

  method SubtractRoot(p: array<real>, root: real, z: nat)
    requires z + 1 < p.Length
    modifies p
    ensures forall i | 0 <= i < p.Length :: p[..][i] == Lowered(old(p[..]), root, z + 1, i)
  {
    var segment := p[..z+1];
    ghost var before := p[..];
    for k := 0 to z + 1
      invariant forall i | 0 <= i < p.Length :: p[i] == Lowered(before, root, k, i)
    {
      assert p[1+k] == before[1+k] && segment[k] == before[k];
      p[1+k] := p[1+k] - root * segment[k];
    }
  }

  lemma AllRoots(roots: Vec, p: Vec)
    requires p == RootPolynomial(roots[..|roots|]) + Zeros(|roots| - |roots|)
    ensures p == RootPolynomial(roots)
  {
    assert roots[..|roots|] == roots;
    assert p == RootPolynomial(roots) + Zeros(0) == RootPolynomial(roots);
  }

  lemma RootSubtracted(roots: Vec, z: nat, before: Vec, after: Vec)
    requires z < |roots| && |before| == |after| == |roots| + 1
    requires before == RootPolynomial(roots[..z]) + Zeros(|roots| - z)
    requires forall i | 0 <= i < |after| :: after[i] == Lowered(before, roots[z], z + 1, i)
    ensures after == RootPolynomial(roots[..z+1]) + Zeros(|roots| - z - 1)
  {
    hide Lowered;
    assert roots[..z+1][..z] == roots[..z];
    OneRootMore(RootPolynomial(roots[..z]), roots[z], |roots| - z, before, after);
  }

  lemma OneRootMore(p: Vec, root: real, n: nat, before: Vec, after: Vec)
    requires n > 0 && p != [] && before == p + Zeros(n) && |after| == |before|
    requires forall i | 0 <= i < |after| :: after[i] == Lowered(before, root, |p|, i)
    ensures after == Sub(p + [0.0], Scale(root, [0.0] + p)) + Zeros(n - 1)
  {
    var next := Sub(p + [0.0], Scale(root, [0.0] + p));
    assert next[0] == p[0] - root * 0.0;
    forall i | 1 <= i <= |p|
      ensures next[i] == after[i]
    {
      assert ([0.0] + p)[i] == p[i-1] == before[i-1];
      assert (p + [0.0])[i] == before[i];
    }
    forall i | |p| < i < |after|
      ensures after[i] == 0.0
    {
      assert after[i] == before[i];
    }
  }

  lemma MonicOfScaled(p: Vec, c: real)
    requires p != [] && p[0] == 1.0 && c != 0.0
    ensures Scale(c, p)[0] != 0.0 && Monic(Scale(c, p)) == p
  {
    var q := Scale(c, p);
    assert q[0] == c * 1.0;
    forall i | 0 <= i < |p|
      ensures Monic(q)[i] == p[i]
    {
      Cancels(c, 1.0 / c, p[i]);
    }
  }

  /** One filter of one input: scaling prod(s - zero) / prod(s - pole), or its inverse. */
  method ReadSisoFilter(zeros: Vec, poles: Vec, scaling: real, invert: bool,
                        sqrt: real -> real) returns (r: Result<StateSpace>)
    requires IsSquareRoot(sqrt) && (invert ==> scaling != 0.0)
    ensures r.Ok? ==>
      var n, d := Scale(scaling, RootPolynomial(zeros)), RootPolynomial(poles);
      && Realises(r.value, if invert then d else n, if invert then n else d)
      && |r.value.B| == if invert then |zeros| else |poles|
    ensures r.Err? <==> if invert then |poles| > |zeros| || !Balanceable(RootPolynomial(zeros))
                        else |zeros| > |poles| || !Balanceable(RootPolynomial(poles))
  {
    var numerator := ExpandRoots(zeros);
    numerator := Scale(scaling, numerator);
    var denominator := ExpandRoots(poles);
    RootPolynomialMonic(zeros);
    RootPolynomialMonic(poles);
    MonicOfScaled(RootPolynomial(poles), 1.0);
    assert Scale(1.0, RootPolynomial(poles)) == RootPolynomial(poles);
    if invert {
      MonicOfScaled(RootPolynomial(zeros), scaling);
      numerator, denominator := denominator, numerator;
    }
    var tf := new TransferFunctionBase(numerator, denominator, 0.0, true);
    r := tf.GetStateSpace(sqrt);
  }

  /** In the Laplace domain the filter multiplies its input by the ratio of the products of roots. */
  lemma FilterIsRootRatio(m: StateSpace, zeros: Vec, poles: Vec, scaling: real, s: real, x: Vec, u: real)
    requires Realises(m, Scale(scaling, RootPolynomial(zeros)), RootPolynomial(poles)) && m.Solves(s, x, u)
    ensures RootProduct(poles, s) * m.Output(x, u) == (scaling * RootProduct(zeros, s)) * u
  {
    hide Eval, RootProduct, RootPolynomial, StateSpace.Output, StateSpace.Solves;
    RootPolynomialMeans(zeros, s);
    RootPolynomialMeans(poles, s);
    EvalScale(scaling, RootPolynomial(zeros), s);
  }
}
