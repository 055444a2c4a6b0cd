/** Transfer functions with a delay, and their conversion to state space. */
module TransferFunctionBases {
  import opened Vectors
  import opened Types
  import opened DescendingPolynomials
  import opened TransferFunctions
  import opened StateSpaces

  const DELAY_TOL := 0.000001

  /**
   * Pade approximation of a delay. For degrees other than the three below the program builds an exception without
   * throwing it, so the resized vectors keep whatever they hold.
   */
  function PadeApproximation(timeDelay: real, numZeros: nat, numPoles: nat, unset: (Vec, Vec)): (Vec, Vec) {
    if numZeros == 0 && numPoles == 1 then ([1.0], [timeDelay, 1.0])
    else if numZeros == 1 && numPoles == 0 then ([-timeDelay, 1.0], [1.0])
    else if numZeros == 1 && numPoles == 1 then ([-0.5 * timeDelay, 1.0], [0.5 * timeDelay, 1.0])
    else unset
  }

  lemma EvalTwo(a: real, b: real, s: real)
    ensures Eval([b], s) == b && Eval([a, b], s) == a * s + b
  {
    assert [b][..0] == [] && [a, b][..1] == [a] && [a][..0] == [];
    assert Eval([a], s) == Eval([], s) * s + a;
    assert Eval([b], s) == Eval([], s) * s + b;
  }

  /**
   * The approximations agree with the expansion 1 - sT + (sT)^2/2 - ... of the delay at s = 0: up to the first power of
   * s with one coefficient, and up to the second with two. With two, the numerator at s is the denominator at -s, so
   * that on the imaginary axis both have the same modulus.
   */
  lemma PadeMatchesDelay(timeDelay: real, numZeros: nat, numPoles: nat, unset: (Vec, Vec), s: real, z: real)
    requires 1 <= numZeros + numPoles && numZeros <= 1 && numPoles <= 1 && z == timeDelay * s
    ensures var (num, den) := PadeApproximation(timeDelay, numZeros, numPoles, unset);
            && |num| == numZeros + 1 && |den| == numPoles + 1
            && (numZeros + numPoles == 1 ==>
                  Eval(num, s) - Eval(den, s) * (1.0 - z) == (if numPoles == 1 then z * z else 0.0))
            && (numZeros + numPoles == 2 ==>
                  && Eval(num, s) - Eval(den, s) * (1.0 - z + z * z / 2.0) == -z * z * z / 4.0
                  && Eval(num, s) == Eval(den, -s))
  {
    var h := 0.5 * timeDelay;
    EvalTwo(timeDelay, 1.0, s);
    EvalTwo(-timeDelay, 1.0, s);
    EvalTwo(-h, 1.0, s);
    EvalTwo(h, 1.0, s);
    EvalTwo(h, 1.0, -s);
    assert h * s == z / 2.0 && h * -s == -z / 2.0 && -h * s == -z / 2.0;
    if numZeros == 0 {
      assert (z + 1.0) * (1.0 - z) == 1.0 - z * z;
    } else if numPoles == 1 {
      var w := z * z;
      assert (z / 2.0 + 1.0) * (1.0 - z + w / 2.0) == (1.0 - z + w / 2.0) + (z / 2.0 - w / 2.0 + z * w / 4.0);
    }
  }

  /** Numerator and denominator after the delay is multiplied in. */
  function Absorbed(num: Vec, den: Vec, timeDelay: real, pade: (Vec, Vec)): Result<(Vec, Vec)> {
    if timeDelay > DELAY_TOL then
      match (MultiplyPolynomials(num, pade.0), MultiplyPolynomials(den, pade.1))
      case (Ok(n), Ok(d)) => Ok((n, d))
      case _ => Err("index out of range")
    else Ok((num, den))
  }

  /** Numerator and denominator the state-space model is made for, whether or not the delay was absorbed before. */
  function Prepared(num: Vec, den: Vec, timeDelay: real, delayAbsorbed: bool): Result<(Vec, Vec)> {
    if delayAbsorbed then Ok((num, den))
        else Absorbed(num, den, timeDelay, PadeApproximation(timeDelay, 1, 1, ([], [])))
  }

  ghost predicate IsSquareRoot(sqrt: real -> real) {
    forall x: real | x > 0.0 :: sqrt(x) > 0.0 && sqrt(x) * sqrt(x) == x
  }

  /** The scaling of the coordinates is finite and invertible. */
  predicate Balanceable(d: Vec) {
    forall i | 2 <= i < |d| :: d[i] > 0.0
  }

  /** The coefficients divided by the leading one. */
  function Monic(d: Vec): (r: Vec)
    ensures |r| == |d|
  {
    if d == [] || d[0] == 0.0 then d else Scale(1.0 / d[0], d)
  }

  /** Diagonal of the scaling: 1, then the roots of the coefficients d[2..]. */
  function BalancingDiagonal(sqrt: real -> real, d: Vec): (t: Vec)
    requires d != []
    ensures |t| == |d| - 1
  {
    seq(|d| - 1, i requires 0 <= i < |d| - 1 => if i == 0 then 1.0 else sqrt(d[i+1]))
  }

  /**
   * There and back between the first state and any other the couplings have the same magnitude: along the first row the
   * negative roots of the coefficients, down the subdiagonal factors whose products are these roots.
   */
  predicate BalancedForm(a: Mat, d: Vec) {
    && a.cols == |a.rows| == |d| - 1
    && forall i, j | 0 <= i < a.cols && 0 <= j < a.cols :: BalancedEntry(a, d, i, j)
  }

  predicate BalancedEntry(a: Mat, d: Vec, i: nat, j: nat)
    requires a.cols == |a.rows| == |d| - 1 && i < a.cols && j < a.cols
  {
    var r := a.rows;
    if i == 0 && j == 0 then r[0][0] == -d[1]
    else if i == 0 then r[0][j] < 0.0 && r[0][j] * r[0][j] == d[j+1]
    else if i != j + 1 then r[i][j] == 0.0
    else if i == 1 then r[1][0] == -r[0][1]
    else r[0][j] * r[i][j] == r[0][i]
  }

  lemma Divided(ti: real, tj: real, rj: real, b: real)
    requires tj > 0.0 && rj == 1.0 / tj && b == (ti * 1.0) * rj
    ensures -tj * b == -ti
  {
    assert tj * rj == 1.0;
    assert tj * (ti * rj) == ti * (tj * rj);
  }

  lemma FirstRowEntry(c: real, tj: real, rj: real, b: real)
    requires tj > 0.0 && rj == 1.0 / tj && tj * tj == c && b == (1.0 * -c) * rj
    ensures b == -tj && b * b == c
  {
    assert tj * rj == 1.0;
    assert (-c) * rj == -((tj * rj) * tj);
  }

  lemma CanonicalEntries(d: Vec, i: nat, j: nat)
    requires d != [] && i < |d| - 1 && j < |d| - 1
    ensures CanonicalA(d).rows[i][j] == if i == 0 then -d[j+1] else if i == j + 1 then 1.0 else 0.0
  {
    assert CanonicalA(d).rows[i] == if i == 0 then Scale(-1.0, d[1..]) else Unit(|d| - 1, i - 1);
  }

  lemma ZeroEntry(ti: real, rj: real)
    ensures (ti * 0.0) * rj == 0.0
  {
  }

  function BalancedA(t: Vec, d: Vec): Mat
    requires |t| == |d| - 1 && forall i | 0 <= i < |t| :: t[i] != 0.0
  {
    Mul(Mul(Diagonal(t), CanonicalA(d)), Diagonal(Reciprocals(t)))
  }

  lemma BalancedFirstRow(sqrt: real -> real, d: Vec, t: Vec, j: nat)
    requires |d| >= 2 && IsSquareRoot(sqrt) && Balanceable(d) && t == BalancingDiagonal(sqrt, d) && j < |t|
    requires forall i | 0 <= i < |t| :: t[i] != 0.0
    ensures t[j] > 0.0 && (j == 0 ==> t[0] == 1.0)
    ensures var b := BalancedA(t, d).rows[0][j]; if j == 0 then b == -d[1] else b == -t[j] && b * b == d[j+1]
  {
    hide Diagonal, Mul, IsSquareRoot, CanonicalA;
    var r := Reciprocals(t);
    DiagonalEntries(t, CanonicalA(d), r, 0, j);
    CanonicalEntries(d, 0, j);
    if j > 0 {
      RootOf(sqrt, d[j+1]);
      FirstRowEntry(d[j+1], t[j], r[j], BalancedA(t, d).rows[0][j]);
    }
  }

  /** The entries of the balanced matrix. */
  lemma BalancingBalances(sqrt: real -> real, d: Vec, t: Vec)
    requires |d| >= 2 && IsSquareRoot(sqrt) && Balanceable(d) && t == BalancingDiagonal(sqrt, d)
    requires forall i | 0 <= i < |t| :: t[i] != 0.0
    ensures BalancedForm(BalancedA(t, d), d)
  {
    hide BalancedA, IsSquareRoot, CanonicalA, BalancingDiagonal;
    var r, b := Reciprocals(t), BalancedA(t, d);
    assert b.cols == |b.rows| == |d| - 1 by { BalancedShape(t, d); }
    forall i, j | 0 <= i < b.cols && 0 <= j < b.cols
      ensures BalancedEntry(b, d, i, j)
    {
      BalancedFirstRow(sqrt, d, t, i);
      BalancedFirstRow(sqrt, d, t, j);
      BalancedOtherRow(t, d, i, j);
      if i == j + 1 {
        Divided(t[i], t[j], r[j], b.rows[i][j]);
      }
    }
  }

  lemma BalancedShape(t: Vec, d: Vec)
    requires d != [] && |t| == |d| - 1 && forall i | 0 <= i < |t| :: t[i] != 0.0
    ensures BalancedA(t, d).cols == |BalancedA(t, d).rows| == |d| - 1
  {
  }

  lemma BalancedOtherRow(t: Vec, d: Vec, i: nat, j: nat)
    requires d != [] && |t| == |d| - 1 && (forall i | 0 <= i < |t| :: t[i] != 0.0) && i < |t| && j < |t|
    ensures BalancedA(t, d).cols == |BalancedA(t, d).rows| == |d| - 1
    ensures i > 0 ==> var b := BalancedA(t, d).rows[i][j];
                      if i == j + 1 then b == (t[i] * 1.0) * Reciprocals(t)[j] else b == 0.0
  {
    hide Diagonal, Mul, CanonicalA, Reciprocals;
    DiagonalEntries(t, CanonicalA(d), Reciprocals(t), i, j);
    CanonicalEntries(d, i, j);
    ZeroEntry(t[i], Reciprocals(t)[j]);
  }

  lemma RootOf(sqrt: real -> real, x: real)
    requires IsSquareRoot(sqrt) && x > 0.0
    ensures sqrt(x) > 0.0 && sqrt(x) * sqrt(x) == x
  {
  }

  class TransferFunctionBase {
    var numCoefficients: Vec
    var denCoefficients: Vec
    var timeDelay: real
    var delayAbsorbed: bool
    var balance: bool

    constructor (numCoefficients: Vec, denCoefficients: Vec, timeDelay: real, balance: bool)
      ensures this.numCoefficients == numCoefficients && this.denCoefficients == denCoefficients
      ensures this.timeDelay == timeDelay && this.balance == balance && !delayAbsorbed
    {
      this.numCoefficients, this.denCoefficients := numCoefficients, denCoefficients;
      this.timeDelay, this.balance, this.delayAbsorbed := timeDelay, balance, false;
    }

    method AbsorbDelay(numZeros: nat, numPoles: nat, unset: (Vec, Vec)) returns (r: Result<()>)
      modifies this`numCoefficients, this`denCoefficients, this`delayAbsorbed
      ensures var pade := PadeApproximation(timeDelay, numZeros, numPoles, unset);
              match Absorbed(old(numCoefficients), old(denCoefficients), timeDelay, pade)
              case Ok(p) => r.Ok? && delayAbsorbed && numCoefficients == p.0 && denCoefficients == p.1
              case Err(_) => r.Err?
    {
      if timeDelay > DELAY_TOL {
        var pade := PadeApproximation(timeDelay, numZeros, numPoles, unset);
        var num := MultiplyPolynomialsLoop(numCoefficients, pade.0);
        if num.Err? { return Err(num.message); }
        numCoefficients := num.value;
        var den := MultiplyPolynomialsLoop(denCoefficients, pade.1);
        if den.Err? { return Err(den.message); }
        denCoefficients := den.value;
      }
      delayAbsorbed := true;
      r := Ok(());
    }

    method Normalize()
      requires denCoefficients != [] && denCoefficients[0] != 0.0
      modifies this`numCoefficients, this`denCoefficients
      ensures denCoefficients == Monic(old(denCoefficients)) && denCoefficients[0] == 1.0
      ensures old(denCoefficients) == Scale(old(denCoefficients[0]), denCoefficients)
      ensures old(numCoefficients) == Scale(old(denCoefficients[0]), numCoefficients)
    {
      var scaling := denCoefficients[0];
      DivideThrough(numCoefficients, scaling);
      DivideThrough(denCoefficients, scaling);
      numCoefficients := Scale(1.0 / scaling, numCoefficients);
      denCoefficients := Scale(1.0 / scaling, denCoefficients);
    }

    /** A model that realises numerator over denominator, after the delay is absorbed. */
    method GetStateSpace(sqrt: real -> real) returns (r: Result<StateSpace>)
      requires denCoefficients != [] && denCoefficients[0] != 0.0 && IsSquareRoot(sqrt)
      modifies this`numCoefficients, this`denCoefficients, this`delayAbsorbed
      ensures var p := Prepared(old(numCoefficients), old(denCoefficients), timeDelay, old(delayAbsorbed));
              && (r.Err? <==> |old(numCoefficients)| > |old(denCoefficients)| || p.Err?
                              || (balance && !Balanceable(Monic(p.value.1))))
              && (r.Ok? ==>
                    && delayAbsorbed && denCoefficients != [] && denCoefficients[0] == 1.0
                    && |r.value.B| == |p.value.1| - 1 == |denCoefficients| - 1
                    && Realises(r.value, p.value.0, p.value.1)
                    && Realises(r.value, numCoefficients, denCoefficients)
                    && CompanionOrBalanced(r.value, denCoefficients, balance))
    {
      if |numCoefficients| > |denCoefficients| {
        return Err("Transfer function must be proper to convert to a state space model");
      }
      ghost var p := Prepared(numCoefficients, denCoefficients, timeDelay, delayAbsorbed);
      PreparedIsProper(numCoefficients, denCoefficients, timeDelay, delayAbsorbed);
      if !delayAbsorbed {
        var absorbed := AbsorbDelay(1, 1, ([], []));
        if absorbed.Err? { return Err(absorbed.message); }
      }
      assert p == Ok((numCoefficients, denCoefficients));
      ghost var leading := denCoefficients[0];
      Normalize();

      r := Realisation(numCoefficients, denCoefficients, balance, sqrt);
      if r.Ok? {
        CommonFactor(r.value, numCoefficients, denCoefficients, leading);
      }
    }
  }

  /** Without balancing the system matrix is the companion matrix of the denominator. */
  predicate CompanionOrBalanced(m: StateSpace, d: Vec, balance: bool) {
    |d| >= 2 ==> if balance then BalancedForm(m.A, d) else m.A == CanonicalA(d)
  }

  /** The model of a proper transfer function with leading denominator coefficient one. */
  method Realisation(num: Vec, den: Vec, balance: bool, sqrt: real -> real) returns (r: Result<StateSpace>)
    requires |num| <= |den| && den != [] && den[0] == 1.0 && IsSquareRoot(sqrt)
    ensures r.Err? <==> balance && !Balanceable(den)
    ensures r.Ok? ==> Realises(r.value, num, den) && |r.value.B| == |den| - 1
    ensures r.Ok? ==> CompanionOrBalanced(r.value, den, balance)
  {
    hide Realises, Inverses, IsSquareRoot, BalancedForm, CanonicalA;
    var numStates := |den| - 1;
    var numExtended := Zeros(|den| - |num|) + num;
    var feedthrough := numExtended[0];
    CanonicalMeans(num, den, numExtended, feedthrough);
    numExtended := Sub(numExtended, Scale(feedthrough, den));
    var m := Canonical(numExtended, den, feedthrough);
    if numStates > 0 && balance {
      if !Balanceable(den) {
        return Err("coefficients without a positive square root");
      }
      var t := BalancingDiagonal(sqrt, den);
      BalancingNonzero(sqrt, den);
      DiagonalInverses(t);
      TransformedRealises(m, Diagonal(t), Diagonal(Reciprocals(t)), num, den);
      m := Transformed(m, Diagonal(t), Diagonal(Reciprocals(t)));
      BalancingBalances(sqrt, den, t);
    }
    r := Ok(m);
  }

  lemma BalancingNonzero(sqrt: real -> real, den: Vec)
    requires den != [] && IsSquareRoot(sqrt) && Balanceable(den)
    ensures var t := BalancingDiagonal(sqrt, den); forall i | 0 <= i < |t| :: t[i] != 0.0
  {
    var t := BalancingDiagonal(sqrt, den);
    forall i | 0 <= i < |t|
      ensures t[i] != 0.0
    {
      if i > 0 {
        assert den[i+1] > 0.0;
      }
    }
  }

  lemma DivideThrough(c: Vec, scaling: real)
    requires scaling != 0.0
    ensures c == Scale(scaling, Scale(1.0 / scaling, c))
  {
    var r := Scale(scaling, Scale(1.0 / scaling, c));
    forall i | 0 <= i < |c|
      ensures r[i] == c[i]
    {
      Cancels(scaling, 1.0 / scaling, c[i]);
    }
  }

  lemma NonzeroProduct(a: real, b: real)
    requires a != 0.0 && b != 0.0
    ensures a * b != 0.0
  {
    if a * b == 0.0 {
      ZeroProduct(a, b);
    }
  }

  /** Absorbing the delay keeps the transfer function proper and its leading coefficient nonzero. */
  lemma PreparedIsProper(num: Vec, den: Vec, timeDelay: real, delayAbsorbed: bool)
    requires |num| <= |den| && den != [] && den[0] != 0.0
    ensures var p := Prepared(num, den, timeDelay, delayAbsorbed);
            p.Ok? ==> |p.value.0| <= |p.value.1| && p.value.1 != [] && p.value.1[0] != 0.0
  {
    var p := Prepared(num, den, timeDelay, delayAbsorbed);
    if p.Ok? && !delayAbsorbed && timeDelay > DELAY_TOL {
      var pade := [0.5 * timeDelay, 1.0];
      ProductHead(den, Truncated(pade, |den|));
      NonzeroProduct(den[0], 0.5 * timeDelay);
    }
  }

  lemma CanonicalMeans(num: Vec, d: Vec, extended: Vec, feedthrough: real)
    requires |num| <= |d| && |d| >= 1 && d[0] == 1.0
    requires extended == Zeros(|d| - |num|) + num && feedthrough == extended[0]
    ensures Realises(Canonical(Sub(extended, Scale(feedthrough, d)), d, feedthrough), num, d)
  {
    hide Canonical, Eval, Realises;
    var c := Sub(extended, Scale(feedthrough, d));
    assert extended == Add(c, Scale(feedthrough, d));
    assert c[0] == extended[0] - feedthrough * 1.0;
    CanonicalRealises(c, d, feedthrough, extended);
    SameNumerator(Canonical(c, d, feedthrough), extended, num, d);
  }

  lemma SameNumerator(m: StateSpace, extended: Vec, num: Vec, den: Vec)
    requires Realises(m, extended, den) && |num| <= |extended| && extended == Zeros(|extended| - |num|) + num
    ensures Realises(m, num, den)
  {
    hide Eval, StateSpace.Output, StateSpace.Solves;
    forall s: real
      ensures Eval(num, s) == Eval(extended, s)
    {
      EvalPrepend(|extended| - |num|, num, s);
    }
    forall s: real
      ensures Attains(m, num, den, s)
    {
      assert Attains(m, extended, den, s);
    }
  }

  /**
   * Absorbing a delay multiplies by its Pade approximation exactly for a denominator of degree one over a numerator
   * of degree one, or one that is zero.
   */
  lemma DelayIsAbsorbedIff(num: Vec, den: Vec, timeDelay: real)
    requires timeDelay > DELAY_TOL && den != [] && den[0] != 0.0
    ensures var pade := PadeApproximation(timeDelay, 1, 1, ([], []));
            Absorbed(num, den, timeDelay, pade) == Ok((Product(num, pade.0), Product(den, pade.1)))
            <==> |den| == 2 && (|num| == 2 || (|num| < 2 && IsZero(num)))
  {
    var pade := PadeApproximation(timeDelay, 1, 1, ([], []));
    if |num| <= 2 {
      MultiplyIsProductIff(num, pade.0);
      if |num| < 2 {
        LastNonzero(pade.0, |num|);
      }
    }
    if |den| <= 2 {
      MultiplyIsProductIff(den, pade.1);
      if |den| < 2 {
        LastNonzero(pade.1, |den|);
      }
    }
  }

  lemma LastNonzero(b: Vec, m: nat)
    requires m < |b| && b[|b|-1] != 0.0
    ensures !IsZero(b[m..])
  {
    assert b[m..][|b|-1-m] == b[|b|-1];
  }
}
