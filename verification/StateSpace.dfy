/** State-space models of transfer functions. */
module StateSpaces {
  import opened Vectors
  import opened DescendingPolynomials

  /** x' = A x + B u, y = C x + D u, with one input and one output. */
  datatype StateSpace = StateSpace(A: Mat, B: Vec, C: Vec, D: real) {
    ghost predicate Shaped() {
      A.cols == |A.rows| == |B| == |C|
    }

    /** In the Laplace domain: s x = A x + B u. */
    ghost predicate Solves(s: real, x: Vec, u: real): (r: bool)
      requires Shaped()
      ensures r ==> |x| == |B|
    {
      |x| == |B| && Scale(s, x) == Add(MulV(A, x), Scale(u, B))
    }

    function Output(x: Vec, u: real): real
      requires |x| == |C|
    {
      Dot(C, x) + D * u
    }
  }

  /** Every solution has y = num(s)/den(s) u, and at every s there is one with u = den(s) and y = num(s). */
  ghost predicate Realises(m: StateSpace, num: Vec, den: Vec) {
    && m.Shaped()
    && (forall s: real, x: Vec, u: real | m.Solves(s, x, u) :: Eval(den, s) * m.Output(x, u) == Eval(num, s) * u)
    && (forall s: real :: Attains(m, num, den, s))
  }

  ghost predicate Attains(m: StateSpace, num: Vec, den: Vec, s: real)
    requires m.Shaped()
  {
    exists x: Vec :: m.Solves(s, x, Eval(den, s)) && m.Output(x, Eval(den, s)) == Eval(num, s)
  }

  // ----- the controllable canonical form

  /** First row -d[1..], below it the first n - 1 rows of the identity. */
  function CanonicalA(d: Vec): (a: Mat)
    requires d != []
    ensures a.cols == |a.rows| == |d| - 1
  {
    Mat(|d| - 1, seq(|d| - 1, i requires 0 <= i < |d| - 1 => if i == 0 then Scale(-1.0, d[1..])
                     else Unit(|d| - 1, i - 1)))
  }

  function Canonical(c: Vec, d: Vec, feedthrough: real): (m: StateSpace)
    requires d != [] && |c| == |d|
    ensures m.Shaped() && |m.B| == |d| - 1
  {
    StateSpace(CanonicalA(d), Unit(|d| - 1, 0), c[1..], feedthrough)
  }

  /** Consecutive entries are s apart, as powers of s in descending order are. */
  ghost predicate Descends(x: Vec, s: real) {
    forall i | 0 < i < |x| :: StepsDown(x, s, i)
  }

  ghost predicate StepsDown(x: Vec, s: real, i: nat)
    requires 0 < i < |x|
  {
    s * x[i] == x[i-1]
  }

  /** (s^(n-1), ..., s, 1). */
  function Powers(n: nat, s: real): (r: Vec)
    ensures |r| == n
  {
    if n == 0 then [] else Scale(s, Powers(n - 1, s)) + [1.0]
  }

  lemma {:induction false} PowersDescend(n: nat, s: real)
    ensures Descends(Powers(n, s), s) && (n > 0 ==> Powers(n, s)[n-1] == 1.0)
  {
    if n > 0 {
      PowersDescend(n - 1, s);
      DescendsFurther(Powers(n - 1, s), s);
    }
  }

  lemma DescendsFurther(p: Vec, s: real)
    requires Descends(p, s) && (p == [] || p[|p|-1] == 1.0)
    ensures Descends(Scale(s, p) + [1.0], s)
  {
    var q := Scale(s, p);
    var r := q + [1.0];
    forall i | 0 < i < |r|
      ensures StepsDown(r, s, i)
    {
      assert r[i-1] == q[i-1] == s * p[i-1];
      if i < |p| {
        assert StepsDown(p, s, i);
        assert r[i] == q[i] == s * p[i] == p[i-1];
      }
    }
  }

  lemma CollectStep(e: real, s: real, c: real, x: real, x': real, dot: real, dot': real)
    requires dot == e * x' && s * x == x' && dot' == dot + c * x
    ensures dot' == (e * s + c) * x
  {
    assert e * (s * x) == (e * s) * x;
  }

  lemma {:induction false} DotToIsEval(c: Vec, x: Vec, s: real, k: nat)
    requires |c| == |x| && 0 < k <= |c| && Descends(x, s)
    ensures DotTo(c, x, k) == Eval(c[..k], s) * x[k-1]
  {
    assert c[..k][..k-1] == c[..k-1];
    if k == 1 {
      assert Eval(c[..1], s) == Eval(c[..0], s) * s + c[0];
      assert DotTo(c, x, 1) == DotTo(c, x, 0) + c[0] * x[0];
    } else {
      DotToIsEval(c, x, s, k - 1);
      assert StepsDown(x, s, k - 1);
      CollectStep(Eval(c[..k-1], s), s, c[k-1], x[k-1], x[k-2], DotTo(c, x, k - 1), DotTo(c, x, k));
    }
  }

  /** Weighted by coefficients, descending entries add up to the value of the polynomial. */
  lemma DotIsEval(c: Vec, x: Vec, s: real)
    requires |c| == |x| > 0 && Descends(x, s)
    ensures Dot(c, x) == Eval(c, s) * x[|x|-1]
  {
    DotToIsEval(c, x, s, |c|);
    assert c[..|c|] == c;
  }

  lemma CanonicalRows(d: Vec, x: Vec)
    requires |d| >= 2 && |x| == |d| - 1
    ensures MulV(CanonicalA(d), x)[0] == -Dot(d[1..], x)
    ensures forall i | 0 < i < |x| :: MulV(CanonicalA(d), x)[i] == x[i-1]
  {
    ScaleDot(-1.0, d[1..], x);
    forall i | 0 < i < |x|
      ensures MulV(CanonicalA(d), x)[i] == x[i-1]
    {
      DotUnit(i - 1, x);
    }
  }

  lemma CanonicalRightSide(d: Vec, x: Vec, u: real, r: Vec)
    requires |d| >= 2 && |x| == |d| - 1 && r == Add(MulV(CanonicalA(d), x), Scale(u, Unit(|d| - 1, 0)))
    ensures r[0] == -Dot(d[1..], x) + u
    ensures forall i | 0 < i < |x| :: r[i] == x[i-1]
  {
    hide MulV, CanonicalA;
    CanonicalRows(d, x);
    var b := Unit(|d| - 1, 0);
    assert Scale(u, b)[0] == u * 1.0;
    forall i | 0 < i < |x|
      ensures r[i] == x[i-1]
    {
      assert Scale(u, b)[i] == u * 0.0;
    }
  }

  /** The solutions are the multiples of the powers of s, and the input is den(s) times the multiple. */
  lemma CanonicalSolves(c: Vec, d: Vec, feedthrough: real, s: real, x: Vec, u: real)
    requires |d| == |c| >= 2 && |x| == |d| - 1 && d[0] == 1.0
    ensures Canonical(c, d, feedthrough).Solves(s, x, u) <==> Descends(x, s) && u == Eval(d, s) * x[|x|-1]
  {
    hide Eval, DotTo, Add, MulV, CanonicalA;
    var l, r := Scale(s, x), Add(MulV(CanonicalA(d), x), Scale(u, Unit(|d| - 1, 0)));
    CanonicalRightSide(d, x, u, r);
    if l == r {
      forall i | 0 < i < |x|
        ensures StepsDown(x, s, i)
      {
        assert l[i] == r[i];
      }
      assert l[0] == r[0];
    }
    if Descends(x, s) {
      LeadingRow(d, x, s);
      if u == Eval(d, s) * x[|x|-1] {
        forall i | 0 <= i < |x|
          ensures l[i] == r[i]
        {
          assert i > 0 ==> StepsDown(x, s, i);
        }
      }
    }
  }

  lemma LeadingRow(d: Vec, x: Vec, s: real)
    requires |d| >= 2 && |x| == |d| - 1 && d[0] == 1.0 && Descends(x, s)
    ensures s * x[0] + Dot(d[1..], x) == Eval(d, s) * x[|x|-1]
  {
    hide Eval;
    var e := [s * x[0]] + x;
    forall i | 0 < i < |e|
      ensures StepsDown(e, s, i)
    {
      assert e[i] == x[i-1];
      assert i > 1 ==> StepsDown(x, s, i - 1);
    }
    DotIsEval(d, e, s);
    DotConcat([1.0], d[1..], [s * x[0]], x);
    assert d == [1.0] + d[1..];
    assert Dot([1.0], [s * x[0]]) == DotTo([1.0], [s * x[0]], 0) + 1.0 * (s * x[0]);
  }

  lemma SumOfParts(c: Vec, d: Vec, feedthrough: real, s: real, num: Vec)
    requires |c| == |d| && num == Add(c, Scale(feedthrough, d))
    ensures Eval(num, s) == Eval(c, s) + feedthrough * Eval(d, s)
  {
    EvalAdd(c, Scale(feedthrough, d), s);
    EvalScale(feedthrough, d, s);
  }

  lemma OutputOfSolution(ec: real, ed: real, z: real, feedthrough: real, u: real, dot: real, en: real, y: real)
    requires dot == ec * z && u == ed * z && en == ec + feedthrough * ed && y == dot + feedthrough * u
    ensures y == en * z && ed * y == en * u
  {
    assert feedthrough * (ed * z) == (feedthrough * ed) * z;
    assert ed * (en * z) == en * (ed * z);
  }

  lemma SkipLeadingZero(c: Vec, s: real)
    requires c != [] && c[0] == 0.0
    ensures Eval(c, s) == Eval(c[1..], s)
  {
    assert c == Zeros(1) + c[1..];
    EvalPrepend(1, c[1..], s);
  }

  lemma CanonicalOutput(c: Vec, d: Vec, feedthrough: real, num: Vec, s: real, x: Vec, u: real)
    requires |d| == |c| >= 2 && |x| == |d| - 1 && d[0] == 1.0 && c[0] == 0.0 && num == Add(c, Scale(feedthrough, d))
    requires Descends(x, s) && u == Eval(d, s) * x[|x|-1]
    ensures Canonical(c, d, feedthrough).Output(x, u) == Eval(num, s) * x[|x|-1]
    ensures Eval(d, s) * Canonical(c, d, feedthrough).Output(x, u) == Eval(num, s) * u
  {
    hide Eval, DotTo;
    DotIsEval(c[1..], x, s);
    SkipLeadingZero(c, s);
    SumOfParts(c, d, feedthrough, s, num);
    OutputOfSolution(Eval(c, s), Eval(d, s), x[|x|-1], feedthrough, u, Dot(c[1..], x), Eval(num, s),
                     Canonical(c, d, feedthrough).Output(x, u));
  }

  lemma CanonicalRealises(c: Vec, d: Vec, feedthrough: real, num: Vec)
    requires |d| == |c| >= 1 && d[0] == 1.0 && c[0] == 0.0 && num == Add(c, Scale(feedthrough, d))
    ensures Realises(Canonical(c, d, feedthrough), num, d)
  {
    hide Eval, DotTo, StateSpace.Solves, StateSpace.Output, Descends, CanonicalA;
    var m := Canonical(c, d, feedthrough);
    forall s: real, x: Vec, u: real | m.Solves(s, x, u)
      ensures Eval(d, s) * m.Output(x, u) == Eval(num, s) * u
    {
      if |d| == 1 {
        StaticGain(c, d, feedthrough, num, s, x, u);
      } else {
        CanonicalSolves(c, d, feedthrough, s, x, u);
        CanonicalOutput(c, d, feedthrough, num, s, x, u);
      }
    }
    forall s: real
      ensures Attains(m, num, d, s)
    {
      var x, u := Powers(|d| - 1, s), Eval(d, s);
      if |d| == 1 {
        StaticGain(c, d, feedthrough, num, s, x, u);
      } else {
        PowersDescend(|d| - 1, s);
        CanonicalSolves(c, d, feedthrough, s, x, u);
        CanonicalOutput(c, d, feedthrough, num, s, x, u);
      }
      assert m.Solves(s, x, Eval(d, s)) && m.Output(x, Eval(d, s)) == Eval(num, s);
    }
  }

  lemma StaticGain(c: Vec, d: Vec, feedthrough: real, num: Vec, s: real, x: Vec, u: real)
    requires |d| == |c| == 1 && d[0] == 1.0 && c[0] == 0.0 && num == Add(c, Scale(feedthrough, d)) && x == []
    ensures Eval(d, s) == 1.0 && Eval(num, s) == feedthrough
    ensures Canonical(c, d, feedthrough).Output(x, u) == feedthrough * u && Canonical(c, d, feedthrough).Solves(s, x, u)
  {
    assert d[..0] == [] && num[..0] == [];
    assert Eval(d, s) == 0.0 * s + d[0];
    assert num[0] == feedthrough;
    assert Eval(num, s) == 0.0 * s + num[0];
  }

  // ----- a common factor of numerator and denominator

  lemma ScaledSolution(m: StateSpace, s: real, x: Vec, u: real, a: real, au: real)
    requires m.Shaped() && m.Solves(s, x, u) && au == a * u
    ensures m.Solves(s, Scale(a, x), au)
    ensures m.Output(Scale(a, x), au) == a * m.Output(x, u)
  {
    hide MulV, DotTo;
    MulVScale(a, m.A, x);
    DotScale(a, m.C, x);
    Distributes(a, Dot(m.C, x), m.D, u, au);
    var ax := MulV(m.A, x);
    var l, r := Scale(s, Scale(a, x)), Add(Scale(a, ax), Scale(au, m.B));
    forall i | 0 <= i < |x|
      ensures l[i] == r[i]
    {
      assert Scale(s, x)[i] == Add(ax, Scale(u, m.B))[i];
      ScaledRow(s, x[i], a, ax[i], u, m.B[i], au);
    }
    assert l == r;
  }

  lemma Distributes(a: real, p: real, d: real, u: real, au: real)
    requires au == a * u
    ensures a * p + d * au == a * (p + d * u)
  {
    assert d * (a * u) == a * (d * u);
  }

  lemma ScaledRow(s: real, x: real, a: real, p: real, u: real, b: real, au: real)
    requires s * x == p + u * b && au == a * u
    ensures s * (a * x) == a * p + au * b
  {
    assert s * (a * x) == a * (s * x);
    assert a * (p + u * b) == a * p + (a * u) * b;
  }

  lemma CommonFactor(m: StateSpace, num: Vec, den: Vec, a: real)
    requires Realises(m, num, den)
    ensures Realises(m, Scale(a, num), Scale(a, den))
  {
    hide Eval, DotTo, StateSpace.Solves, StateSpace.Output;
    forall s: real, x: Vec, u: real | m.Solves(s, x, u)
      ensures Eval(Scale(a, den), s) * m.Output(x, u) == Eval(Scale(a, num), s) * u
    {
      EvalScale(a, den, s);
      EvalScale(a, num, s);
      ScaleBoth(a, Eval(den, s), m.Output(x, u), Eval(num, s), u);
    }
    forall s: real
      ensures Attains(m, Scale(a, num), Scale(a, den), s)
    {
      EvalScale(a, den, s);
      EvalScale(a, num, s);
      assert Attains(m, num, den, s);
      var x :| m.Solves(s, x, Eval(den, s)) && m.Output(x, Eval(den, s)) == Eval(num, s);
      ScaledSolution(m, s, x, Eval(den, s), a, Eval(Scale(a, den), s));
      assert m.Solves(s, Scale(a, x), Eval(Scale(a, den), s));
    }
  }

  lemma ScaleBoth(a: real, p: real, y: real, q: real, u: real)
    requires p * y == q * u
    ensures (a * p) * y == (a * q) * u
  {
    assert (a * p) * y == a * (p * y);
    assert (a * q) * u == a * (q * u);
  }

  // ----- a change of coordinates

  function Transformed(m: StateSpace, t: Mat, tInv: Mat): (r: StateSpace)
    requires m.Shaped() && t.cols == |t.rows| == tInv.cols == |tInv.rows| == |m.B|
    ensures r.Shaped() && |r.B| == |m.B|
  {
    StateSpace(Mul(Mul(t, m.A), tInv), MulV(t, m.B), VMul(m.C, tInv), m.D)
  }

  ghost predicate InvertsAt(t: Mat, tInv: Mat, x: Vec)
    requires t.cols == |t.rows| == tInv.cols == |tInv.rows| == |x|
  {
    MulV(t, MulV(tInv, x)) == x && MulV(tInv, MulV(t, x)) == x
  }

  ghost predicate Inverses(t: Mat, tInv: Mat, n: nat): (r: bool)
    ensures r ==> t.cols == |t.rows| == tInv.cols == |tInv.rows| == n
  {
    && t.cols == |t.rows| == tInv.cols == |tInv.rows| == n
    && forall x: Vec | |x| == n :: InvertsAt(t, tInv, x)
  }

  lemma Injective(t: Mat, tInv: Mat, p: Vec, q: Vec)
    requires Inverses(t, tInv, |p|) && |q| == |p|
    ensures MulV(t, p) == MulV(t, q) <==> p == q
  {
    hide MulV;
    assert InvertsAt(t, tInv, p) && InvertsAt(t, tInv, q);
  }

  lemma TransformedSolves(m: StateSpace, t: Mat, tInv: Mat, s: real, x: Vec, y: Vec, u: real)
    requires m.Shaped() && Inverses(t, tInv, |m.B|) && |x| == |m.B| && y == MulV(tInv, x)
    ensures Transformed(m, t, tInv).Solves(s, x, u) <==> m.Solves(s, y, u)
    ensures Transformed(m, t, tInv).Output(x, u) == m.Output(y, u)
  {
    hide MulV, VMul, Mul, Dot, Add, Scale, Inverses;
    TransformedOutput(m, t, tInv, x, y, u);
    InverseAt(t, tInv, |m.B|, x);
    MulMulV(Mul(t, m.A), tInv, x);
    MulMulV(t, m.A, y);
    MulVScale(s, t, y);
    MulVScale(u, t, m.B);
    MulVAdd(t, MulV(m.A, y), Scale(u, m.B));
    Injective(t, tInv, Scale(s, y), Add(MulV(m.A, y), Scale(u, m.B)));
  }

  lemma InverseAt(t: Mat, tInv: Mat, n: nat, x: Vec)
    requires Inverses(t, tInv, n) && |x| == n
    ensures MulV(t, MulV(tInv, x)) == x
  {
    assert InvertsAt(t, tInv, x);
  }

  lemma TransformedOutput(m: StateSpace, t: Mat, tInv: Mat, x: Vec, y: Vec, u: real)
    requires m.Shaped() && Inverses(t, tInv, |m.B|) && |x| == |m.B| && y == MulV(tInv, x)
    ensures Transformed(m, t, tInv).Output(x, u) == m.Output(y, u)
  {
    hide MulV, VMul, Mul, DotTo;
    VMulDot(m.C, tInv, x);
  }

  lemma TransformedRatio(m: StateSpace, t: Mat, tInv: Mat, num: Vec, den: Vec, s: real, x: Vec, u: real)
    requires Realises(m, num, den) && Inverses(t, tInv, |m.B|) && Transformed(m, t, tInv).Solves(s, x, u)
    ensures Eval(den, s) * Transformed(m, t, tInv).Output(x, u) == Eval(num, s) * u
  {
    hide Eval, StateSpace.Output, StateSpace.Solves, MulV, Transformed, Inverses, Attains;
    TransformedSolves(m, t, tInv, s, x, MulV(tInv, x), u);
    assert m.Solves(s, MulV(tInv, x), u);
  }

  lemma TransformedAttains(m: StateSpace, t: Mat, tInv: Mat, num: Vec, den: Vec, s: real)
    requires m.Shaped() && Attains(m, num, den, s) && Inverses(t, tInv, |m.B|)
    ensures Attains(Transformed(m, t, tInv), num, den, s)
  {
    hide Eval, StateSpace.Output, StateSpace.Solves, MulV, Transformed;
    var y :| m.Solves(s, y, Eval(den, s)) && m.Output(y, Eval(den, s)) == Eval(num, s);
    assert InvertsAt(t, tInv, y);
    TransformedSolves(m, t, tInv, s, MulV(t, y), y, Eval(den, s));
    assert Transformed(m, t, tInv).Solves(s, MulV(t, y), Eval(den, s));
  }

  lemma TransformedRealises(m: StateSpace, t: Mat, tInv: Mat, num: Vec, den: Vec)
    requires Realises(m, num, den) && Inverses(t, tInv, |m.B|)
    ensures Realises(Transformed(m, t, tInv), num, den)
  {
    hide Eval, StateSpace.Output, StateSpace.Solves, MulV, Transformed, Attains, Inverses;
    var r := Transformed(m, t, tInv);
    forall s: real, x: Vec, u: real | r.Solves(s, x, u)
      ensures Eval(den, s) * r.Output(x, u) == Eval(num, s) * u
    {
      TransformedRatio(m, t, tInv, num, den, s, x, u);
    }
    forall s: real
      ensures Attains(r, num, den, s)
    {
      assert Attains(m, num, den, s);
      TransformedAttains(m, t, tInv, num, den, s);
    }
  }

  function Diagonal(t: Vec): (r: Mat)
    ensures r.cols == |r.rows| == |t|
  {
    Mat(|t|, seq(|t|, i requires 0 <= i < |t| => Scale(t[i], Unit(|t|, i))))
  }

  function Reciprocals(t: Vec): (r: Vec)
    requires forall i | 0 <= i < |t| :: t[i] != 0.0
    ensures |r| == |t|
  {
    seq(|t|, i requires 0 <= i < |t| => 1.0 / t[i])
  }

  lemma DiagonalMulV(t: Vec, x: Vec)
    requires |t| == |x|
    ensures forall i | 0 <= i < |t| :: MulV(Diagonal(t), x)[i] == t[i] * x[i]
  {
    forall i | 0 <= i < |t|
      ensures MulV(Diagonal(t), x)[i] == t[i] * x[i]
    {
      ScaleDot(t[i], Unit(|t|, i), x);
      DotUnit(i, x);
    }
  }

  lemma DiagonalInverses(t: Vec)
    requires forall i | 0 <= i < |t| :: t[i] != 0.0
    ensures Inverses(Diagonal(t), Diagonal(Reciprocals(t)), |t|)
  {
    hide MulV, Diagonal;
    var r := Reciprocals(t);
    forall x: Vec | |x| == |t|
      ensures InvertsAt(Diagonal(t), Diagonal(r), x)
    {
      var p, q := MulV(Diagonal(r), x), MulV(Diagonal(t), x);
      DiagonalMulV(r, x);
      DiagonalMulV(t, p);
      DiagonalMulV(t, x);
      DiagonalMulV(r, q);
      forall i | 0 <= i < |t|
        ensures MulV(Diagonal(t), p)[i] == x[i] && MulV(Diagonal(r), q)[i] == x[i]
      {
        Cancels(t[i], r[i], x[i]);
      }
    }
  }

  /** Rows are scaled from the left, columns from the right. */
  lemma DiagonalEntries(t: Vec, a: Mat, r: Vec, i: nat, j: nat)
    requires a.cols == |a.rows| == |t| == |r| && i < |t| && j < |t|
    ensures Mul(Mul(Diagonal(t), a), Diagonal(r)).rows[i][j] == (t[i] * a.rows[i][j]) * r[j]
  {
    hide MulV, Diagonal, Mul;
    var ta, e := Mul(Diagonal(t), a), Unit(|t|, j);
    var re := MulV(Diagonal(r), e);
    DiagonalMulV(r, e);
    assert re == Scale(r[j], e);
    MulMulV(ta, Diagonal(r), e);
    MulVScale(r[j], ta, e);
    MulMulV(Diagonal(t), a, e);
    DiagonalMulV(t, MulV(a, e));
    MulVUnit(Mul(ta, Diagonal(r)), j);
    MulVUnit(a, j);
    assert MulV(Mul(ta, Diagonal(r)), e)[i] == r[j] * MulV(ta, e)[i];
  }

  lemma Cancels(t: real, r: real, x: real)
    requires t != 0.0 && r == 1.0 / t
    ensures t * (r * x) == x && r * (t * x) == x
  {
    assert t * r == 1.0;
    assert t * (r * x) == (t * r) * x;
  }
}
