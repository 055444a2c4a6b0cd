/**
 * Polynomials given by their coefficients, lowest degree first: value, derivative, expansion about another point and
 * change of scale. The expansion is computed by Horner's scheme on polynomials, so that its value follows by induction
 * on the coefficients, and it commutes with the derivative.
 */
module Polynomials {
  import opened Vectors

  function Poly(c: Vec, t: real): real {
    if c == [] then 0.0 else c[0] + t * Poly(c[1..], t)
  }

  function Derivative(c: Vec): (r: Vec)
    requires c != []
    ensures |r| == |c| - 1
  {
    seq(|c| - 1, j requires 0 <= j < |c| - 1 => ((j + 1) as real) * c[j+1])
  }

  /** (t + z) times a polynomial in z. */
  function TimesSum(c: Vec, t: real): (r: Vec)
    ensures |r| == |c| + 1
  {
    Add(Scale(t, c) + [0.0], [0.0] + c)
  }

  /** Coefficients in z of the polynomial at t + z. */
  function Taylor(c: Vec, t: real): (r: Vec)
    ensures |r| == |c|
  {
    if c == [] then [] else
      var r := TimesSum(Taylor(c[1..], t), t);
      r[0 := r[0] + c[0]]
  }

  /** Coefficients in a of the polynomial at a d. */
  function Rescale(c: Vec, d: real): (r: Vec)
    ensures |r| == |c|
  {
    if c == [] then [] else [c[0]] + Scale(d, Rescale(c[1..], d))
  }

  function Power(r: real, n: nat): real {
    if n == 0 then 1.0 else Power(r, n - 1) * r
  }

  // ----- evaluation

  lemma {:induction false} PolyAdd(a: Vec, b: Vec, t: real)
    requires |a| == |b|
    ensures Poly(Add(a, b), t) == Poly(a, t) + Poly(b, t)
  {
    if a != [] {
      assert Add(a, b)[1..] == Add(a[1..], b[1..]);
      PolyAdd(a[1..], b[1..], t);
    }
  }

  lemma {:induction false} PolyScale(s: real, a: Vec, t: real)
    ensures Poly(Scale(s, a), t) == s * Poly(a, t)
  {
    if a != [] {
      var l, r := Scale(s, a)[1..], Scale(s, a[1..]);
      forall j | 0 <= j < |l|
        ensures l[j] == r[j]
      {
      }
      assert l == r;
      PolyScale(s, a[1..], t);
      Distributes(s, a[0], t, Poly(a[1..], t));
    }
  }

  lemma Distributes(s: real, a: real, t: real, p: real)
    ensures s * a + t * (s * p) == s * (a + t * p)
  {
  }

  lemma {:induction false} PolyPad(a: Vec, t: real)
    ensures Poly(a + [0.0], t) == Poly(a, t)
  {
    if a != [] {
      assert (a + [0.0])[1..] == a[1..] + [0.0];
      PolyPad(a[1..], t);
    }
  }

  lemma PolyUp(a: Vec, t: real)
    ensures Poly([0.0] + a, t) == t * Poly(a, t)
  {
    assert ([0.0] + a)[1..] == a;
  }

  lemma PolyBump(a: Vec, c: real, t: real)
    requires a != []
    ensures Poly(a[0 := a[0] + c], t) == Poly(a, t) + c
  {
    assert a[0 := a[0] + c][1..] == a[1..];
  }

  lemma TimesSumMeans(a: Vec, t: real, z: real)
    ensures Poly(TimesSum(a, t), z) == (t + z) * Poly(a, z)
  {
    PolyAdd(Scale(t, a) + [0.0], [0.0] + a, z);
    PolyPad(Scale(t, a), z);
    PolyScale(t, a, z);
    PolyUp(a, z);
  }

  lemma {:induction false} TaylorExpands(c: Vec, t: real, z: real)
    ensures Poly(c, t + z) == Poly(Taylor(c, t), z)
  {
    hide TimesSum;
    if c != [] {
      TaylorExpands(c[1..], t, z);
      TimesSumMeans(Taylor(c[1..], t), t, z);
      PolyBump(TimesSum(Taylor(c[1..], t), t), c[0], z);
    }
  }

  lemma {:induction false} RescaleMeans(c: Vec, d: real, a: real, s: real)
    requires s == d * a
    ensures Poly(c, s) == Poly(Rescale(c, d), a)
  {
    if c != [] {
      var r := Rescale(c[1..], d);
      RescaleMeans(c[1..], d, a, s);
      assert Rescale(c, d)[1..] == Scale(d, r);
      PolyScale(d, r, a);
      SwapFactors(d, a, Poly(r, a), s);
    }
  }

  lemma SwapFactors(d: real, a: real, p: real, s: real)
    requires s == d * a
    ensures s * p == a * (d * p)
  {
  }

  lemma {:induction false} RescaleEntry(c: Vec, d: real, j: nat)
    requires j < |c|
    ensures Rescale(c, d)[j] == c[j] * Power(d, j)
  {
    if j > 0 {
      RescaleEntry(c[1..], d, j - 1);
      assert c[1..][j-1] == c[j];
      OneMoreFactor(d, c[j], Power(d, j - 1), Rescale(c[1..], d)[j-1], Power(d, j));
    }
  }

  lemma OneMoreFactor(d: real, c: real, p: real, x: real, p': real)
    requires x == c * p && p' == p * d
    ensures d * x == c * p'
  {
    assert d * (c * p) == c * (p * d);
  }

  // ----- derivatives

  /** The derivative of c0 + x c' is c' + x times the derivative of c'. */
  lemma DerivativeStep(c: Vec)
    requires |c| >= 2
    ensures Derivative(c) == Add(c[1..], [0.0] + Derivative(c[1..]))
  {
    var l, r := Derivative(c), Add(c[1..], [0.0] + Derivative(c[1..]));
    forall j | 0 <= j < |l|
      ensures l[j] == r[j]
    {
      if j > 0 {
        assert Derivative(c[1..])[j-1] == (j as real) * c[j+1];
        assert ((j + 1) as real) * c[j+1] == c[j+1] + (j as real) * c[j+1];
      }
    }
  }

  lemma {:induction false} TaylorAdd(a: Vec, b: Vec, t: real)
    requires |a| == |b|
    ensures Taylor(Add(a, b), t) == Add(Taylor(a, t), Taylor(b, t))
  {
    hide TimesSum;
    if a != [] {
      assert Add(a, b)[1..] == Add(a[1..], b[1..]);
      TaylorAdd(a[1..], b[1..], t);
      TimesSumAdd(Taylor(a[1..], t), Taylor(b[1..], t), t);
    }
  }

  lemma TimesSumAdd(a: Vec, b: Vec, t: real)
    requires |a| == |b|
    ensures TimesSum(Add(a, b), t) == Add(TimesSum(a, t), TimesSum(b, t))
  {
    ScaleSum(t, a, b);
    var p, q := Scale(t, a), Scale(t, b);
    assert Add(p, q) + [0.0] == Add(p + [0.0], q + [0.0]);
    assert [0.0] + Add(a, b) == Add([0.0] + a, [0.0] + b);
    Exchange(p + [0.0], [0.0] + a, q + [0.0], [0.0] + b);
  }

  lemma ScaleSum(t: real, a: Vec, b: Vec)
    requires |a| == |b|
    ensures Scale(t, Add(a, b)) == Add(Scale(t, a), Scale(t, b))
  {
    var l, r := Scale(t, Add(a, b)), Add(Scale(t, a), Scale(t, b));
    forall j | 0 <= j < |a|
      ensures l[j] == r[j]
    {
      assert t * (a[j] + b[j]) == t * a[j] + t * b[j];
    }
  }

  lemma Exchange(p: Vec, a: Vec, q: Vec, b: Vec)
    requires |p| == |a| == |q| == |b|
    ensures Add(Add(p, q), Add(a, b)) == Add(Add(p, a), Add(q, b))
  {
  }

  lemma TaylorUp(a: Vec, t: real)
    ensures Taylor([0.0] + a, t) == TimesSum(Taylor(a, t), t)
  {
    assert ([0.0] + a)[1..] == a;
  }

  lemma DerivativeTimesSum(a: Vec, t: real)
    requires a != []
    ensures Derivative(TimesSum(a, t)) == Add(a, TimesSum(Derivative(a), t))
  {
    var l, r := Derivative(TimesSum(a, t)), Add(a, TimesSum(Derivative(a), t));
    forall j | 0 <= j < |l|
      ensures l[j] == r[j]
    {
      var n := (j + 1) as real;
      assert l[j] == n * TimesSum(a, t)[j+1];
      assert n * a[j] == a[j] + (j as real) * a[j];
      if j + 1 < |a| {
        assert n * (t * a[j+1] + a[j]) == t * (n * a[j+1]) + n * a[j];
      }
    }
  }

  /** Expanding about t commutes with differentiation. */
  lemma {:induction false} DerivativeTaylor(c: Vec, t: real)
    requires c != []
    ensures Derivative(Taylor(c, t)) == Taylor(Derivative(c), t)
  {
    hide Derivative, TimesSum;
    var e := Taylor(c[1..], t);
    var s := TimesSum(e, t);
    if |c| == 1 {
      assert Derivative(Taylor(c, t)) == [] == Taylor(Derivative(c), t);
    } else {
      DerivativeTaylor(c[1..], t);
      DerivativeStep(c);
      TaylorAdd(c[1..], [0.0] + Derivative(c[1..]), t);
      TaylorUp(Derivative(c[1..]), t);
      DerivativeTimesSum(e, t);
      DerivativeBump(s, c[0]);
    }
  }

  lemma DerivativeBump(s: Vec, c: real)
    requires s != []
    ensures Derivative(s[0 := s[0] + c]) == Derivative(s)
  {
    var b := s[0 := s[0] + c];
    forall j | 0 <= j < |s| - 1
      ensures Derivative(b)[j] == Derivative(s)[j]
    {
      assert b[j+1] == s[j+1];
    }
  }

  lemma TimesSumPad(a: Vec, t: real)
    ensures TimesSum(a + [0.0], t) == TimesSum(a, t) + [0.0]
  {
    var l, r := TimesSum(a + [0.0], t), TimesSum(a, t) + [0.0];
    forall j | 0 <= j < |l|
      ensures l[j] == r[j]
    {
      if j == |a| {
        assert l[j] == t * 0.0 + (if j == 0 then 0.0 else a[j-1]);
      }
    }
  }

  lemma {:induction false} TaylorPad(c: Vec, t: real)
    ensures Taylor(c + [0.0], t) == Taylor(c, t) + [0.0]
  {
    if c == [] {
      assert Taylor([0.0], t) == [0.0] by {
        assert [0.0][1..] == [];
      }
      assert c + [0.0] == [0.0];
    } else {
      assert (c + [0.0])[1..] == c[1..] + [0.0];
      TaylorPad(c[1..], t);
      TimesSumPad(Taylor(c[1..], t), t);
    }
  }

  lemma {:induction false} TaylorTop(c: Vec, t: real)
    requires c != []
    ensures Taylor(c, t)[|c|-1] == c[|c|-1]
  {
    if |c| >= 2 {
      TaylorTop(c[1..], t);
    }
  }
}
