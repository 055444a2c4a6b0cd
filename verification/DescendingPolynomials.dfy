/**
 * Polynomials as the transfer functions store them: highest power first. The product recurs on the last coefficient of
 * the left factor, has the value of the product at every point, and is zero only when a factor is, which is what the
 * exact conditions for the program's multiplication rest on.
 */
module DescendingPolynomials {
  import opened Vectors

  /** a[0] s^n + a[1] s^(n-1) + ... + a[n]. */
  function Eval(a: Vec, s: real): real {
    if a == [] then 0.0 else Eval(a[..|a|-1], s) * s + a[|a|-1]
  }

  predicate IsZero(a: Vec) {
    forall i | 0 <= i < |a| :: a[i] == 0.0
  }

  /** The product, one coefficient of the left factor at a time. */
  function Product(a: Vec, b: Vec): (r: Vec)
    requires b != []
    ensures |r| == |a| + |b| - 1
  {
    if a == [] then Zeros(|b| - 1)
    else Add(Product(a[..|a|-1], b) + [0.0], Zeros(|a| - 1) + Scale(a[|a|-1], b))
  }

  lemma {:induction false} EvalAdd(a: Vec, b: Vec, s: real)
    requires |a| == |b|
    ensures Eval(Add(a, b), s) == Eval(a, s) + Eval(b, s)
  {
    hide Eval;
    if a == [] {
      EvalZeros(0, s);
      assert Add(a, b) == a == b == Zeros(0);
    } else {
      var p, q, c, d := a[..|a|-1], b[..|b|-1], a[|a|-1], b[|b|-1];
      assert a == p + [c] && b == q + [d] && Add(a, b) == Add(p, q) + [c + d];
      EvalAdd(p, q, s);
      EvalAppend(p, c, s);
      EvalAppend(q, d, s);
      EvalAppend(Add(p, q), c + d, s);
      AddFactors(Eval(p, s), Eval(q, s), s, Eval(Add(p, q), s));
    }
  }

  lemma AddFactors(p: real, q: real, s: real, sum: real)
    requires sum == p + q
    ensures sum * s == p * s + q * s
  {
  }

  lemma {:induction false} EvalScale(c: real, a: Vec, s: real)
    ensures Eval(Scale(c, a), s) == c * Eval(a, s)
  {
    hide Eval;
    if a == [] {
      EvalZeros(0, s);
      assert Scale(c, a) == a == Zeros(0);
    } else {
      var m, last := a[..|a|-1], a[|a|-1];
      assert a == m + [last];
      ScaleAppend(c, m, last);
      EvalScale(c, m, s);
      EvalAppend(m, last, s);
      EvalAppend(Scale(c, m), c * last, s);
      FactorOut(c, Eval(m, s), s, last);
    }
  }

  lemma ScaleAppend(c: real, m: Vec, last: real)
    ensures Scale(c, m + [last]) == Scale(c, m) + [c * last]
  {
    var l, r := Scale(c, m + [last]), Scale(c, m) + [c * last];
    forall i | 0 <= i < |l|
      ensures l[i] == r[i]
    {
    }
  }

  lemma FactorOut(c: real, e: real, s: real, a: real)
    ensures (c * e) * s + c * a == c * (e * s + a)
  {
  }

  lemma EvalAppend(a: Vec, c: real, s: real)
    ensures Eval(a + [c], s) == Eval(a, s) * s + c
  {
    assert (a + [c])[..|a|] == a;
  }

  lemma {:induction false} EvalZeros(n: nat, s: real)
    ensures Eval(Zeros(n), s) == 0.0
  {
    if n > 0 {
      assert Zeros(n)[..n-1] == Zeros(n - 1);
      EvalZeros(n - 1, s);
    }
  }

  /** Leading zeros do not change the value. */
  lemma {:induction false} EvalPrepend(n: nat, a: Vec, s: real)
    ensures Eval(Zeros(n) + a, s) == Eval(a, s)
  {
    if a == [] {
      assert Zeros(n) + a == Zeros(n);
      EvalZeros(n, s);
    } else {
      assert (Zeros(n) + a)[..n+|a|-1] == Zeros(n) + a[..|a|-1];
      EvalPrepend(n, a[..|a|-1], s);
    }
  }

  lemma {:induction false} EvalProduct(a: Vec, b: Vec, s: real)
    requires b != []
    ensures Eval(Product(a, b), s) == Eval(a, s) * Eval(b, s)
  {
    hide Product, Eval;
    if a == [] {
      ProductNone(b);
      EvalZeros(|b| - 1, s);
      EvalZeros(0, s);
      assert a == Zeros(0);
    } else {
      EvalProduct(a[..|a|-1], b, s);
      EvalProductStep(a, b, s, a[..|a|-1], a[|a|-1]);
    }
  }

  lemma EvalProductStep(a: Vec, b: Vec, s: real, m: Vec, c: real)
    requires b != [] && a != [] && m == a[..|a|-1] && c == a[|a|-1]
    requires Eval(Product(m, b), s) == Eval(m, s) * Eval(b, s)
    ensures Eval(Product(a, b), s) == Eval(a, s) * Eval(b, s)
  {
    hide Product, Eval;
    assert a == m + [c];
    ProductLast(a, b);
    EvalAdd(Product(m, b) + [0.0], Zeros(|a| - 1) + Scale(c, b), s);
    EvalAppend(Product(m, b), 0.0, s);
    EvalAppend(m, c, s);
    EvalPrepend(|a| - 1, Scale(c, b), s);
    EvalScale(c, b, s);
    MergeFactors(Eval(m, s), Eval(b, s), s, c, Eval(Product(m, b), s), Eval(a, s));
  }

  lemma ProductLast(a: Vec, b: Vec)
    requires a != [] && b != []
    ensures Product(a, b) == Add(Product(a[..|a|-1], b) + [0.0], Zeros(|a| - 1) + Scale(a[|a|-1], b))
  {
  }

  lemma ProductNone(b: Vec)
    requires b != []
    ensures Product([], b) == Zeros(|b| - 1)
  {
  }

  lemma MergeFactors(m: real, b: real, s: real, c: real, mb: real, a: real)
    requires mb == m * b && a == m * s + c
    ensures mb * s + c * b == a * b
  {
    assert (m * b) * s == (m * s) * b;
  }

  // ----- when a product vanishes

  lemma {:induction false} ProductHead(a: Vec, b: Vec)
    requires a != [] && b != []
    ensures Product(a, b)[0] == a[0] * b[0]
  {
    hide Product;
    ProductLast(a, b);
    ProductNone(b);
    if |a| > 1 {
      ProductHead(a[..|a|-1], b);
    } else {
      assert a[..0] == [];
    }
  }

  lemma {:induction false} PrependLeft(a: Vec, b: Vec)
    requires b != []
    ensures Product([0.0] + a, b) == [0.0] + Product(a, b)
  {
    hide Product;
    var l := [0.0] + a;
    ProductNone(b);
    ProductLast(l, b);
    if a == [] {
      assert l[..0] == [];
      assert Scale(0.0, b) == Zeros(|b|);
    } else {
      var m, c := a[..|a|-1], a[|a|-1];
      ProductLast(a, b);
      assert l[..|l|-1] == [0.0] + m;
      PrependLeft(m, b);
      PrependSum(Product(m, b) + [0.0], Zeros(|a| - 1) + Scale(c, b));
      assert [0.0] + (Product(m, b) + [0.0]) == [0.0] + Product(m, b) + [0.0];
      assert [0.0] + (Zeros(|a| - 1) + Scale(c, b)) == Zeros(|a|) + Scale(c, b);
    }
  }

  lemma PrependSum(p: Vec, q: Vec)
    requires |p| == |q|
    ensures [0.0] + Add(p, q) == Add([0.0] + p, [0.0] + q)
  {
  }

  lemma {:induction false} PrependRight(a: Vec, b: Vec)
    requires b != []
    ensures Product(a, [0.0] + b) == [0.0] + Product(a, b)
  {
    hide Product;
    if a == [] {
      ProductNone(b);
      ProductNone([0.0] + b);
      assert Zeros(|b|) == [0.0] + Zeros(|b| - 1);
    } else {
      var m, c := a[..|a|-1], a[|a|-1];
      ProductLast(a, b);
      ProductLast(a, [0.0] + b);
      PrependRight(m, b);
      ScalePrepended(c, b, |a| - 1);
      PrependSum(Product(m, b) + [0.0], Zeros(|a| - 1) + Scale(c, b));
      assert [0.0] + (Product(m, b) + [0.0]) == [0.0] + Product(m, b) + [0.0];
    }
  }

  lemma ScalePrepended(c: real, b: Vec, n: nat)
    ensures Zeros(n) + Scale(c, [0.0] + b) == [0.0] + (Zeros(n) + Scale(c, b))
  {
    var l, r := Zeros(n) + Scale(c, [0.0] + b), [0.0] + (Zeros(n) + Scale(c, b));
    forall i | 0 <= i < |l|
      ensures l[i] == r[i]
    {
      if i == n {
        assert c * 0.0 == 0.0;
      }
    }
  }

  lemma {:induction false} ZeroFactor(a: Vec, b: Vec)
    requires b != [] && (IsZero(a) || IsZero(b))
    ensures IsZero(Product(a, b))
  {
    hide Product;
    if a == [] {
      ProductNone(b);
    } else {
      ZeroFactor(a[..|a|-1], b);
      ProductLast(a, b);
      ZeroScaled(a[|a|-1], b);
    }
  }

  lemma ZeroScaled(c: real, b: Vec)
    requires c == 0.0 || IsZero(b)
    ensures IsZero(Scale(c, b))
  {
    forall i | 0 <= i < |b|
      ensures c * b[i] == 0.0
    {
    }
  }

  /** A product of polynomials vanishes only if one of them does. */
  lemma {:induction false} NoZeroDivisors(a: Vec, b: Vec)
    requires b != [] && IsZero(Product(a, b))
    ensures IsZero(a) || IsZero(b)
    decreases |a| + |b|
  {
    if a != [] {
      ProductHead(a, b);
      ZeroProduct(a[0], b[0]);
      if a[0] == 0.0 {
        assert a == [0.0] + a[1..];
        PrependLeft(a[1..], b);
        ZeroTail(Product(a[1..], b));
        NoZeroDivisors(a[1..], b);
      } else if |b| > 1 {
        assert b == [0.0] + b[1..];
        PrependRight(a, b[1..]);
        ZeroTail(Product(a, b[1..]));
        NoZeroDivisors(a, b[1..]);
      }
    }
  }

  lemma ZeroTail(a: Vec)
    requires IsZero([0.0] + a)
    ensures IsZero(a)
  {
    forall i | 0 <= i < |a|
      ensures a[i] == 0.0
    {
      assert ([0.0] + a)[i+1] == 0.0;
    }
  }

  lemma {:induction false} ProductSub(a: Vec, b: Vec, c: Vec)
    requires b != [] && |b| == |c|
    ensures Product(a, Sub(b, c)) == Sub(Product(a, b), Product(a, c))
  {
    if a == [] {
      assert Sub(Zeros(|b| - 1), Zeros(|b| - 1)) == Zeros(|b| - 1);
    } else {
      ProductSub(a[..|a|-1], b, c);
      ProductLast(a, b);
      ProductLast(a, c);
      ProductLast(a, Sub(b, c));
      SubRows(Product(a[..|a|-1], b), Product(a[..|a|-1], c), a[|a|-1], b, c, |a| - 1);
    }
  }

  lemma SubRows(p: Vec, q: Vec, k: real, b: Vec, c: Vec, n: nat)
    requires |b| == |c| > 0 && |p| == |q| == n + |b| - 1
    ensures Add(Sub(p, q) + [0.0], Zeros(n) + Scale(k, Sub(b, c)))
            == Sub(Add(p + [0.0], Zeros(n) + Scale(k, b)), Add(q + [0.0], Zeros(n) + Scale(k, c)))
  {
    var l := Add(Sub(p, q) + [0.0], Zeros(n) + Scale(k, Sub(b, c)));
    var r := Sub(Add(p + [0.0], Zeros(n) + Scale(k, b)), Add(q + [0.0], Zeros(n) + Scale(k, c)));
    forall i | 0 <= i < |l|
      ensures l[i] == r[i]
    {
      if n <= i {
        assert k * (b[i-n] - c[i-n]) == k * b[i-n] - k * c[i-n];
      }
    }
  }
}
