/**
 * Sums of magnitudes as norms of vectors and matrices. The norm of a vector is the sum of the magnitudes of its
 * entries, the norm of a matrix the sum over its rows. That is not the smallest norm compatible with the vector norm,
 * but a compatible one: a matrix enlarges no vector by more than this factor. It is what the sensitivities need to
 * bound the error that one stage of an integrator hands to the next.
 */
module Norms {
  import opened Vectors

  function Abs(r: real): real {
    if r < 0.0 then -r else r
  }

  function AbsSumTo(a: Vec, k: nat): real
    requires k <= |a|
  {
    if k == 0 then 0.0 else AbsSumTo(a, k - 1) + Abs(a[k-1])
  }

  function AbsSum(a: Vec): real {
    AbsSumTo(a, |a|)
  }

  /** Sum of the magnitudes of the first k rows. */
  function MatNormTo(a: Mat, k: nat): real
    requires k <= |a.rows|
  {
    if k == 0 then 0.0 else MatNormTo(a, k - 1) + AbsSum(a.rows[k-1])
  }

  function MatNorm(a: Mat): real {
    MatNormTo(a, |a.rows|)
  }

  lemma {:induction false} AbsSumToNonnegative(a: Vec, k: nat)
    requires k <= |a|
    ensures AbsSumTo(a, k) >= 0.0
    ensures forall i | 0 <= i < k :: Abs(a[i]) <= AbsSumTo(a, k)
  {
    if k > 0 {
      AbsSumToNonnegative(a, k - 1);
    }
  }

  lemma NormNonnegative(a: Vec)
    ensures AbsSum(a) >= 0.0
    ensures AbsSum(a) == 0.0 ==> a == Zeros(|a|)
  {
    AbsSumToNonnegative(a, |a|);
  }

  lemma {:induction false} AbsSumToTriangle(a: Vec, b: Vec, k: nat)
    requires |a| == |b| && k <= |a|
    ensures AbsSumTo(Add(a, b), k) <= AbsSumTo(a, k) + AbsSumTo(b, k)
  {
    if k > 0 {
      AbsSumToTriangle(a, b, k - 1);
    }
  }

  lemma Triangle(a: Vec, b: Vec)
    requires |a| == |b|
    ensures AbsSum(Add(a, b)) <= AbsSum(a) + AbsSum(b)
  {
    AbsSumToTriangle(a, b, |a|);
  }

  lemma AbsProduct(a: real, b: real, p: real)
    requires p == a * b
    ensures Abs(p) == Abs(a) * Abs(b)
  {
    if a < 0.0 {
      if b < 0.0 {
        NonnegativeProduct(-a, -b);
      } else {
        NonnegativeProduct(-a, b);
      }
    } else if b < 0.0 {
      NonnegativeProduct(a, -b);
    } else {
      NonnegativeProduct(a, b);
    }
  }

  lemma AbsTriangle(a: real, b: real)
    ensures Abs(a + b) <= Abs(a) + Abs(b)
  {
  }

  lemma Distribute(p: real, q: real, c: real)
    ensures (p + q) * c == p * c + q * c == c * (p + q)
  {
  }

  lemma {:induction false} AbsSumToScale(c: real, a: Vec, k: nat)
    requires k <= |a|
    ensures AbsSumTo(Scale(c, a), k) == Abs(c) * AbsSumTo(a, k)
  {
    hide Abs;
    if k > 0 {
      AbsSumToScale(c, a, k - 1);
      AbsProduct(c, a[k-1], Scale(c, a)[k-1]);
      Distribute(AbsSumTo(a, k - 1), Abs(a[k-1]), Abs(c));
    }
  }

  lemma NormScale(c: real, a: Vec)
    ensures AbsSum(Scale(c, a)) == Abs(c) * AbsSum(a)
  {
    AbsSumToScale(c, a, |a|);
  }

  lemma Monotone(a: real, b: real, c: real)
    requires a <= b && c >= 0.0
    ensures a * c <= b * c
  {
    NonnegativeProduct(b - a, c);
  }

  lemma DotStep(d: real, s: real, a: real, v: real, bound: real, d': real, s': real)
    requires Abs(d) <= s * bound && Abs(v) <= bound
    requires d' == d + a * v && s' == s + Abs(a)
    ensures Abs(d') <= s' * bound
  {
    AbsProduct(a, v, a * v);
    Monotone(Abs(v), bound, Abs(a));
    AbsTriangle(d, a * v);
    Distribute(s, Abs(a), bound);
  }

  lemma EmptyBound(bound: real)
    ensures Abs(0.0) <= 0.0 * bound
  {
  }

  lemma {:induction false} DotBound(a: Vec, v: Vec, bound: real, k: nat)
    requires |a| == |v| && k <= |a|
    requires forall j | 0 <= j < |v| :: Abs(v[j]) <= bound
    ensures Abs(DotTo(a, v, k)) <= AbsSumTo(a, k) * bound
  {
    hide Abs;
    if k == 0 {
      EmptyBound(bound);
    } else {
      DotBound(a, v, bound, k - 1);
      DotStep(DotTo(a, v, k - 1), AbsSumTo(a, k - 1), a[k-1], v[k-1], bound, DotTo(a, v, k), AbsSumTo(a, k));
    }
  }

  lemma {:induction false} MatNormToBound(a: Mat, v: Vec, k: nat)
    requires |v| == a.cols && k <= |a.rows|
    ensures AbsSumTo(MulV(a, v), k) <= MatNormTo(a, k) * AbsSum(v)
    ensures MatNormTo(a, k) >= 0.0
  {
    hide Abs, DotTo;
    if k > 0 {
      MatNormToBound(a, v, k - 1);
      AbsSumToNonnegative(v, |v|);
      AbsSumToNonnegative(a.rows[k-1], a.cols);
      DotBound(a.rows[k-1], v, AbsSum(v), a.cols);
      Distribute(MatNormTo(a, k - 1), AbsSum(a.rows[k-1]), AbsSum(v));
    }
  }

  /** |a v| <= |a| |v|. */
  lemma OperatorBound(a: Mat, v: Vec)
    requires |v| == a.cols
    ensures AbsSum(MulV(a, v)) <= MatNorm(a) * AbsSum(v)
    ensures MatNorm(a) >= 0.0
  {
    MatNormToBound(a, v, |a.rows|);
  }
}
