/**
 * Combinations of y, N y, N^2 y, ...: the slopes of one-step methods on x' = M x + b, with N = dt M and y = M x + b.
 */
module LinearFlows {
  import opened Vectors

  /** Coefficients of the vectors y, N y, ..., N^6 y. */
  datatype Coefs = Coefs(c0: real, c1: real, c2: real, c3: real, c4: real, c5: real, c6: real)

  predicate SevenOf(w: seq<Vec>, n: nat) {
    |w| == 7 && forall k | 0 <= k < 7 :: |w[k]| == n
  }

  /** w is y, N y, ..., N^6 y. */
  ghost predicate IsKrylov(w: seq<Vec>, n: Mat, y: Vec) {
    && SevenOf(w, |y|) && w[0] == y && n.cols == |n.rows| == |y|
    && forall k: nat | k < 6 :: w[k+1] == MulV(n, w[k])
  }

  function Krylov(n: Mat, y: Vec): (w: seq<Vec>)
    requires n.cols == |n.rows| == |y|
    ensures IsKrylov(w, n, y)
  {
    var w1 := MulV(n, y);
    var w2 := MulV(n, w1);
    var w3 := MulV(n, w2);
    var w4 := MulV(n, w3);
    var w5 := MulV(n, w4);
    [y, w1, w2, w3, w4, w5, MulV(n, w5)]
  }

  function Entry(w: seq<Vec>, c: Coefs, i: nat): real
    requires |w| > 0 && SevenOf(w, |w[0]|) && i < |w[0]|
  {
    c.c0 * w[0][i] + c.c1 * w[1][i] + c.c2 * w[2][i] + c.c3 * w[3][i] + c.c4 * w[4][i] + c.c5 * w[5][i]
    + c.c6 * w[6][i]
  }

  ghost predicate IsComb(v: Vec, w: seq<Vec>, c: Coefs) {
    && SevenOf(w, |v|)
    && forall i: nat | i < |v| :: v[i] == Entry(w, c, i)
  }

  /** One more power of N, and y. */
  function After(c: Coefs): Coefs {
    Coefs(1.0, c.c0, c.c1, c.c2, c.c3, c.c4, c.c5)
  }

  lemma TimesComb(n: Mat, v: Vec, w: seq<Vec>, y: Vec, c: Coefs)
    requires IsKrylov(w, n, y) && IsComb(v, w, c) && c.c6 == 0.0 && |v| == |y|
    ensures IsComb(Add(y, MulV(n, v)), w, After(c))
  {
    hide MulV;
    var a1 := Add(Scale(c.c0, w[0]), Scale(c.c1, w[1]));
    var a2 := Add(a1, Scale(c.c2, w[2]));
    var a3 := Add(a2, Scale(c.c3, w[3]));
    var a4 := Add(a3, Scale(c.c4, w[4]));
    var a5 := Add(a4, Scale(c.c5, w[5]));
    forall i: nat | i < |v|
      ensures v[i] == a5[i]
    {
      assert v[i] == Entry(w, c, i);
    }
    assert v == a5;
    MulVAdd(n, a4, Scale(c.c5, w[5]));
    MulVAdd(n, a3, Scale(c.c4, w[4]));
    MulVAdd(n, a2, Scale(c.c3, w[3]));
    MulVAdd(n, a1, Scale(c.c2, w[2]));
    MulVAdd(n, Scale(c.c0, w[0]), Scale(c.c1, w[1]));
    MulVScale(c.c0, n, w[0]);
    MulVScale(c.c1, n, w[1]);
    MulVScale(c.c2, n, w[2]);
    MulVScale(c.c3, n, w[3]);
    MulVScale(c.c4, n, w[4]);
    MulVScale(c.c5, n, w[5]);
    var r := Add(y, MulV(n, v));
    forall i: nat | i < |r|
      ensures r[i] == Entry(w, After(c), i)
    {
    }
  }
}
