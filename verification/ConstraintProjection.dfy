/** Projectors for linear constraints C x + D u + e = 0, weighted by the inverse input cost. */
module ConstraintProjection {
  import opened Vectors
  import opened NumericTraits

  // ----- triangular matrices

  ghost predicate UpperTriangular(a: Mat) {
    && |a.rows| == a.cols
    && forall i, j | 0 <= j < i < a.cols :: a.rows[i][j] == 0.0
  }

  ghost predicate NonzeroDiagonal(a: Mat)
    requires |a.rows| == a.cols
  {
    forall i | 0 <= i < a.cols :: a.rows[i][i] != 0.0
  }

  lemma {:induction false} DotOfSingle(a: Vec, b: Vec, i: nat, k: nat)
    requires |a| == |b| && i < |a| && k <= |a|
    requires forall j | 0 <= j < k && j != i :: a[j] == 0.0 || b[j] == 0.0
    ensures DotTo(a, b, k) == if i < k then a[i] * b[i] else 0.0
  {
    if k > 0 {
      DotOfSingle(a, b, i, k - 1);
    }
  }

  /** Back substitution: only the zero vector is mapped to zero. */
  lemma {:induction false} TriangularKernel(r: Mat, v: Vec, i: nat)
    requires UpperTriangular(r) && NonzeroDiagonal(r) && |v| == r.cols && i <= |v|
    requires MulV(r, v) == Zeros(|v|)
    ensures forall j | i <= j < |v| :: v[j] == 0.0
    decreases |v| - i
  {
    if i < |v| {
      TriangularKernel(r, v, i + 1);
      DotOfSingle(r.rows[i], v, i, |v|);
      assert MulV(r, v)[i] == 0.0;
      ZeroProduct(r.rows[i][i], v[i]);
    }
  }

  /** A right inverse of a triangular matrix without zeros on the diagonal is a left inverse. */
  lemma TriangularInverse(r: Mat, x: Mat)
    requires UpperTriangular(r) && NonzeroDiagonal(r)
    requires |x.rows| == x.cols == r.cols && Mul(r, x) == Identity(r.cols)
    ensures Mul(x, r) == Identity(r.cols)
  {
    forall v: Vec | |v| == r.cols
      ensures MulV(Mul(x, r), v) == MulV(Identity(r.cols), v)
    {
      var y := MulV(x, MulV(r, v));
      MulMulV(x, r, v);
      MulMulV(r, x, MulV(r, v));
      IdentityMulV(MulV(r, v));
      IdentityMulV(v);
      SameImage(r, y, v);
    }
    SameAction(Mul(x, r), Identity(r.cols));
  }

  lemma SameImage(r: Mat, y: Vec, v: Vec)
    requires UpperTriangular(r) && NonzeroDiagonal(r) && |y| == |v| == r.cols
    requires MulV(r, y) == MulV(r, v)
    ensures y == v
  {
    var d := Sub(y, v);
    assert Add(v, d) == y;
    MulVAdd(r, v, d);
    forall i | 0 <= i < |v|
      ensures MulV(r, d)[i] == 0.0
    {
      assert Add(MulV(r, v), MulV(r, d))[i] == MulV(r, v)[i];
    }
    TriangularKernel(r, d, 0);
    forall i | 0 <= i < |v|
      ensures y[i] == v[i]
    {
      assert d[i] == 0.0;
    }
  }

  // ----- the clipping of the triangular factor

  /** Keeps the sign and raises the magnitude to at least m. */
  function Clip(r: real, m: real): real {
    if r < 0.0 then (if -m < r then -m else r) else (if r < m then m else r)
  }

  function Magnitude(r: real): real {
    if r < 0.0 then -r else r
  }

  /** Clipping keeps the sign, and goes no further than needed: no value of magnitude m or more is nearer. */
  lemma ClipIsNearest(r: real, m: real, v: real)
    requires m > 0.0
    ensures Magnitude(Clip(r, m)) >= m && (Clip(r, m) < 0.0 <==> r < 0.0)
    ensures Magnitude(v) >= m ==> Magnitude(Clip(r, m) - r) <= Magnitude(v - r)
  {
  }

  function Clipped(a: Mat, m: real): (r: Mat)
    requires |a.rows| <= a.cols
    ensures SameShape(r, a)
  {
    Mat(a.cols, seq(|a.rows|, i requires 0 <= i < |a.rows| => a.rows[i][i := Clip(a.rows[i][i], m)]))
  }

  method SetTriangularMinimumEigenvalues(lr: array2<real>, minEigenvalue: real)
    requires lr.Length0 <= lr.Length1
    modifies lr
    ensures Contents(lr) == Clipped(old(Contents(lr)), minEigenvalue)
  {
    for i := 0 to lr.Length0
      invariant forall k, j | 0 <= k < lr.Length0 && 0 <= j < lr.Length1 ::
                  lr[k, j] == if k == j && k < i then Clip(old(lr[k, j]), minEigenvalue) else old(lr[k, j])
    {
      if lr[i, i] < 0.0 {
        lr[i, i] := if -minEigenvalue < lr[i, i] then -minEigenvalue else lr[i, i];
      } else {
        lr[i, i] := if lr[i, i] < minEigenvalue then minEigenvalue else lr[i, i];
      }
    }
    forall i | 0 <= i < lr.Length0
      ensures Contents(lr).rows[i] == Clipped(old(Contents(lr)), minEigenvalue).rows[i]
    {
    }
    assert Contents(lr).rows == Clipped(old(Contents(lr)), minEigenvalue).rows;
  }

  /** No diagonal entry is smaller in magnitude than m. */
  predicate WellConditioned(a: Mat, m: real)
    requires |a.rows| == a.cols
  {
    forall i | 0 <= i < a.cols :: a.rows[i][i] <= -m || m <= a.rows[i][i]
  }

  lemma ClippedTriangular(r: Mat, m: real)
    requires UpperTriangular(r) && m > 0.0
    ensures UpperTriangular(Clipped(r, m)) && NonzeroDiagonal(Clipped(r, m))
    ensures Clipped(r, m) == r <==> WellConditioned(r, m)
  {
    var c := Clipped(r, m);
    if WellConditioned(r, m) {
      forall i | 0 <= i < r.cols
        ensures c.rows[i] == r.rows[i]
      {
      }
      assert c.rows == r.rows;
    } else {
      var i :| 0 <= i < r.cols && -m < r.rows[i][i] < m;
      assert c.rows[i][i] != r.rows[i][i];
    }
  }

  // ----- contracts of the factorisations

  function LeftCols(q: Mat, k: nat): (r: Mat)
    requires k <= q.cols
  {
    Mat(k, seq(|q.rows|, i requires 0 <= i < |q.rows| => q.rows[i][..k]))
  }

  function RightCols(q: Mat, k: nat): (r: Mat)
    requires k <= q.cols
  {
    Mat(q.cols - k, seq(|q.rows|, i requires 0 <= i < |q.rows| => q.rows[i][k..]))
  }

  ghost predicate Orthogonal(q: Mat) {
    |q.rows| == q.cols && Mul(Transpose(q), q) == Identity(q.cols)
  }

  type QrFactorisation = Mat -> (Mat, Mat)

  /** Householder QR of a matrix with at least as many rows as columns: m = [q's first columns] r. */
  ghost predicate FactorisesTall(qr: QrFactorisation) {
    forall m: Mat | m.cols <= |m.rows| ::
      && Orthogonal(qr(m).0) && qr(m).0.cols == |m.rows|
      && UpperTriangular(qr(m).1) && qr(m).1.cols == m.cols
      && Mul(LeftCols(qr(m).0, m.cols), qr(m).1) == m
  }

  type TriangularSolver = (Mat, Mat) -> Mat

  ghost predicate SolvesTriangular(solve: TriangularSolver) {
    forall r: Mat, b: Mat | UpperTriangular(r) && NonzeroDiagonal(r) && |b.rows| == r.cols ::
      && |solve(r, b).rows| == r.cols && solve(r, b).cols == b.cols
      && Mul(r, solve(r, b)) == b
  }

  lemma Factors(qr: QrFactorisation, m: Mat)
    requires FactorisesTall(qr) && m.cols <= |m.rows|
    ensures Orthogonal(qr(m).0) && qr(m).0.cols == |m.rows|
    ensures UpperTriangular(qr(m).1) && qr(m).1.cols == m.cols
    ensures Mul(LeftCols(qr(m).0, m.cols), qr(m).1) == m
  {
  }

  lemma Solved(solve: TriangularSolver, r: Mat, b: Mat)
    requires SolvesTriangular(solve) && UpperTriangular(r) && NonzeroDiagonal(r) && |b.rows| == r.cols
    ensures |solve(r, b).rows| == r.cols && solve(r, b).cols == b.cols
    ensures Mul(r, solve(r, b)) == b
  {
  }

  type CholeskyFactorisation = Mat -> Mat

  /** LLT of a symmetric matrix with a positive quadratic form: a = l l', with l' triangular. */
  ghost predicate FactorisesDefinite(llt: CholeskyFactorisation) {
    forall a: Mat | Symmetric(a) && Definite(a) ::
      && UpperTriangular(llt(a)) && NonzeroDiagonal(llt(a)) && llt(a).cols == a.cols
      && Mul(Transpose(llt(a)), llt(a)) == a
  }

  ghost predicate Definite(a: Mat)
    requires |a.rows| == a.cols
  {
    forall x: Vec | |x| == a.cols && x != Zeros(|x|) :: Dot(x, MulV(a, x)) > 0.0
  }

  /** u u' = inv(a), from both sides, and u' a u = I. */
  ghost predicate InverseFactor(u: Mat, a: Mat) {
    && |a.rows| == a.cols == |u.rows| == u.cols
    && Mul(Transpose(u), Mul(a, u)) == Identity(a.cols)
    && Mul(a, Mul(u, Transpose(u))) == Identity(a.cols)
    && Mul(Mul(u, Transpose(u)), a) == Identity(a.cols)
  }

  /** The factor that comes out of the two solves below. */
  function InverseUUT(a: Mat, llt: CholeskyFactorisation, solve: TriangularSolver): Mat {
    solve(llt(a), Identity(|a.rows|))
  }

  method ComputeInverseMatrixUUT(a: Mat, llt: CholeskyFactorisation, solve: TriangularSolver) returns (u: Mat)
    requires Symmetric(a) && Definite(a)
    requires FactorisesDefinite(llt) && SolvesTriangular(solve)
    ensures InverseFactor(u, a) && u == InverseUUT(a, llt, solve)
  {
    var upper := llt(a);
    u := solve(upper, Identity(|a.rows|));
    InverseOfFactor(a, upper, u);
  }

  lemma InverseOfFactor(a: Mat, upper: Mat, u: Mat)
    requires UpperTriangular(upper) && NonzeroDiagonal(upper) && |a.rows| == a.cols == upper.cols
    requires Mul(Transpose(upper), upper) == a
    requires |u.rows| == u.cols == upper.cols && Mul(upper, u) == Identity(upper.cols)
    ensures InverseFactor(u, a)
  {
    var n, l, ut := upper.cols, Transpose(upper), Transpose(u);
    TriangularInverse(upper, u);
    TransposeMul(upper, u);
    TransposeMul(u, upper);
    TransposeIdentity(n);
    assert Mul(ut, l) == Identity(n) && Mul(l, ut) == Identity(n);
    // a u = l (upper u) = l
    MulAssociates(l, upper, u);
    MulIdentity(l);
    assert Mul(a, u) == l;
    MulAssociates(a, u, ut);
    // (u u') (l upper) = u (u' l) upper = u upper
    MulAssociates(u, ut, a);
    MulAssociates(ut, l, upper);
    assert Mul(ut, a) == upper by {
      MulIdentity(upper);
    }
  }

  // ----- the projection

  /** A copy of a triangular factor with small diagonal entries pushed away from zero. */
  method ClippedCopy(r: Mat) returns (rc: Mat)
    requires |r.rows| == r.cols
    ensures rc == Clipped(r, WEAK_EPSILON)
  {
    var n := r.cols;
    var buffer := new real[n, n]((i, j) requires 0 <= i < n && 0 <= j < n => r.rows[i][j]);
    assert forall i | 0 <= i < n :: Contents(buffer).rows[i] == r.rows[i];
    assert Contents(buffer).rows == r.rows;
    SetTriangularMinimumEigenvalues(buffer, WEAK_EPSILON);
    rc := Contents(buffer);
  }

  /**
   * The promises about the weighted pseudo inverse, its weight and the null space basis, for a factor r before
   * clipping: the inverse is exact when nothing was clipped, differs from an exact one by the clipping alone, and is
   * orthogonal to the null space in the given weight, so that it is the smallest one in that weight.
   */
  ghost predicate Projects(d: Mat, u: Mat, r: Mat, dDagger: Mat, weightUUT: Mat, uConstrained: Mat) {
    && |d.rows| == r.cols == |r.rows| <= d.cols == u.cols == |u.rows|
    && |weightUUT.rows| == weightUUT.cols == |d.rows|
    && |dDagger.rows| == d.cols && dDagger.cols == |d.rows|
    && |uConstrained.rows| == d.cols && uConstrained.cols == d.cols - |d.rows|
    && Mul(d, uConstrained) == ZeroMat(|d.rows|, d.cols - |d.rows|)
    && (Mul(d, dDagger) == Identity(|d.rows|) <==> WellConditioned(r, WEAK_EPSILON))
    && Mul(Clipped(r, WEAK_EPSILON), weightUUT) == Identity(|d.rows|)
    && Mul(d, dDagger) == Transpose(Mul(weightUUT, r))
    && forall a: Mat | InverseFactor(u, a) ::
         && Mul(Transpose(dDagger), Mul(a, uConstrained)) == ZeroMat(|d.rows|, d.cols - |d.rows|)
         && Mul(Transpose(uConstrained), Mul(a, uConstrained)) == Identity(d.cols - |d.rows|)
         && Mul(Transpose(dDagger), Mul(a, dDagger)) == Mul(weightUUT, Transpose(weightUUT))
  }

  method ComputeConstraintProjection(d: Mat, u: Mat, qr: QrFactorisation, solve: TriangularSolver)
    returns (dDagger: Mat, dDaggerRdDaggerUUT: Mat, uConstrained: Mat)
    requires |d.rows| <= d.cols == u.cols == |u.rows|
    requires FactorisesTall(qr) && SolvesTriangular(solve)
    ensures Projects(d, u, qr(Mul(Transpose(u), Transpose(d))).1, dDagger, dDaggerRdDaggerUUT, uConstrained)
  {
    hide Clipped, Projects, FactorisesTall, SolvesTriangular, Orthogonal, UpperTriangular, NonzeroDiagonal,
        WellConditioned;
    var nc := |d.rows|;
    var m := Mul(Transpose(u), Transpose(d));
    var q, r := qr(m).0, qr(m).1;
    Factors(qr, m);
    var rc := ClippedCopy(r);
    ClippedTriangular(r, WEAK_EPSILON);
    dDaggerRdDaggerUUT := solve(rc, Identity(nc));
    Solved(solve, rc, Identity(nc));
    dDagger := Mul(u, Mul(LeftCols(q, nc), Transpose(dDaggerRdDaggerUUT)));
    uConstrained := Mul(u, RightCols(q, nc));
    BlocksProject(d, u, q, r, rc, dDaggerRdDaggerUUT);
  }

  // ----- constraints with dependent rows

  /** Whatever the weight, a vanishing combination of the rows of d keeps some diagonal entry of the factor at zero. */
  lemma DependentRowsAreClipped(d: Mat, u: Mat, qr: QrFactorisation, y: Vec, m: real)
    requires |d.rows| <= d.cols == u.cols == |u.rows| && FactorisesTall(qr) && m > 0.0
    requires |y| == |d.rows| && y != Zeros(|y|) && MulV(Transpose(d), y) == Zeros(d.cols)
    ensures var r := qr(Mul(Transpose(u), Transpose(d))).1; |r.rows| == r.cols && !WellConditioned(r, m)
  {
    hide FactorisesTall, UpperTriangular, Orthogonal, Dot, MulV, Mul;
    var t := Mul(Transpose(u), Transpose(d));
    Factors(qr, t);
    var q, r := qr(t).0, qr(t).1;
    var qc := LeftCols(q, |y|);
    MulMulV(Transpose(u), Transpose(d), y);
    MulVZeros(Transpose(u));
    MulMulV(qc, r, y);
    OrthogonalBlocks(q, |y|);
    MulMulV(Transpose(qc), qc, MulV(r, y));
    IdentityMulV(MulV(r, y));
    MulVZeros(Transpose(qc));
    if WellConditioned(r, m) {
      TriangularKernel(r, y, 0);
    }
  }

  /** And an offset along that combination can be met by no input at all. */
  lemma DependentRowsCannotBeMet(d: Mat, y: Vec, du: Vec)
    requires |y| == |d.rows| && y != Zeros(|y|) && MulV(Transpose(d), y) == Zeros(d.cols) && |du| == d.cols
    ensures Add(MulV(d, du), y) != Zeros(|y|)
  {
    MoveAcross(y, d, du);
    DotCommutes(Zeros(|du|), du);
    DotZeros(du);
    DotAdd(y, MulV(d, du), y);
    DotZeros(y);
    if Dot(y, y) == 0.0 {
      SquaresVanish(y, |y|);
    }
  }

  lemma BlocksProject(d: Mat, u: Mat, q: Mat, r: Mat, rc: Mat, x: Mat)
    requires |d.rows| <= d.cols == u.cols == |u.rows| == q.cols && Orthogonal(q)
    requires |r.rows| == r.cols == |d.rows| && Mul(LeftCols(q, |d.rows|), r) == Mul(Transpose(u), Transpose(d))
    requires rc == Clipped(r, WEAK_EPSILON)
    requires UpperTriangular(rc) && NonzeroDiagonal(rc) && (rc == r <==> WellConditioned(r, WEAK_EPSILON))
    requires |x.rows| == x.cols == rc.cols == |d.rows| && Mul(rc, x) == Identity(rc.cols)
    ensures Projects(d, u, r, Mul(u, Mul(LeftCols(q, |d.rows|), Transpose(x))), x, Mul(u, RightCols(q, |d.rows|)))
  {
    var qc, qu := LeftCols(q, |d.rows|), RightCols(q, |d.rows|);
    OrthogonalBlocks(q, |d.rows|);
    ConstraintTimesProjectors(d, u, qc, qu, r, rc, x);
    forall a: Mat | InverseFactor(u, a)
      ensures Mul(Transpose(Mul(u, Mul(qc, Transpose(x)))), Mul(a, Mul(u, qu)))
              == ZeroMat(|d.rows|, d.cols - |d.rows|)
      ensures Mul(Transpose(Mul(u, qu)), Mul(a, Mul(u, qu))) == Identity(d.cols - |d.rows|)
      ensures Mul(Transpose(Mul(u, Mul(qc, Transpose(x)))), Mul(a, Mul(u, Mul(qc, Transpose(x)))))
              == Mul(x, Transpose(x))
    {
      Whitened(u, a, qu, qu);
      Whitened(u, a, Mul(qc, Transpose(x)), Mul(qc, Transpose(x)));
      RangeWeight(qc, x);
      Whitened(u, a, Mul(qc, Transpose(x)), qu);
      RangeOrthogonal(qc, x, qu);
    }
  }

  lemma GramEntry(a: Mat, b: Mat, i: nat, j: nat)
    requires |a.rows| == |b.rows| && i < a.cols && j < b.cols
    ensures Mul(Transpose(a), b).rows[i][j] == Dot(Col(a, i), Col(b, j))
  {
    MulEntry(Transpose(a), b, i, j);
  }

  /** Column blocks of an orthogonal matrix are orthonormal and mutually orthogonal. */
  lemma OrthogonalBlocks(q: Mat, k: nat)
    requires Orthogonal(q) && k <= q.cols
    ensures Mul(Transpose(LeftCols(q, k)), LeftCols(q, k)) == Identity(k)
    ensures Mul(Transpose(LeftCols(q, k)), RightCols(q, k)) == ZeroMat(k, q.cols - k)
    ensures Mul(Transpose(RightCols(q, k)), RightCols(q, k)) == Identity(q.cols - k)
  {
    var l, r := LeftCols(q, k), RightCols(q, k);
    forall i, j | 0 <= i < q.cols && 0 <= j < q.cols
      ensures Dot(Col(q, i), Col(q, j)) == if i == j then 1.0 else 0.0
    {
      GramEntry(q, q, i, j);
    }
    assert forall i | 0 <= i < k :: Col(l, i) == Col(q, i);
    assert forall i | 0 <= i < q.cols - k :: Col(r, i) == Col(q, k + i);
    forall i, j | 0 <= i < k && 0 <= j < k
      ensures Mul(Transpose(l), l).rows[i][j] == Identity(k).rows[i][j]
    {
      GramEntry(l, l, i, j);
    }
    MatricesEqual(Mul(Transpose(l), l), Identity(k));
    forall i, j | 0 <= i < k && 0 <= j < q.cols - k
      ensures Mul(Transpose(l), r).rows[i][j] == 0.0
    {
      GramEntry(l, r, i, j);
    }
    MatricesEqual(Mul(Transpose(l), r), ZeroMat(k, q.cols - k));
    forall i, j | 0 <= i < q.cols - k && 0 <= j < q.cols - k
      ensures Mul(Transpose(r), r).rows[i][j] == Identity(q.cols - k).rows[i][j]
    {
      GramEntry(r, r, i, j);
    }
    MatricesEqual(Mul(Transpose(r), r), Identity(q.cols - k));
  }

  lemma MulZeroMat(a: Mat, n: nat)
    ensures Mul(a, ZeroMat(a.cols, n)) == ZeroMat(|a.rows|, n)
  {
    forall i, j | 0 <= i < |a.rows| && 0 <= j < n
      ensures Mul(a, ZeroMat(a.cols, n)).rows[i][j] == 0.0
    {
      MulEntry(a, ZeroMat(a.cols, n), i, j);
      assert Col(ZeroMat(a.cols, n), j) == Zeros(a.cols);
      DotZeros(a.rows[i]);
    }
    MatricesEqual(Mul(a, ZeroMat(a.cols, n)), ZeroMat(|a.rows|, n));
  }

  /** d u = r' qc', so d u w = r' (qc' w) for every w. */
  lemma ConstraintTimes(d: Mat, u: Mat, qc: Mat, r: Mat, w: Mat)
    requires d.cols == |u.rows| == u.cols == |qc.rows| == |w.rows|
    requires qc.cols == |r.rows| == r.cols == |d.rows|
    requires Mul(qc, r) == Mul(Transpose(u), Transpose(d))
    ensures Mul(d, Mul(u, w)) == Mul(Transpose(r), Mul(Transpose(qc), w))
  {
    TransposeMul(Transpose(u), Transpose(d));
    TransposeTwice(u);
    TransposeTwice(d);
    TransposeMul(qc, r);
    assert Mul(d, u) == Mul(Transpose(r), Transpose(qc));
    MulAssociates(d, u, w);
    MulAssociates(Transpose(r), Transpose(qc), w);
  }

  lemma ConstraintTimesProjectors(d: Mat, u: Mat, qc: Mat, qu: Mat, r: Mat, rc: Mat, x: Mat)
    requires d.cols == |u.rows| == u.cols == |qc.rows| == |qu.rows|
    requires qc.cols == |r.rows| == r.cols == |d.rows| == rc.cols == |x.rows| == x.cols
    requires Mul(qc, r) == Mul(Transpose(u), Transpose(d))
    requires Mul(Transpose(qc), qc) == Identity(qc.cols)
    requires Mul(Transpose(qc), qu) == ZeroMat(qc.cols, qu.cols)
    requires UpperTriangular(rc) && NonzeroDiagonal(rc) && Mul(rc, x) == Identity(rc.cols)
    ensures Mul(d, Mul(u, qu)) == ZeroMat(|d.rows|, qu.cols)
    ensures Mul(d, Mul(u, Mul(qc, Transpose(x)))) == Transpose(Mul(x, r))
    ensures Mul(d, Mul(u, Mul(qc, Transpose(x)))) == Identity(|d.rows|) <==> rc == r
  {
    var n, xt := qc.cols, Transpose(x);
    ConstraintTimes(d, u, qc, r, qu);
    MulZeroMat(Transpose(r), qu.cols);
    ConstraintTimes(d, u, qc, r, Mul(qc, xt));
    MulAssociates(Transpose(qc), qc, xt);
    MulIdentity(xt);
    TransposeMul(x, r);
    var p := Mul(d, Mul(u, Mul(qc, xt)));
    assert p == Transpose(Mul(x, r));
    TransposeTwice(Mul(x, r));
    TransposeIdentity(n);
    TriangularInverse(rc, x);
    if p == Identity(n) {
      assert Mul(x, r) == Identity(n);
      MulAssociates(rc, x, r);
      MulIdentity(rc);
      MulIdentity(r);
    }
  }

  /** (u w)' a (u v) == w' v when u' a u == I. */
  lemma Whitened(u: Mat, a: Mat, w: Mat, v: Mat)
    requires InverseFactor(u, a) && |w.rows| == |v.rows| == u.cols
    ensures Mul(Transpose(Mul(u, w)), Mul(a, Mul(u, v))) == Mul(Transpose(w), v)
  {
    var wt, ut := Transpose(w), Transpose(u);
    TransposeMul(u, w);
    MulAssociates(a, u, v);
    MulAssociates(wt, ut, Mul(Mul(a, u), v));
    MulAssociates(ut, Mul(a, u), v);
    MulIdentity(v);
  }

  lemma RangeOrthogonal(qc: Mat, x: Mat, qu: Mat)
    requires |x.rows| == x.cols == qc.cols && |qu.rows| == |qc.rows|
    requires Mul(Transpose(qc), qu) == ZeroMat(qc.cols, qu.cols)
    ensures Mul(Transpose(Mul(qc, Transpose(x))), qu) == ZeroMat(qc.cols, qu.cols)
  {
    var xt := Transpose(x);
    TransposeMul(qc, xt);
    TransposeTwice(x);
    MulAssociates(x, Transpose(qc), qu);
    MulZeroMat(x, qu.cols);
  }

  lemma RangeWeight(qc: Mat, x: Mat)
    requires Mul(Transpose(qc), qc) == Identity(qc.cols) && |x.rows| == x.cols == qc.cols
    ensures Mul(Transpose(Mul(qc, Transpose(x))), Mul(qc, Transpose(x))) == Mul(x, Transpose(x))
  {
    var xt := Transpose(x);
    TransposeMul(qc, xt);
    TransposeTwice(x);
    MulAssociates(x, Transpose(qc), Mul(qc, xt));
    MulAssociates(Transpose(qc), qc, xt);
    MulIdentity(xt);
  }
}
