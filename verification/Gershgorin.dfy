/** Making a matrix positive definite by raising its diagonal to the Gershgorin radius. */
module Gershgorin {
  import opened Vectors
  import opened Norms

  function Max(a: real, b: real): real {
    if a < b then b else a
  }

  /** (A + A') / 2. */
  function Symmetrised(a: Mat): (r: Mat)
    requires |a.rows| == a.cols
    ensures SameShape(r, a)
  {
    MScale(0.5, MAdd(a, Transpose(a)))
  }

  /** Sum of the magnitudes off the diagonal in column i. */
  function Radius(a: Mat, i: nat): real
    requires i < |a.rows| == a.cols
  {
    AbsSum(Col(a, i)) - Abs(a.rows[i][i])
  }

  /** r is a with diagonal entries raised to the radius plus the margin in the first k rows. */
  ghost predicate RaisedUpTo(r: Mat, a: Mat, margin: real, k: nat)
    requires |a.rows| == a.cols && k <= a.cols
  {
    && SameShape(r, a)
    && (forall i, j | 0 <= i < a.cols && 0 <= j < a.cols && (i != j || k <= i) :: r.rows[i][j] == a.rows[i][j])
    && (forall i | 0 <= i < k :: r.rows[i][i] == Max(a.rows[i][i], Radius(a, i) + margin))
  }

  lemma {:induction false} AbsSumToCongruent(a: Vec, b: Vec, i: nat, k: nat)
    requires |a| == |b| && k <= |a| && i < |a|
    requires forall j | 0 <= j < |a| && j != i :: a[j] == b[j]
    ensures AbsSumTo(a, k) - AbsSumTo(b, k) == if i < k then Abs(a[i]) - Abs(b[i]) else 0.0
  {
    if k > 0 {
      AbsSumToCongruent(a, b, i, k - 1);
    }
  }

  method Symmetrise(a: array2<real>)
    requires a.Length0 == a.Length1
    modifies a
    ensures Contents(a) == Symmetrised(old(Contents(a)))
  {
    forall i, j | 0 <= i < a.Length0 && 0 <= j < a.Length1 {
      a[i, j] := 0.5 * (a[i, j] + a[j, i]);
    }
    MatricesEqual(Contents(a), Symmetrised(old(Contents(a))));
  }

  method MakePsdGershgorin(a: array2<real>, minEigenvalue: real)
    requires a.Length0 == a.Length1
    modifies a
    ensures RaisedUpTo(Contents(a), Symmetrised(old(Contents(a))), minEigenvalue, a.Length0)
    ensures Symmetric(Contents(a))
    ensures forall x: Vec | |x| == a.Length0 :: Dot(x, MulV(Contents(a), x)) >= minEigenvalue * Dot(x, x)
  {
    hide Symmetric, MulV, DotTo, Symmetrised;
    ghost var start := Contents(a);
    Symmetrise(a);
    ghost var s := Contents(a);
    for i := 0 to a.Length0
      invariant RaisedUpTo(Contents(a), s, minEigenvalue, i)
    {
      RaiseDiagonal(a, i, minEigenvalue, s);
    }
    RepairedMatrix(Contents(a), start, minEigenvalue);
  }

  method RaiseDiagonal(a: array2<real>, i: nat, minEigenvalue: real, ghost s: Mat)
    requires i < a.Length0 == a.Length1 && SameShape(Contents(a), s)
    requires RaisedUpTo(Contents(a), s, minEigenvalue, i)
    modifies a
    ensures RaisedUpTo(Contents(a), s, minEigenvalue, i + 1)
  {
    var column := Col(Contents(a), i);
    AbsSumToCongruent(column, Col(s, i), i, |column|);
    var radius := AbsSum(column) - Abs(a[i, i]);
    a[i, i] := Max(a[i, i], radius + minEigenvalue);
  }

  // ----- the quadratic form of a diagonally dominant matrix

  function Squares(x: Vec): (r: Vec)
    ensures |r| == |x|
  {
    seq(|x|, i requires 0 <= i < |x| => x[i] * x[i])
  }

  function AbsVec(a: Vec): (r: Vec)
    ensures |r| == |a|
  {
    seq(|a|, i requires 0 <= i < |a| => Abs(a[i]))
  }

  function AbsMat(a: Mat): (r: Mat)
    ensures SameShape(r, a)
  {
    Mat(a.cols, seq(|a.rows|, i requires 0 <= i < |a.rows| => AbsVec(a.rows[i])))
  }

  function Ones(n: nat): (r: Vec)
    ensures |r| == n
  {
    seq(n, _ => 1.0)
  }

  ghost predicate Dominant(a: Mat, margin: real) {
    && Symmetric(a)
    && forall i | 0 <= i < a.cols :: a.rows[i][i] >= Radius(a, i) + margin
  }

  lemma MixedTerm(r: real, x: real, y: real)
    ensures r * x * y >= -0.5 * Abs(r) * (x * x) - 0.5 * Abs(r) * (y * y)
  {
    var p, q := x + y, x - y;
    assert p * p >= 0.0 && q * q >= 0.0;
    assert p * p == x * x + 2.0 * (x * y) + y * y;
    assert q * q == x * x - 2.0 * (x * y) + y * y;
    if r >= 0.0 {
      assert r * (p * p) >= 0.0;
    } else {
      assert (-r) * (q * q) >= 0.0;
    }
  }

  /** x times the row sum d, bounded through the sum s of magnitudes and their sum q weighted by squares. */
  ghost predicate RowBounded(x: real, d: real, s: real, q: real, lead: real) {
    x * d >= lead * (x * x) - 0.5 * s * (x * x) - 0.5 * q
  }

  lemma RowStep(x: real, d: real, s: real, q: real, lead: real, r: real, y: real, d': real, s': real, q': real)
    requires RowBounded(x, d, s, q, lead)
    requires d' == d + r * y && s' == s + Abs(r) && q' == q + Abs(r) * (y * y)
    ensures RowBounded(x, d', s', q', lead)
  {
    MixedTerm(r, x, y);
    var xx, b := x * x, Abs(r);
    assert x * d' == x * d + r * x * y;
    assert s' * xx == s * xx + b * xx;
  }

  lemma DiagonalStep(x: real, d: real, s: real, q: real, r: real, d': real, s': real, q': real)
    requires RowBounded(x, d, s, q, 0.0)
    requires d' == d + r * x && s' == s + Abs(r) && q' == q + Abs(r) * (x * x)
    ensures RowBounded(x, d', s', q', r + Abs(r))
  {
    var xx, b := x * x, Abs(r);
    assert x * d' == x * d + r * xx;
    assert s' * xx == s * xx + b * xx;
    assert (r + b) * xx == r * xx + b * xx;
  }

  lemma MagnitudeTerm(row: Vec, x: Vec, j: nat)
    requires |row| == |x| && j < |x|
    ensures AbsVec(row)[j] * Squares(x)[j] == Abs(row[j]) * (x[j] * x[j])
  {
  }

  lemma {:induction false} RowBound(row: Vec, x: Vec, i: nat, k: nat)
    requires |row| == |x| && i < |x| && k <= |x|
    ensures RowBounded(x[i], DotTo(row, x, k), AbsSumTo(row, k), DotTo(AbsVec(row), Squares(x), k),
                       if i < k then row[i] + Abs(row[i]) else 0.0)
  {
    hide Abs, RowBounded, AbsVec, Squares;
    if k == 0 {
      NothingBounded(x[i]);
    } else {
      RowBound(row, x, i, k - 1);
      var j := k - 1;
      var d, s, q := DotTo(row, x, j), AbsSumTo(row, j), DotTo(AbsVec(row), Squares(x), j);
      var d', s', q' := DotTo(row, x, k), AbsSumTo(row, k), DotTo(AbsVec(row), Squares(x), k);
      MagnitudeTerm(row, x, j);
      if j == i {
        DiagonalStep(x[j], d, s, q, row[j], d', s', q');
      } else {
        RowStep(x[i], d, s, q, if i < j then row[i] + Abs(row[i]) else 0.0, row[j], x[j], d', s', q');
      }
    }
  }

  lemma NothingBounded(x: real)
    ensures RowBounded(x, 0.0, 0.0, 0.0, 0.0)
  {
  }

  /** f, the form so far, against its squares, its row sums weighted by squares, and its columns so weighted. */
  ghost predicate FormBounded(margin: real, f: real, squares: real, rows: real, columns: real) {
    f >= margin * squares + 0.5 * rows - 0.5 * columns
  }

  /** One more row: the diagonal entry is at least its off-diagonal magnitudes plus the margin. */
  lemma FormStep(margin: real, f: real, squares: real, rows: real, columns: real, x: real, d: real, s: real, q: real,
                 diagonal: real, f': real, squares': real, rows': real, columns': real)
    requires FormBounded(margin, f, squares, rows, columns)
    requires RowBounded(x, d, s, q, diagonal) && diagonal >= s + margin
    requires f' == f + x * d && squares' == squares + x * x && rows' == rows + s * (x * x) && columns' == columns + q
    ensures FormBounded(margin, f', squares', rows', columns')
  {
    var xx := x * x;
    assert xx >= 0.0;
    assert (diagonal - s - margin) * xx >= 0.0;
    assert (diagonal - s - margin) * xx == diagonal * xx - s * xx - margin * xx;
    assert margin * squares' == margin * squares + margin * xx;
  }

  /** x'Ax is at least margin x'x + (sum_i S_i x_i^2 - sum_ij |a_ij| x_j^2) / 2, with S_i the row sums of |A|. */
  lemma {:induction false} FormBound(a: Mat, margin: real, x: Vec, k: nat)
    requires Dominant(a, margin) && |x| == a.cols && k <= |x|
    ensures FormBounded(margin, DotTo(x, MulV(a, x), k), DotTo(x, x, k),
                        DotTo(MulV(AbsMat(a), Ones(|x|)), Squares(x), k),
                        DotTo(Ones(|x|), MulV(AbsMat(a), Squares(x)), k))
  {
    hide Abs, AbsVec, AbsMat, Squares, Ones, FormBounded, RowBounded, MulV;
    if k == 0 {
      NothingInForm(margin);
    } else {
      FormBound(a, margin, x, k - 1);
      var i := k - 1;
      var row, ax, ones := a.rows[i], MulV(a, x), Ones(|x|);
      var aOnes, aSquares := MulV(AbsMat(a), ones), MulV(AbsMat(a), Squares(x));
      WholeRowBound(a, margin, x, i);
      WeightTerms(x, aOnes, aSquares, i);
      FormStep(margin, DotTo(x, ax, i), DotTo(x, x, i), DotTo(aOnes, Squares(x), i), DotTo(ones, aSquares, i),
               x[i], ax[i], aOnes[i], aSquares[i], row[i] + Abs(row[i]),
               DotTo(x, ax, k), DotTo(x, x, k), DotTo(aOnes, Squares(x), k), DotTo(ones, aSquares, k));
    }
  }

  lemma WeightTerms(x: Vec, u: Vec, v: Vec, i: nat)
    requires |x| == |u| == |v| && i < |x|
    ensures u[i] * Squares(x)[i] == u[i] * (x[i] * x[i])
    ensures Ones(|x|)[i] * v[i] == v[i]
  {
  }

  lemma WholeRowBound(a: Mat, margin: real, x: Vec, i: nat)
    requires Dominant(a, margin) && |x| == a.cols && i < |x|
    ensures RowBounded(x[i], MulV(a, x)[i], MulV(AbsMat(a), Ones(|x|))[i], MulV(AbsMat(a), Squares(x))[i],
                       a.rows[i][i] + Abs(a.rows[i][i]))
    ensures a.rows[i][i] + Abs(a.rows[i][i]) >= MulV(AbsMat(a), Ones(|x|))[i] + margin
  {
    hide Abs, RowBounded;
    var row := a.rows[i];
    RowBound(row, x, i, |x|);
    SymmetricRow(a, i);
    AbsSumIsDot(row, |x|);
  }

  lemma NothingInForm(margin: real)
    ensures FormBounded(margin, 0.0, 0.0, 0.0, 0.0)
  {
  }

  lemma SymmetricRow(a: Mat, i: nat)
    requires Symmetric(a) && i < a.cols
    ensures Col(a, i) == a.rows[i]
  {
    assert Transpose(a).rows[i] == a.rows[i];
  }

  lemma {:induction false} AbsSumIsDot(row: Vec, k: nat)
    requires k <= |row|
    ensures DotTo(AbsVec(row), Ones(|row|), k) == AbsSumTo(row, k)
  {
    if k > 0 {
      AbsSumIsDot(row, k - 1);
    }
  }

  lemma AbsMatSymmetric(a: Mat)
    requires Symmetric(a)
    ensures Symmetric(AbsMat(a))
  {
    forall i, j | 0 <= i < a.cols && 0 <= j < a.cols
      ensures a.rows[i][j] == a.rows[j][i]
    {
      assert Transpose(a).rows[i][j] == a.rows[i][j];
    }
    MatricesEqual(Transpose(AbsMat(a)), AbsMat(a));
  }

  /** x'Ax >= margin x'x. */
  lemma DominantIsDefinite(a: Mat, margin: real, x: Vec)
    requires Dominant(a, margin) && |x| == a.cols
    ensures Dot(x, MulV(a, x)) >= margin * Dot(x, x)
  {
    hide DotTo, MulV;
    FormBound(a, margin, x, |x|);
    AbsMatSymmetric(a);
    SymmetricForm(AbsMat(a), Ones(|x|), Squares(x));
    DotCommutes(Squares(x), MulV(AbsMat(a), Ones(|x|)));
  }

  lemma SymmetrisedIsSymmetric(a: Mat)
    requires |a.rows| == a.cols
    ensures Symmetric(Symmetrised(a))
  {
    MatricesEqual(Transpose(Symmetrised(a)), Symmetrised(a));
  }

  lemma RaisedIsSymmetric(r: Mat, a: Mat, margin: real)
    requires Symmetric(a) && RaisedUpTo(r, a, margin, a.cols)
    ensures |r.rows| == r.cols == |a.rows| == a.cols && Symmetric(r)
  {
    hide Radius;
    forall i, j | 0 <= i < a.cols && 0 <= j < a.cols
      ensures r.rows[i][j] == r.rows[j][i]
    {
      assert Transpose(a).rows[i][j] == a.rows[i][j];
    }
    MatricesEqual(Transpose(r), r);
  }

  lemma RaisedIsDominant(r: Mat, a: Mat, margin: real)
    requires Symmetric(a) && RaisedUpTo(r, a, margin, a.cols)
    ensures Dominant(r, margin)
  {
    hide Symmetric;
    RaisedIsSymmetric(r, a, margin);
    forall i | 0 <= i < a.cols
      ensures Radius(r, i) == Radius(a, i)
    {
      AbsSumToCongruent(Col(r, i), Col(a, i), i, a.cols);
    }
  }

  lemma RepairedEntries(r: Mat, a: Mat, minEigenvalue: real, i: nat, j: nat)
    requires |a.rows| == a.cols && RaisedUpTo(r, Symmetrised(a), minEigenvalue, a.cols) && i < a.cols && j < a.cols
    ensures i != j ==> r.rows[i][j] == 0.5 * (a.rows[i][j] + a.rows[j][i])
    ensures i == j ==> r.rows[i][i] >= a.rows[i][i]
  {
    assert Symmetrised(a).rows[i][j] == 0.5 * (a.rows[i][j] + a.rows[j][i]);
  }

  /**
   * Whatever the square input: the repaired matrix is symmetric, agrees with the symmetrised input off the
   * diagonal, has no smaller diagonal, and its quadratic form is bounded below by the requested eigenvalue.
   */
  lemma RepairedMatrix(r: Mat, a: Mat, minEigenvalue: real)
    requires |a.rows| == a.cols && RaisedUpTo(r, Symmetrised(a), minEigenvalue, a.cols)
    ensures Symmetric(r)
    ensures forall i, j | 0 <= i < a.cols && 0 <= j < a.cols && i != j ::
            r.rows[i][j] == 0.5 * (a.rows[i][j] + a.rows[j][i])
    ensures forall i | 0 <= i < a.cols :: r.rows[i][i] >= a.rows[i][i]
    ensures forall x: Vec | |x| == a.cols :: Dot(x, MulV(r, x)) >= minEigenvalue * Dot(x, x)
  {
    hide Dot, MulV;
    SymmetrisedIsSymmetric(a);
    RaisedIsDominant(r, Symmetrised(a), minEigenvalue);
    forall x: Vec | |x| == a.cols
      ensures Dot(x, MulV(r, x)) >= minEigenvalue * Dot(x, x)
    {
      DominantIsDefinite(r, minEigenvalue, x);
    }
    forall i, j | 0 <= i < a.cols && 0 <= j < a.cols
      ensures i != j ==> r.rows[i][j] == 0.5 * (a.rows[i][j] + a.rows[j][i])
      ensures i == j ==> r.rows[i][i] >= a.rows[i][i]
    {
      RepairedEntries(r, a, minEigenvalue, i, j);
    }
  }

  /**
   * The diagonal is raised no further than needed: any other dominant matrix with the same entries off the diagonal and
   * no smaller ones on it has a diagonal at least as large.
   */
  lemma RepairIsLeast(r: Mat, a: Mat, minEigenvalue: real, b: Mat, i: nat)
    requires |a.rows| == a.cols && RaisedUpTo(r, Symmetrised(a), minEigenvalue, a.cols) && i < a.cols
    requires SameShape(b, a) && Dominant(b, minEigenvalue) && b.rows[i][i] >= a.rows[i][i]
    requires forall k, j | 0 <= k < a.cols && 0 <= j < a.cols && k != j :: b.rows[k][j] == r.rows[k][j]
    ensures Dominant(r, minEigenvalue) && r.rows[i][i] <= b.rows[i][i]
  {
    hide Symmetrised, AbsSum, Abs;
    SymmetrisedIsSymmetric(a);
    RaisedIsDominant(r, Symmetrised(a), minEigenvalue);
    assert Radius(b, i) == Radius(Symmetrised(a), i) by { WholeSum(b, Symmetrised(a), i); }
    assert Symmetrised(a).rows[i][i] == a.rows[i][i] by { SymmetrisedDiagonal(a, i); }
  }

  lemma WholeSum(b: Mat, a: Mat, i: nat)
    requires |a.rows| == a.cols && SameShape(a, b) && i < a.cols
    requires forall k | 0 <= k < a.cols && k != i :: b.rows[k][i] == a.rows[k][i]
    ensures Radius(b, i) == Radius(a, i)
  {
    AbsSumToCongruent(Col(b, i), Col(a, i), i, a.cols);
  }

  lemma SymmetrisedDiagonal(a: Mat, i: nat)
    requires |a.rows| == a.cols && i < a.cols
    ensures Symmetrised(a).rows[i][i] == a.rows[i][i]
  {
  }

  /** The repair leaves a matrix alone exactly when it is already symmetric and dominant. */
  lemma RepairIsIdentityIffDominant(r: Mat, a: Mat, minEigenvalue: real)
    requires |a.rows| == a.cols && RaisedUpTo(r, Symmetrised(a), minEigenvalue, a.cols)
    ensures r == a <==> Dominant(a, minEigenvalue)
  {
    SymmetrisedIsSymmetric(a);
    RaisedIsDominant(r, Symmetrised(a), minEigenvalue);
    if Dominant(a, minEigenvalue) {
      forall i, j | 0 <= i < a.cols && 0 <= j < a.cols
        ensures Symmetrised(a).rows[i][j] == a.rows[i][j]
      {
        assert Transpose(a).rows[i][j] == a.rows[i][j];
      }
      MatricesEqual(Symmetrised(a), a);
      MatricesEqual(r, a);
    }
  }

  /** Every eigenvalue of the repaired matrix is at least the requested one. */
  lemma EigenvaluesBounded(r: Mat, a: Mat, minEigenvalue: real, lambda: real, x: Vec)
    requires |a.rows| == a.cols && RaisedUpTo(r, Symmetrised(a), minEigenvalue, a.cols)
    requires |x| == a.cols && MulV(r, x) == Scale(lambda, x) && Dot(x, x) > 0.0
    ensures lambda >= minEigenvalue
  {
    hide RaisedUpTo, Symmetrised, DotTo;
    RepairedMatrix(r, a, minEigenvalue);
    DotScale(lambda, x, x);
    NonnegativeFactor(lambda - minEigenvalue, Dot(x, x));
  }
}
