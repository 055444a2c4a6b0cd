/**
 * Exact real vectors and matrices, and the algebra the other modules reason with. Matrices are sequences of rows that
 * carry their number of columns, so that blocks without rows keep their shape. The scalar product is defined by its
 * prefix sums (DotTo), which is what inductions run over; a product of a matrix and a vector is the vector of the
 * scalar products of its rows, and a product of matrices combines rows (VMul), so that associativity, transposition and
 * equality of matrices can all be argued through their action on vectors (MulMulV, MoveAcross, SameAction) without sums
 * over two indices.
 */
module Vectors {

  type Vec = seq<real>

  /** A dense matrix: its rows, and the number of columns they all have. */
  datatype RawMat = Mat(cols: nat, rows: seq<Vec>) {
    ghost predicate Rectangular() {
      forall i | 0 <= i < |rows| :: |rows[i]| == cols
    }
  }

  type Mat = m: RawMat | m.Rectangular() witness Mat(0, [])

  // ----- vectors

  function Zeros(n: nat): (r: Vec) {
    seq(n, _ => 0.0)
  }

  function Add(a: Vec, b: Vec): (r: Vec)
    requires |a| == |b|
    ensures |r| == |a|
  {
    seq(|a|, i requires 0 <= i < |a| => a[i] + b[i])
  }

  function Sub(a: Vec, b: Vec): (r: Vec)
    requires |a| == |b|
    ensures |r| == |a|
  {
    seq(|a|, i requires 0 <= i < |a| => a[i] - b[i])
  }

  function Scale(c: real, a: Vec): (r: Vec)
    ensures |r| == |a|
  {
    seq(|a|, i requires 0 <= i < |a| => c * a[i])
  }

  /** Sum of the first k products. */
  function DotTo(a: Vec, b: Vec, k: nat): real
    requires k <= |a| && k <= |b|
  {
    if k == 0 then 0.0 else DotTo(a, b, k - 1) + a[k-1] * b[k-1]
  }

  function Dot(a: Vec, b: Vec): real
    requires |a| == |b|
  {
    DotTo(a, b, |a|)
  }

  /** The k-th row of the n by n identity. */
  function Unit(n: nat, k: nat): (r: Vec) {
    seq(n, i => if i == k then 1.0 else 0.0)
  }

  // ----- matrices

  function MulV(a: Mat, x: Vec): (r: Vec)
    requires a.cols == |x|
    ensures |r| == |a.rows|
  {
    seq(|a.rows|, i requires 0 <= i < |a.rows| => Dot(a.rows[i], x))
  }

  /** The first k rows of a, weighted by u and added up. */
  function CombineTo(a: Mat, u: Vec, k: nat): (r: Vec)
    requires k <= |a.rows| && k <= |u|
    ensures |r| == a.cols
  {
    if k == 0 then Zeros(a.cols) else Add(CombineTo(a, u, k - 1), Scale(u[k-1], a.rows[k-1]))
  }

  /** u' a, as a vector. */
  function VMul(u: Vec, a: Mat): (r: Vec)
    requires |u| == |a.rows|
    ensures |r| == a.cols
  {
    CombineTo(a, u, |u|)
  }

  function Mul(a: Mat, b: Mat): (r: Mat)
    requires a.cols == |b.rows|
    ensures r.cols == b.cols && |r.rows| == |a.rows|
  {
    Mat(b.cols, seq(|a.rows|, i requires 0 <= i < |a.rows| => VMul(a.rows[i], b)))
  }

  function Col(a: Mat, j: nat): (r: Vec)
    requires j < a.cols
  {
    seq(|a.rows|, i requires 0 <= i < |a.rows| => a.rows[i][j])
  }

  function Transpose(a: Mat): (r: Mat) {
    Mat(|a.rows|, seq(a.cols, j requires 0 <= j < a.cols => Col(a, j)))
  }

  function Identity(n: nat): (r: Mat) {
    Mat(n, seq(n, i requires 0 <= i < n => Unit(n, i)))
  }

  function ZeroMat(m: nat, n: nat): (r: Mat) {
    Mat(n, seq(m, _ => Zeros(n)))
  }

  predicate SameShape(a: Mat, b: Mat) {
    a.cols == b.cols && |a.rows| == |b.rows|
  }

  function MAdd(a: Mat, b: Mat): (r: Mat)
    requires SameShape(a, b)
    ensures SameShape(r, a)
  {
    Mat(a.cols, seq(|a.rows|, i requires 0 <= i < |a.rows| => Add(a.rows[i], b.rows[i])))
  }

  function MScale(c: real, a: Mat): (r: Mat)
    ensures SameShape(r, a)
  {
    Mat(a.cols, seq(|a.rows|, i requires 0 <= i < |a.rows| => Scale(c, a.rows[i])))
  }

  ghost predicate Symmetric(a: Mat) {
    |a.rows| == a.cols && Transpose(a) == a
  }

  /** The matrix a two-dimensional buffer holds. */
  function Contents(a: array2<real>): (r: Mat)
    reads a
  {
    Mat(a.Length1, seq(a.Length0, i requires 0 <= i < a.Length0 reads a =>
      seq(a.Length1, j requires 0 <= j < a.Length1 reads a => a[i, j])))
  }

  // ----- real numbers

  lemma ZeroProduct(a: real, b: real)
    requires a * b == 0.0
    ensures a == 0.0 || b == 0.0
  {
    if a != 0.0 {
      assert b == (a * b) / a;
    }
  }

  lemma NonnegativeProduct(a: real, b: real)
    requires a >= 0.0 && b >= 0.0
    ensures a * b >= 0.0
  {
  }

  lemma NonnegativeFactor(a: real, b: real)
    requires a * b >= 0.0 && b > 0.0
    ensures a >= 0.0
  {
    assert a == (a * b) / b;
  }

  // ----- the dot product

  lemma {:induction false} DotToCongruent(a: Vec, b: Vec, c: Vec, d: Vec, k: nat)
    requires k <= |a| && k <= |b| && k <= |c| && k <= |d|
    requires forall i | 0 <= i < k :: a[i] == c[i] && b[i] == d[i]
    ensures DotTo(a, b, k) == DotTo(c, d, k)
  {
    if k > 0 {
      DotToCongruent(a, b, c, d, k - 1);
    }
  }

  lemma {:induction false} DotToCommutes(a: Vec, b: Vec, k: nat)
    requires k <= |a| && k <= |b|
    ensures DotTo(a, b, k) == DotTo(b, a, k)
  {
    if k > 0 {
      DotToCommutes(a, b, k - 1);
    }
  }

  lemma {:induction false} DotToAdd(a: Vec, b: Vec, c: Vec, k: nat)
    requires |b| == |c| && k <= |a| && k <= |b|
    ensures DotTo(a, Add(b, c), k) == DotTo(a, b, k) + DotTo(a, c, k)
  {
    if k > 0 {
      DotToAdd(a, b, c, k - 1);
    }
  }

  lemma {:induction false} DotToScale(s: real, a: Vec, b: Vec, k: nat)
    requires k <= |a| && k <= |b|
    ensures DotTo(a, Scale(s, b), k) == s * DotTo(a, b, k)
  {
    if k > 0 {
      DotToScale(s, a, b, k - 1);
    }
  }

  lemma {:induction false} DotToConcat(a: Vec, b: Vec, c: Vec, d: Vec, k: nat)
    requires |a| == |c| && k <= |b| && k <= |d|
    ensures DotTo(a + b, c + d, |a| + k) == Dot(a, c) + DotTo(b, d, k)
  {
    if k == 0 {
      DotToCongruent(a + b, c + d, a, c, |a|);
    } else {
      DotToConcat(a, b, c, d, k - 1);
    }
  }

  lemma {:induction false} DotToZero(a: Vec, b: Vec, k: nat)
    requires k <= |a| && k <= |b|
    requires forall i | 0 <= i < k :: a[i] == 0.0
    ensures DotTo(a, b, k) == 0.0
  {
    if k > 0 {
      DotToZero(a, b, k - 1);
    }
  }

  lemma {:induction false} DotToUnit(n: nat, j: nat, b: Vec, k: nat)
    requires k <= n && k <= |b|
    ensures DotTo(Unit(n, j), b, k) == if j < k then b[j] else 0.0
  {
    if k > 0 {
      DotToUnit(n, j, b, k - 1);
    }
  }

  lemma DotCommutes(a: Vec, b: Vec)
    requires |a| == |b|
    ensures Dot(a, b) == Dot(b, a)
  {
    DotToCommutes(a, b, |a|);
  }

  lemma DotAdd(a: Vec, b: Vec, c: Vec)
    requires |a| == |b| == |c|
    ensures Dot(a, Add(b, c)) == Dot(a, b) + Dot(a, c)
  {
    DotToAdd(a, b, c, |a|);
  }

  lemma AddDot(a: Vec, b: Vec, c: Vec)
    requires |a| == |b| == |c|
    ensures Dot(Add(a, b), c) == Dot(a, c) + Dot(b, c)
  {
    DotCommutes(Add(a, b), c);
    DotAdd(c, a, b);
    DotCommutes(a, c);
    DotCommutes(b, c);
  }

  lemma DotScale(s: real, a: Vec, b: Vec)
    requires |a| == |b|
    ensures Dot(a, Scale(s, b)) == s * Dot(a, b)
  {
    DotToScale(s, a, b, |a|);
  }

  lemma ScaleDot(s: real, a: Vec, b: Vec)
    requires |a| == |b|
    ensures Dot(Scale(s, a), b) == s * Dot(a, b)
  {
    DotCommutes(Scale(s, a), b);
    DotScale(s, b, a);
    DotCommutes(a, b);
  }

  lemma DotConcat(a: Vec, b: Vec, c: Vec, d: Vec)
    requires |a| == |c| && |b| == |d|
    ensures Dot(a + b, c + d) == Dot(a, c) + Dot(b, d)
  {
    DotToConcat(a, b, c, d, |b|);
  }

  lemma DotZeros(a: Vec)
    ensures Dot(Zeros(|a|), a) == 0.0 && Dot(a, Zeros(|a|)) == 0.0
  {
    DotToZero(Zeros(|a|), a, |a|);
    DotCommutes(Zeros(|a|), a);
  }

  lemma DotUnit(j: nat, b: Vec)
    requires j < |b|
    ensures Dot(Unit(|b|, j), b) == b[j] && Dot(b, Unit(|b|, j)) == b[j]
  {
    DotToUnit(|b|, j, b, |b|);
    DotCommutes(Unit(|b|, j), b);
  }

  lemma {:induction false} SquaresVanish(x: Vec, k: nat)
    requires k <= |x|
    ensures DotTo(x, x, k) >= 0.0
    ensures DotTo(x, x, k) == 0.0 ==> forall i | 0 <= i < k :: x[i] == 0.0
  {
    if k > 0 {
      SquaresVanish(x, k - 1);
      SquareVanishes(x[k-1]);
    }
  }

  lemma SquareVanishes(r: real)
    ensures r * r >= 0.0
    ensures r * r == 0.0 ==> r == 0.0
  {
    if r * r == 0.0 {
      ZeroProduct(r, r);
    }
  }

  // ----- matrices acting on vectors

  lemma MulVAdd(a: Mat, x: Vec, y: Vec)
    requires a.cols == |x| == |y|
    ensures MulV(a, Add(x, y)) == Add(MulV(a, x), MulV(a, y))
  {
    forall i | 0 <= i < |a.rows|
      ensures Dot(a.rows[i], Add(x, y)) == Dot(a.rows[i], x) + Dot(a.rows[i], y)
    {
      DotAdd(a.rows[i], x, y);
    }
  }

  lemma MulVScale(s: real, a: Mat, x: Vec)
    requires a.cols == |x|
    ensures MulV(a, Scale(s, x)) == Scale(s, MulV(a, x))
  {
    forall i | 0 <= i < |a.rows|
      ensures MulV(a, Scale(s, x))[i] == Scale(s, MulV(a, x))[i]
    {
      DotScale(s, a.rows[i], x);
    }
  }

  lemma MAddMulV(a: Mat, b: Mat, x: Vec)
    requires SameShape(a, b) && a.cols == |x|
    ensures MulV(MAdd(a, b), x) == Add(MulV(a, x), MulV(b, x))
  {
    forall i | 0 <= i < |a.rows|
      ensures Dot(Add(a.rows[i], b.rows[i]), x) == Dot(a.rows[i], x) + Dot(b.rows[i], x)
    {
      AddDot(a.rows[i], b.rows[i], x);
    }
  }

  lemma MScaleMulV(s: real, a: Mat, x: Vec)
    requires a.cols == |x|
    ensures MulV(MScale(s, a), x) == Scale(s, MulV(a, x))
  {
    forall i | 0 <= i < |a.rows|
      ensures MulV(MScale(s, a), x)[i] == Scale(s, MulV(a, x))[i]
    {
      ScaleDot(s, a.rows[i], x);
    }
  }

  lemma IdentityMulV(x: Vec)
    ensures MulV(Identity(|x|), x) == x
  {
    forall i | 0 <= i < |x|
      ensures Dot(Unit(|x|, i), x) == x[i]
    {
      DotUnit(i, x);
    }
  }

  lemma ZeroMatMulV(m: nat, x: Vec)
    ensures MulV(ZeroMat(m, |x|), x) == Zeros(m)
  {
    DotZeros(x);
  }

  lemma {:induction false} CombineToDot(a: Mat, u: Vec, v: Vec, k: nat)
    requires k <= |a.rows| && k <= |u| && |v| == a.cols
    ensures Dot(CombineTo(a, u, k), v) == DotTo(u, seq(|a.rows|, i requires 0 <= i < |a.rows| => Dot(a.rows[i], v)), k)
  {
    if k == 0 {
      DotZeros(v);
    } else {
      CombineToDot(a, u, v, k - 1);
      AddDot(CombineTo(a, u, k - 1), Scale(u[k-1], a.rows[k-1]), v);
      ScaleDot(u[k-1], a.rows[k-1], v);
    }
  }

  /** (u' a) v == u' (a v). */
  lemma VMulDot(u: Vec, a: Mat, v: Vec)
    requires |u| == |a.rows| && |v| == a.cols
    ensures Dot(VMul(u, a), v) == Dot(u, MulV(a, v))
  {
    CombineToDot(a, u, v, |u|);
  }

  lemma MulMulV(a: Mat, b: Mat, x: Vec)
    requires a.cols == |b.rows| && b.cols == |x|
    ensures MulV(Mul(a, b), x) == MulV(a, MulV(b, x))
  {
    forall i | 0 <= i < |a.rows|
      ensures Dot(VMul(a.rows[i], b), x) == Dot(a.rows[i], MulV(b, x))
    {
      VMulDot(a.rows[i], b, x);
    }
  }

  lemma MulVUnit(a: Mat, j: nat)
    requires j < a.cols
    ensures MulV(a, Unit(a.cols, j)) == Col(a, j)
  {
    forall i | 0 <= i < |a.rows|
      ensures Dot(a.rows[i], Unit(a.cols, j)) == a.rows[i][j]
    {
      DotUnit(j, a.rows[i]);
    }
  }

  /** Entry (i, j) of a product is row i times column j. */
  lemma MulEntry(a: Mat, b: Mat, i: nat, j: nat)
    requires a.cols == |b.rows| && i < |a.rows| && j < b.cols
    ensures Mul(a, b).rows[i][j] == Dot(a.rows[i], Col(b, j))
  {
    var r := VMul(a.rows[i], b);
    DotUnit(j, r);
    VMulDot(a.rows[i], b, Unit(b.cols, j));
    MulVUnit(b, j);
  }

  /** Matrices that act alike are equal. */
  lemma SameAction(a: Mat, b: Mat)
    requires SameShape(a, b)
    requires forall x: Vec | |x| == a.cols :: MulV(a, x) == MulV(b, x)
    ensures a == b
  {
    forall i, j | 0 <= i < |a.rows| && 0 <= j < a.cols
      ensures a.rows[i][j] == b.rows[i][j]
    {
      MulVUnit(a, j);
      MulVUnit(b, j);
      var e := Unit(a.cols, j);
      assert MulV(a, e) == MulV(b, e);
      assert Col(a, j)[i] == Col(b, j)[i];
    }
    forall i | 0 <= i < |a.rows|
      ensures a.rows[i] == b.rows[i]
    {
    }
    assert a.rows == b.rows;
  }

  lemma MulAssociates(a: Mat, b: Mat, c: Mat)
    requires a.cols == |b.rows| && b.cols == |c.rows|
    ensures Mul(Mul(a, b), c) == Mul(a, Mul(b, c))
  {
    forall x: Vec | |x| == c.cols
      ensures MulV(Mul(Mul(a, b), c), x) == MulV(Mul(a, Mul(b, c)), x)
    {
      MulMulV(Mul(a, b), c, x);
      MulMulV(a, b, MulV(c, x));
      MulMulV(a, Mul(b, c), x);
      MulMulV(b, c, x);
    }
    SameAction(Mul(Mul(a, b), c), Mul(a, Mul(b, c)));
  }

  lemma MulIdentity(a: Mat)
    ensures Mul(a, Identity(a.cols)) == a
    ensures Mul(Identity(|a.rows|), a) == a
  {
    forall x: Vec | |x| == a.cols
      ensures MulV(Mul(a, Identity(a.cols)), x) == MulV(a, x)
      ensures MulV(Mul(Identity(|a.rows|), a), x) == MulV(a, x)
    {
      MulMulV(a, Identity(a.cols), x);
      IdentityMulV(x);
      MulMulV(Identity(|a.rows|), a, x);
      IdentityMulV(MulV(a, x));
    }
    SameAction(Mul(a, Identity(a.cols)), a);
    SameAction(Mul(Identity(|a.rows|), a), a);
  }

  lemma MulVZeros(a: Mat)
    ensures MulV(a, Zeros(a.cols)) == Zeros(|a.rows|)
  {
    forall i | 0 <= i < |a.rows|
      ensures Dot(a.rows[i], Zeros(a.cols)) == 0.0
    {
      DotZeros(a.rows[i]);
    }
  }

  lemma MatricesEqual(a: Mat, b: Mat)
    requires SameShape(a, b)
    requires forall i, j | 0 <= i < |a.rows| && 0 <= j < a.cols :: a.rows[i][j] == b.rows[i][j]
    ensures a == b
  {
    forall i | 0 <= i < |a.rows|
      ensures a.rows[i] == b.rows[i]
    {
    }
    assert a.rows == b.rows;
  }

  // ----- transposes

  lemma TransposeTwice(a: Mat)
    ensures Transpose(Transpose(a)) == a
  {
    var t := Transpose(Transpose(a));
    forall i | 0 <= i < |a.rows|
      ensures t.rows[i] == a.rows[i]
    {
    }
    assert t.rows == a.rows;
  }

  lemma {:induction false} CombineToEntry(a: Mat, u: Vec, k: nat, j: nat)
    requires k <= |a.rows| && k <= |u| && j < a.cols
    ensures CombineTo(a, u, k)[j] == DotTo(Col(a, j), u, k)
  {
    if k > 0 {
      CombineToEntry(a, u, k - 1, j);
    }
  }

  lemma TransposeMulV(a: Mat, u: Vec)
    requires |u| == |a.rows|
    ensures MulV(Transpose(a), u) == VMul(u, a)
  {
    forall j | 0 <= j < a.cols
      ensures Dot(Col(a, j), u) == VMul(u, a)[j]
    {
      CombineToEntry(a, u, |u|, j);
    }
  }

  /** u' (a v) == (a' u)' v. */
  lemma MoveAcross(u: Vec, a: Mat, v: Vec)
    requires |u| == |a.rows| && |v| == a.cols
    ensures Dot(u, MulV(a, v)) == Dot(MulV(Transpose(a), u), v)
  {
    TransposeMulV(a, u);
    VMulDot(u, a, v);
  }

  lemma SymmetricForm(a: Mat, u: Vec, v: Vec)
    requires Symmetric(a) && |u| == |v| == a.cols
    ensures Dot(u, MulV(a, v)) == Dot(v, MulV(a, u))
  {
    MoveAcross(u, a, v);
    DotCommutes(MulV(a, u), v);
  }

  lemma TransposeMul(a: Mat, b: Mat)
    requires a.cols == |b.rows|
    ensures Transpose(Mul(a, b)) == Mul(Transpose(b), Transpose(a))
  {
    var l, r := Transpose(Mul(a, b)), Mul(Transpose(b), Transpose(a));
    forall i, j | 0 <= i < b.cols && 0 <= j < |a.rows|
      ensures l.rows[i][j] == r.rows[i][j]
    {
      MulEntry(a, b, j, i);
      MulEntry(Transpose(b), Transpose(a), i, j);
      assert Col(Transpose(a), j) == a.rows[j];
      DotCommutes(a.rows[j], Col(b, i));
    }
    forall i | 0 <= i < b.cols
      ensures l.rows[i] == r.rows[i]
    {
    }
    assert l.rows == r.rows;
  }

  lemma TransposeIdentity(n: nat)
    ensures Transpose(Identity(n)) == Identity(n)
  {
    var t := Transpose(Identity(n));
    forall i | 0 <= i < n
      ensures t.rows[i] == Identity(n).rows[i]
    {
    }
    assert t.rows == Identity(n).rows;
  }
}
