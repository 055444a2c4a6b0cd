/** The Gauss-Newton approximation from a sparse Jacobian. */
module GaussNewtonApproximation {
  import opened Vectors
  import opened Norms
  import opened Types

  datatype Entry = Entry(row: nat, col: nat, value: real)

  /** A sparse m by n matrix whose entries are sorted by row, each position occurring once. */
  ghost predicate Sparse(e: seq<Entry>, m: nat, n: nat) {
    && (forall i | 0 <= i < |e| :: e[i].row < m && e[i].col < n)
    && (forall i, j | 0 <= i < j < |e| :: e[i].row <= e[j].row && (e[i].row == e[j].row ==> e[i].col != e[j].col))
  }

  /** Sum of the values that entries i to j - 1 have at position (r, c). */
  function Between(e: seq<Entry>, i: nat, j: nat, r: nat, c: nat): real
    requires i <= j <= |e|
    decreases j - i
  {
    if i == j then 0.0 else Between(e, i, j - 1, r, c) + if e[j-1].row == r && e[j-1].col == c then e[j-1].value
        else 0.0
  }

  /** Column c of the matrix of the entries from i on. */
  function ColFrom(e: seq<Entry>, i: nat, m: nat, c: nat): (r: Vec)
    requires i <= |e|
    ensures |r| == m
  {
    seq(m, r requires 0 <= r < m => Between(e, i, |e|, r, c))
  }

  /** The dense matrix. */
  function Dense(e: seq<Entry>, m: nat, n: nat): (a: Mat)
    ensures a.cols == n && |a.rows| == m
  {
    Mat(n, seq(m, r requires 0 <= r < m => seq(n, c requires 0 <= c < n => Between(e, 0, |e|, r, c))))
  }

  lemma DenseColumn(e: seq<Entry>, m: nat, n: nat, c: nat)
    requires c < n
    ensures Col(Dense(e, m, n), c) == ColFrom(e, 0, m, c)
  {
  }

  /** The first entry of a range can be split off. */
  lemma {:induction false} SplitFirst(e: seq<Entry>, i: nat, j: nat, r: nat, c: nat)
    requires i < j <= |e|
    ensures Between(e, i, j, r, c)
            == Between(e, i + 1, j, r, c) + if e[i].row == r && e[i].col == c then e[i].value else 0.0
    decreases j
  {
    if i + 1 < j {
      SplitFirst(e, i, j - 1, r, c);
    }
  }

  /** Changing one component of a vector. */
  lemma {:induction false} DotToShift(a: Vec, b: Vec, d: Vec, r: nat, v: real, k: nat)
    requires |a| == |b| == |d| && r < |a| && k <= |a|
    requires forall i | 0 <= i < |a| :: b[i] == a[i] + if i == r then v else 0.0
    ensures DotTo(b, d, k) == DotTo(a, d, k) + if r < k then v * d[r] else 0.0
  {
    if k > 0 {
      DotToShift(a, b, d, r, v, k - 1);
      if k - 1 == r {
        Distribute(a[r], v, d[r]);
        assert b[k-1] * d[k-1] == a[k-1] * d[k-1] + v * d[r];
      } else {
        assert b[k-1] * d[k-1] == a[k-1] * d[k-1];
      }
    }
  }

  lemma DotShift(a: Vec, b: Vec, d: Vec, r: nat, v: real)
    requires |a| == |b| == |d| && r < |a|
    requires forall i | 0 <= i < |a| :: b[i] == a[i] + if i == r then v else 0.0
    ensures Dot(b, d) == Dot(a, d) + v * d[r] && Dot(d, b) == Dot(d, a) + v * d[r]
  {
    DotToShift(a, b, d, r, v, |a|);
    DotCommutes(b, d);
    DotCommutes(a, d);
  }

  /** Entry i raises its own column at its own row, and no other column. */
  lemma ColumnStep(e: seq<Entry>, i: nat, m: nat, n: nat, c: nat)
    requires Sparse(e, m, n) && i < |e|
    ensures forall r | 0 <= r < m :: ColFrom(e, i, m, c)[r] == ColFrom(e, i + 1, m, c)[r]
              + if r == e[i].row then (if c == e[i].col then e[i].value else 0.0) else 0.0
  {
    forall r | 0 <= r < m
      ensures ColFrom(e, i, m, c)[r] == ColFrom(e, i + 1, m, c)[r]
                + if r == e[i].row then (if c == e[i].col then e[i].value else 0.0) else 0.0
    {
      SplitFirst(e, i, |e|, r, c);
    }
  }

  lemma EmptyColumn(e: seq<Entry>, m: nat, c: nat)
    ensures ColFrom(e, |e|, m, c) == Zeros(m)
  {
  }

  // ----- the gradient

  /** First loop: the entries before i are accounted for. */
  lemma GradientStep(e: seq<Entry>, f: Vec, n: nat, i: nat, c: nat)
    requires Sparse(e, |f|, n) && i < |e|
    ensures Dot(ColFrom(e, i, |f|, c), f) == Dot(ColFrom(e, i + 1, |f|, c), f)
              + if c == e[i].col then e[i].value * f[e[i].row] else 0.0
  {
    hide ColFrom, DotTo;
    ColumnStep(e, i, |f|, n, c);
    var v := if c == e[i].col then e[i].value else 0.0;
    DotShift(ColFrom(e, i + 1, |f|, c), ColFrom(e, i, |f|, c), f, e[i].row, v);
  }

  method Gradient(e: seq<Entry>, f: Vec, n: nat) returns (g: Vec)
    requires Sparse(e, |f|, n)
    ensures g == MulV(Transpose(Dense(e, |f|, n)), f)
  {
    var dfdx := new real[n](_ => 0.0);
    for i := 0 to |e|
      invariant forall c | 0 <= c < n :: dfdx[c] + Dot(ColFrom(e, i, |f|, c), f) == Dot(ColFrom(e, 0, |f|, c), f)
    {
      forall c | 0 <= c < n
        ensures Dot(ColFrom(e, i, |f|, c), f) == Dot(ColFrom(e, i + 1, |f|, c), f)
                  + if c == e[i].col then e[i].value * f[e[i].row] else 0.0
      {
        GradientStep(e, f, n, i, c);
      }
      dfdx[e[i].col] := dfdx[e[i].col] + e[i].value * f[e[i].row];
    }
    g := dfdx[..];
    forall c | 0 <= c < n
      ensures g[c] == MulV(Transpose(Dense(e, |f|, n)), f)[c]
    {
      EmptyColumn(e, |f|, c);
      DotZeros(f);
      DenseColumn(e, |f|, n, c);
    }
  }

  // ----- the Hessian

  /** Entry (a, b) of J' J for the matrix J of the entries from i on. */
  function Gram(e: seq<Entry>, i: nat, m: nat, a: nat, b: nat): real
    requires i <= |e|
  {
    Dot(ColFrom(e, i, m, a), ColFrom(e, i, m, b))
  }

  /** What entry i adds at (a, b): its square, and its products with the entries of its row between i and j. */
  function Raised(e: seq<Entry>, i: nat, j: nat, a: nat, b: nat): real
    requires i < j <= |e|
  {
    var r, c, v := e[i].row, e[i].col, e[i].value;
    (if a == c && b == c then v * v else 0.0)
    + (if b == c then v * Between(e, i + 1, j, r, a) else 0.0)
    + (if a == c then v * Between(e, i + 1, j, r, b) else 0.0)
  }

  /** No later entry has the position of entry i. */
  lemma {:induction false} OwnPositionEmpty(e: seq<Entry>, m: nat, n: nat, i: nat, j: nat)
    requires Sparse(e, m, n) && i < j <= |e|
    ensures Between(e, i + 1, j, e[i].row, e[i].col) == 0.0
    decreases j
  {
    if i + 1 < j {
      OwnPositionEmpty(e, m, n, i, j - 1);
    }
  }

  /** The entries of a later row contribute nothing to row r. */
  lemma {:induction false} LaterRowsEmpty(e: seq<Entry>, m: nat, n: nat, i: nat, j: nat, k: nat, r: nat, c: nat)
    requires Sparse(e, m, n) && i <= j <= k <= |e| && (j < |e| ==> r < e[j].row)
    ensures Between(e, i, k, r, c) == Between(e, i, j, r, c)
    decreases k
  {
    if j < k {
      LaterRowsEmpty(e, m, n, i, j, k - 1, r, c);
      assert j < k - 1 ==> e[j].row <= e[k-1].row;
    }
  }

  lemma Expand(v: real, t: real, w: real)
    ensures v * (t + w) == v * t + v * w && v * (t + 0.0) == v * t
  {
  }

  /** The Gram matrix of the entries from i on, from the one of those from i + 1 on. */
  lemma GramStep(e: seq<Entry>, m: nat, n: nat, i: nat, a: nat, b: nat)
    requires Sparse(e, m, n) && i < |e|
    ensures Gram(e, i, m, a, b) == Gram(e, i + 1, m, a, b) + Raised(e, i, |e|, a, b)
  {
    hide ColFrom, DotTo;
    var r, c, v := e[i].row, e[i].col, e[i].value;
    var pa, pb, qa, qb := ColFrom(e, i, m, a), ColFrom(e, i, m, b), ColFrom(e, i + 1, m, a), ColFrom(e, i + 1, m, b);
    ColumnStep(e, i, m, n, a);
    ColumnStep(e, i, m, n, b);
    DotShift(qa, pa, pb, r, if a == c then v else 0.0);
    DotShift(qb, pb, qa, r, if b == c then v else 0.0);
    ColumnEntry(e, i + 1, m, r, a);
    ColumnEntry(e, i + 1, m, r, b);
    OwnPositionEmpty(e, m, n, i, |e|);
    Expand(v, qb[r], if b == c then v else 0.0);
  }

  lemma ColumnEntry(e: seq<Entry>, i: nat, m: nat, r: nat, c: nat)
    requires i <= |e| && r < m
    ensures ColFrom(e, i, m, c)[r] == Between(e, i, |e|, r, c)
  {
  }

  ghost predicate SymmetricArray(h: array2<real>)
    reads h
  {
    h.Length0 == h.Length1 && forall a, b | 0 <= a < h.Length0 && 0 <= b < h.Length0 :: h[a, b] == h[b, a]
  }

  /** One more product of entry i: with entry j, in its row. */
  lemma RaisedStep(e: seq<Entry>, m: nat, n: nat, i: nat, j: nat, a: nat, b: nat)
    requires Sparse(e, m, n) && i < j < |e| && e[j].row == e[i].row
    ensures Raised(e, i, j + 1, a, b) == Raised(e, i, j, a, b)
              + if (a == e[j].col && b == e[i].col) || (a == e[i].col && b == e[j].col) then e[i].value * e[j].value
                  else 0.0
  {
    var r, v, w := e[i].row, e[i].value, e[j].value;
    assert e[i].col != e[j].col;
    Expand(v, Between(e, i + 1, j, r, a), w);
    Expand(v, Between(e, i + 1, j, r, b), w);
  }

  /** The row number the program reads at place j; the one behind the last entry is whatever lies in memory there. */
  function RowAt(e: seq<Entry>, behind: nat, j: nat): nat
    requires j <= |e|
  {
    if j < |e| then e[j].row else behind
  }

  /**
   * The body of the second loop: adds the products of entry i with itself and with the entries after it in its row. The
   * program does not stop at the last entry; ok is false when it goes on to use what lies behind.
   */
  method AddProducts(e: seq<Entry>, behind: nat, m: nat, n: nat, i: nat, h: array2<real>) returns (ok: bool)
    requires Sparse(e, m, n) && i < |e| && h.Length0 == h.Length1 == n && SymmetricArray(h)
    modifies h
    ensures SymmetricArray(h)
    ensures ok <==> !(behind == e[i].row == e[|e|-1].row)
    ensures ok ==> forall a, b | 0 <= a < n && 0 <= b < n :: h[a, b] == old(h[a, b]) + Raised(e, i, |e|, a, b)
  {
    hide Raised, Between;
    var row, col, value := e[i].row, e[i].col, e[i].value;
    h[col, col] := h[col, col] + value * value;
    var j := i + 1;
    StartsRaised(e, i, j);
    while RowAt(e, behind, j) == row
      invariant i < j <= |e| && SymmetricArray(h) && (forall k | i < k < j :: e[k].row == row)
      invariant forall a, b | 0 <= a < n && 0 <= b < n :: h[a, b] == old(h[a, b]) + Raised(e, i, j, a, b)
      decreases |e| - j
    {
      if j == |e| { return false; }
      NextRaised(e, m, n, i, j);
      var other := e[j].col;
      assert other != col;
      h[other, col] := h[other, col] + value * e[j].value;
      h[col, other] := h[other, col];
      j := j + 1;
    }
    ok := true;
    forall a, b | 0 <= a < n && 0 <= b < n
      ensures Raised(e, i, j, a, b) == Raised(e, i, |e|, a, b)
    {
      RowDone(e, m, n, i, j, a, b);
    }
  }

  lemma NextRaised(e: seq<Entry>, m: nat, n: nat, i: nat, j: nat)
    requires Sparse(e, m, n) && i < j < |e| && e[j].row == e[i].row
    ensures forall a: nat, b: nat | a < n && b < n ::
              Raised(e, i, j + 1, a, b) == Raised(e, i, j, a, b)
                + if (a == e[j].col && b == e[i].col) || (a == e[i].col && b == e[j].col) then e[i].value * e[j].value
                    else 0.0
  {
    forall a: nat, b: nat | a < n && b < n
      ensures Raised(e, i, j + 1, a, b) == Raised(e, i, j, a, b)
                + if (a == e[j].col && b == e[i].col) || (a == e[i].col && b == e[j].col) then e[i].value * e[j].value
                    else 0.0
    {
      RaisedStep(e, m, n, i, j, a, b);
    }
  }

  lemma StartsRaised(e: seq<Entry>, i: nat, j: nat)
    requires i < |e| && j == i + 1
    ensures forall a: nat, b: nat ::
            Raised(e, i, j, a, b) == if a == e[i].col && b == e[i].col then e[i].value * e[i].value else 0.0
  {
  }

  lemma RowDone(e: seq<Entry>, m: nat, n: nat, i: nat, j: nat, a: nat, b: nat)
    requires Sparse(e, m, n) && i < j <= |e| && (j < |e| ==> e[j].row != e[i].row)
    ensures Raised(e, i, j, a, b) == Raised(e, i, |e|, a, b)
  {
    LaterRowsEmpty(e, m, n, i + 1, j, |e|, e[i].row, a);
    LaterRowsEmpty(e, m, n, i + 1, j, |e|, e[i].row, b);
  }

  /** J'J, exactly when the row number behind the last entry is not the one of the last entry. */
  method Hessian(e: seq<Entry>, behind: nat, m: nat, n: nat) returns (r: Result<Mat>)
    requires Sparse(e, m, n)
    ensures r.Ok? <==> e == [] || behind != e[|e|-1].row
    ensures r.Ok? ==> r.value == Mul(Transpose(Dense(e, m, n)), Dense(e, m, n)) && Symmetric(r.value)
  {
    hide Gram, Raised, Symmetric;
    var h := new real[n, n]((i, j) => 0.0);
    for i := 0 to |e|
      invariant SymmetricArray(h)
      invariant forall a, b | 0 <= a < n && 0 <= b < n :: h[a, b] + Gram(e, i, m, a, b) == Gram(e, 0, m, a, b)
      invariant i > 0 ==> !(behind == e[i-1].row == e[|e|-1].row)
    {
      forall a, b | 0 <= a < n && 0 <= b < n
        ensures Gram(e, i, m, a, b) == Gram(e, i + 1, m, a, b) + Raised(e, i, |e|, a, b)
      {
        GramStep(e, m, n, i, a, b);
      }
      var ok := AddProducts(e, behind, m, n, i, h);
      if !ok {
        return Err("read past the last entry");
      }
    }
    HessianIsGram(e, m, n, Contents(h));
    r := Ok(Contents(h));
  }

  lemma HessianIsGram(e: seq<Entry>, m: nat, n: nat, r: Mat)
    requires Sparse(e, m, n) && r.cols == |r.rows| == n
    requires forall a, b | 0 <= a < n && 0 <= b < n :: r.rows[a][b] + Gram(e, |e|, m, a, b) == Gram(e, 0, m, a, b)
    requires forall a, b | 0 <= a < n && 0 <= b < n :: r.rows[a][b] == r.rows[b][a]
    ensures r == Mul(Transpose(Dense(e, m, n)), Dense(e, m, n)) && Symmetric(r)
  {
    hide DotTo, Mul;
    var j := Dense(e, m, n);
    forall a, b | 0 <= a < n && 0 <= b < n
      ensures r.rows[a][b] == Mul(Transpose(j), j).rows[a][b]
    {
      EmptyColumn(e, m, a);
      EmptyColumn(e, m, b);
      DotZeros(Zeros(m));
      MulEntry(Transpose(j), j, a, b);
      DenseColumn(e, m, n, a);
      DenseColumn(e, m, n, b);
    }
    MatricesEqual(r, Mul(Transpose(j), j));
    MatricesEqual(Transpose(r), r);
  }

  /** 0.5 |f|^2, J'f and J'J from the nonzero entries of J. */
  method GetGaussNewtonApproximation(f: Vec, jacobian: seq<Entry>, behind: nat, variableDim: nat)
    returns (cost: real, dfdx: Vec, dfdxx: Result<Mat>)
    requires Sparse(jacobian, |f|, variableDim)
    ensures var j := Dense(jacobian, |f|, variableDim);
            && cost == 0.5 * Dot(f, f) && dfdx == MulV(Transpose(j), f)
            && (dfdxx.Ok? <==> jacobian == [] || behind != jacobian[|jacobian|-1].row)
            && (dfdxx.Ok? ==> dfdxx.value == Mul(Transpose(j), j) && Symmetric(dfdxx.value))
  {
    cost := 0.5 * Dot(f, f);
    dfdx := Gradient(jacobian, f, variableDim);
    dfdxx := Hessian(jacobian, behind, |f|, variableDim);
  }

  /** The approximation is the exact half squared norm of the linearised residual. */
  lemma ApproximatesSquaredNorm(f: Vec, j: Mat, dx: Vec)
    requires |f| == |j.rows| && |dx| == j.cols
    ensures 0.5 * Dot(Add(f, MulV(j, dx)), Add(f, MulV(j, dx)))
            == 0.5 * Dot(f, f) + Dot(MulV(Transpose(j), f), dx) + 0.5 * Dot(dx, MulV(Mul(Transpose(j), j), dx))
  {
    hide DotTo, MulV, Mul;
    var y := MulV(j, dx);
    AddDot(f, y, Add(f, y));
    DotAdd(f, f, y);
    DotAdd(y, f, y);
    DotCommutes(y, f);
    MoveAcross(f, j, dx);
    MulMulV(Transpose(j), j, dx);
    MoveAcross(dx, Transpose(j), y);
    TransposeTwice(j);
  }
}
