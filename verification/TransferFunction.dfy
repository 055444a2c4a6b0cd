/** Transfer functions with a delay, and their state-space realisation. */
module TransferFunctions {
  import opened Vectors
  import opened Types
  import opened DescendingPolynomials

  // ----- multiplication, with the loop bounds of the program

  /** b with everything from position m on replaced by zeros. */
  function Truncated(b: Vec, m: nat): (r: Vec)
    requires m <= |b|
    ensures |r| == |b|
  {
    b[..m] + Zeros(|b| - m)
  }

  /**
   * Both loops run over the size of the left factor. A longer left factor reads beyond the right one, and two empty
   * factors ask for a vector of negative size.
   */
  function MultiplyPolynomials(lhs: Vec, rhs: Vec): (r: Result<Vec>)
    ensures r.Err? <==> |lhs| > |rhs| || rhs == []
  {
    if |lhs| > |rhs| then Err("index out of range")
    else if rhs == [] then Err("negative size")
    else Ok(Product(lhs, Truncated(rhs, |lhs|)))
  }

  method MultiplyPolynomialsLoop(lhs: Vec, rhs: Vec) returns (r: Result<Vec>)
    ensures r == MultiplyPolynomials(lhs, rhs)
  {
    if |lhs| + |rhs| == 0 {
      return Err("negative size");
    }
    var n := |lhs| + |rhs| - 1;
    var result := new real[n](_ => 0.0);
    if |lhs| <= |rhs| {
      assert result[..] == Product([], Truncated(rhs, |lhs|)) + Zeros(|lhs|);
    }
    for i := 0 to |lhs|
      invariant i > 0 ==> |lhs| <= |rhs|
      invariant |lhs| <= |rhs| ==> result[..] == Product(lhs[..i], Truncated(rhs, |lhs|)) + Zeros(|lhs| - i)
    {
      ghost var before := result[..];
      var ok := AddRow(result, lhs, rhs, i);
      if !ok {
        return Err("index out of range");
      }
      RowAdded(lhs, rhs, i, before, result[..]);
    }
    AllRows(lhs, rhs, result[..]);
    r := Ok(result[..]);
  }

  /** The inner loop; ok is false when it reads beyond the right factor. */
  method AddRow(result: array<real>, lhs: Vec, rhs: Vec, i: nat) returns (ok: bool)
    requires i < |lhs| && result.Length == |lhs| + |rhs| - 1
    modifies result
    ensures ok <==> |lhs| <= |rhs|
    ensures ok ==> forall k | 0 <= k < result.Length ::
      result[..][k] == old(result[..])[k] + if i <= k < i + |lhs| then lhs[i] * rhs[k-i] else 0.0
  {
    for j := 0 to |lhs|
      invariant j <= |rhs|
      invariant forall k | 0 <= k < result.Length ::
                result[k] == old(result[k]) + if i <= k < i + j then lhs[i] * rhs[k-i] else 0.0
    {
      if j >= |rhs| {
        return false;
      }
      result[i+j] := result[i+j] + lhs[i] * rhs[j];
    }
    ok := true;
  }

  lemma AllRows(lhs: Vec, rhs: Vec, result: Vec)
    requires lhs != [] ==> |lhs| <= |rhs|
    requires |lhs| + |rhs| > 0
    requires |lhs| <= |rhs| ==> result == Product(lhs[..|lhs|], Truncated(rhs, |lhs|)) + Zeros(|lhs| - |lhs|)
    ensures Ok(result) == MultiplyPolynomials(lhs, rhs)
  {
    assert lhs[..|lhs|] == lhs;
    assert Product(lhs, Truncated(rhs, |lhs|)) + Zeros(0) == Product(lhs, Truncated(rhs, |lhs|));
  }

  /** One pass of the outer loop adds one row of the product. */
  lemma RowAdded(lhs: Vec, rhs: Vec, i: nat, before: Vec, after: Vec)
    requires i < |lhs| <= |rhs| && |before| == |after| == |lhs| + |rhs| - 1
    requires before == Product(lhs[..i], Truncated(rhs, |lhs|)) + Zeros(|lhs| - i)
    requires forall k | 0 <= k < |after| ::
             after[k] == before[k] + if i <= k < i + |lhs| then lhs[i] * rhs[k-i] else 0.0
    ensures after == Product(lhs[..i+1], Truncated(rhs, |lhs|)) + Zeros(|lhs| - i - 1)
  {
    hide Product;
    var t := Truncated(rhs, |lhs|);
    var p := Product(lhs[..i], t);
    assert lhs[..i+1][..i] == lhs[..i];
    ProductLast(lhs[..i+1], t);
    var row := Zeros(i) + Scale(lhs[i], t);
    var r := Add(p + [0.0], row) + Zeros(|lhs| - i - 1);
    forall k | 0 <= k < |after|
      ensures after[k] == r[k]
    {
      if i <= k < i + |rhs| {
        assert row[k] == lhs[i] * t[k-i];
      }
    }
  }

  lemma TruncatedIsWhole(b: Vec, m: nat)
    requires m <= |b|
    ensures IsZero(Sub(b, Truncated(b, m))) <==> IsZero(b[m..])
    ensures IsZero(b[m..]) ==> Truncated(b, m) == b
  {
    var d, t := Sub(b, Truncated(b, m)), b[m..];
    forall i | m <= i < |b|
      ensures d[i] == t[i-m]
    {
    }
    if IsZero(d) {
      forall i | 0 <= i < |t|
        ensures t[i] == 0.0
      {
        assert d[i+m] == t[i];
      }
    }
    if IsZero(t) {
      forall i | 0 <= i < |b|
        ensures d[i] == 0.0 && Truncated(b, m)[i] == b[i]
      {
        assert i >= m ==> b[i] == t[i-m];
      }
      assert Truncated(b, m) == b;
    }
  }

  /**
   * What the loops compute is the product exactly when no coefficient of the right factor is left out, or nothing is
   * scaled.
   */
  lemma MultiplyIsProductIff(lhs: Vec, rhs: Vec)
    requires |lhs| <= |rhs| && rhs != []
    ensures MultiplyPolynomials(lhs, rhs) == Ok(Product(lhs, rhs)) <==> IsZero(lhs) || IsZero(rhs[|lhs|..])
  {
    var t := Truncated(rhs, |lhs|);
    var d := Sub(rhs, t);
    ProductSub(lhs, rhs, t);
    TruncatedIsWhole(rhs, |lhs|);
    if Product(lhs, t) == Product(lhs, rhs) {
      NoZeroDivisors(lhs, d);
    }
    if IsZero(lhs) {
      ZeroFactor(lhs, d);
      SubZero(Product(lhs, rhs), Product(lhs, t));
    }
  }

  lemma SubZero(a: Vec, b: Vec)
    requires |a| == |b| && IsZero(Sub(a, b))
    ensures a == b
  {
    forall i | 0 <= i < |a|
      ensures a[i] == b[i]
    {
      assert Sub(a, b)[i] == 0.0;
    }
  }

  /** 1 times s + 2 comes out as s: a constant times a linear polynomial loses its last coefficient. */
  lemma MultiplyLosesCoefficient()
    ensures MultiplyPolynomials([1.0], [1.0, 2.0]) == Ok([1.0, 0.0]) && Product([1.0], [1.0, 2.0]) == [1.0, 2.0]
  {
    var t := Truncated([1.0, 2.0], 1);
    assert t == [1.0, 0.0];
    ProductByOne(t);
    ProductByOne([1.0, 2.0]);
  }

  lemma ProductByOne(b: Vec)
    requires b != []
    ensures Product([1.0], b) == b
  {
    assert [1.0][..0] == [];
    assert Zeros(|b| - 1) + [0.0] == Zeros(|b|);
    var r := Product([1.0], b);
    ProductLast([1.0], b);
    assert Product([], b) == Zeros(|b| - 1);
    assert Zeros(0) + Scale(1.0, b) == b;
    assert r == Add(Zeros(|b|), b);
  }
}
