/** Substituting u = Pu v + Px x + u0 into linear and quadratic approximations. */
module ChangeOfInputs {
  import opened Vectors
  import opened Types

  /** An empty matrix or vector argument stands for an absent term. */
  predicate HasMat(px: Mat) {
    |px.rows| > 0 && px.cols > 0
  }

  predicate HasVec(u0: Vec) {
    |u0| > 0
  }

  ghost predicate SubstitutionFits(pu: Mat, px: Mat, u0: Vec, nx: nat, nu: nat) {
    && |pu.rows| == nu
    && (HasMat(px) ==> |px.rows| == nu && px.cols == nx)
    && (HasVec(u0) ==> |u0| == nu)
  }

  function StatePart(px: Mat, nu: nat, x: Vec): (r: Vec)
    requires HasMat(px) ==> |px.rows| == nu && px.cols == |x|
    ensures |r| == nu
  {
    if HasMat(px) then MulV(px, x) else Zeros(nu)
  }

  function ConstantPart(u0: Vec, nu: nat): (r: Vec)
    requires HasVec(u0) ==> |u0| == nu
    ensures |r| == nu
  {
    if HasVec(u0) then u0 else Zeros(nu)
  }

  /** Pu v + Px x + u0. */
  function Input(pu: Mat, px: Mat, u0: Vec, x: Vec, v: Vec): (u: Vec)
    requires SubstitutionFits(pu, px, u0, |x|, |pu.rows|) && |v| == pu.cols
  {
    Add(Add(MulV(pu, v), StatePart(px, |pu.rows|, x)), ConstantPart(u0, |pu.rows|))
  }

  function LinearValue(a: LinearApprox, x: Vec, u: Vec): (v: Vec)
    requires a.dfdx.cols == |x| && a.dfdu.cols == |u| && |a.dfdx.rows| == |a.dfdu.rows| == |a.f|
    ensures |v| == |a.f|
  {
    Add(Add(MulV(a.dfdx, x), MulV(a.dfdu, u)), a.f)
  }

  ghost predicate LinearFits(a: LinearApprox, nx: nat, nu: nat) {
    a.dfdx.cols == nx && a.dfdu.cols == nu && |a.dfdx.rows| == |a.dfdu.rows| == |a.f|
  }

  method ChangeLinear(a: LinearApprox, pu: Mat, px: Mat, u0: Vec) returns (r: LinearApprox)
    requires LinearFits(a, a.dfdx.cols, |pu.rows|) && SubstitutionFits(pu, px, u0, a.dfdx.cols, |pu.rows|)
    ensures LinearFits(r, a.dfdx.cols, pu.cols) && |r.f| == |a.f|
    ensures forall x: Vec, v: Vec | |x| == a.dfdx.cols && |v| == pu.cols ::
              LinearValue(r, x, v) == LinearValue(a, x, Input(pu, px, u0, x, v))
  {
    r := a;
    if HasMat(px) {
      r := r.(dfdx := MAdd(r.dfdx, Mul(r.dfdu, px)));
    }
    if HasVec(u0) {
      r := r.(f := Add(r.f, MulV(r.dfdu, u0)));
    }
    r := r.(dfdu := Mul(r.dfdu, pu));
    forall x: Vec, v: Vec | |x| == a.dfdx.cols && |v| == pu.cols
      ensures LinearValue(r, x, v) == LinearValue(a, x, Input(pu, px, u0, x, v))
    {
      LinearSubstituted(a, pu, px, u0, r, x, v);
    }
  }

  lemma LinearSubstituted(a: LinearApprox, pu: Mat, px: Mat, u0: Vec, r: LinearApprox, x: Vec, v: Vec)
    requires LinearFits(a, |x|, |pu.rows|) && SubstitutionFits(pu, px, u0, |x|, |pu.rows|) && |v| == pu.cols
    requires r.dfdx == if HasMat(px) then MAdd(a.dfdx, Mul(a.dfdu, px)) else a.dfdx
    requires r.f == if HasVec(u0) then Add(a.f, MulV(a.dfdu, u0)) else a.f
    requires r.dfdu == Mul(a.dfdu, pu)
    ensures LinearValue(r, x, v) == LinearValue(a, x, Input(pu, px, u0, x, v))
  {
    var b, nu := a.dfdu, |pu.rows|;
    var w, s, c := MulV(pu, v), StatePart(px, nu, x), ConstantPart(u0, nu);
    MulMulV(b, pu, v);
    MulVAdd(b, Add(w, s), c);
    MulVAdd(b, w, s);
    if HasMat(px) {
      MAddMulV(a.dfdx, Mul(b, px), x);
      MulMulV(b, px, x);
    } else {
      MulVZeros(b);
    }
    if !HasVec(u0) {
      MulVZeros(b);
    }
    var l, g := LinearValue(r, x, v), LinearValue(a, x, Add(Add(w, s), c));
    forall i | 0 <= i < |a.f|
      ensures l[i] == g[i]
    {
    }
  }

  // ----- quadratic approximations

  /** The updates in the order that keeps the old blocks available for as long as they are needed. */
  method ChangeQuadratic(q: QuadraticApprox, pu: Mat, px: Mat, u0: Vec) returns (r: QuadraticApprox)
    requires CostFits(q, q.dfdux.cols, |pu.rows|) && SubstitutionFits(pu, px, u0, q.dfdux.cols, |pu.rows|)
    ensures CostFits(r, q.dfdux.cols, pu.cols) && r.dfduu == Mul(Transpose(pu), Mul(q.dfduu, pu))
    ensures Symmetric(q.dfduu) ==>
              forall x: Vec, v: Vec | |x| == q.dfdux.cols && |v| == pu.cols ::
                QuadraticValue(r, x, v) == QuadraticValue(q, x, Input(pu, px, u0, x, v))
  {
    r := q;
    var pPlusRPx := r.dfdux;
    if HasMat(px) {
      pPlusRPx := MAdd(pPlusRPx, Mul(r.dfduu, px));
    }
    var rPlusRu0 := r.dfdu;
    if HasVec(u0) {
      rPlusRu0 := Add(rPlusRu0, MulV(r.dfduu, u0));
    }
    if HasMat(px) {
      r := r.(dfdxx := MAdd(r.dfdxx, Mul(Transpose(r.dfdux), px)));
      r := r.(dfdxx := MAdd(r.dfdxx, Mul(Transpose(px), pPlusRPx)));
    }
    if HasVec(u0) {
      r := r.(dfdx := Add(r.dfdx, MulV(Transpose(r.dfdux), u0)));
    }
    if HasMat(px) {
      r := r.(dfdx := Add(r.dfdx, MulV(Transpose(px), rPlusRu0)));
    }
    if HasVec(u0) {
      r := r.(f := r.f + 0.5 * Dot(u0, Add(rPlusRu0, r.dfdu)));
    }
    r := r.(dfdux := Mul(Transpose(pu), pPlusRPx));
    r := r.(dfduu := Mul(Transpose(pu), Mul(r.dfduu, pu)));
    r := r.(dfdu := MulV(Transpose(pu), rPlusRu0));
    forall x: Vec, v: Vec | Symmetric(q.dfduu) && |x| == q.dfdux.cols && |v| == pu.cols
      ensures QuadraticValue(r, x, v) == QuadraticValue(q, x, Input(pu, px, u0, x, v))
    {
      QuadraticSubstituted(q, pu, px, u0, r, x, v);
    }
  }

  function NewP(q: QuadraticApprox, px: Mat): (r: Mat)
    requires CostFits(q, q.dfdux.cols, |q.dfdux.rows|)
    requires HasMat(px) ==> |px.rows| == |q.dfdux.rows| && px.cols == q.dfdux.cols
    ensures SameShape(r, q.dfdux)
  {
    if HasMat(px) then MAdd(q.dfdux, Mul(q.dfduu, px)) else q.dfdux
  }

  function NewR(q: QuadraticApprox, u0: Vec): (r: Vec)
    requires CostFits(q, q.dfdux.cols, |q.dfdux.rows|) && (HasVec(u0) ==> |u0| == |q.dfdux.rows|)
    ensures |r| == |q.dfdu|
  {
    if HasVec(u0) then Add(q.dfdu, MulV(q.dfduu, u0)) else q.dfdu
  }

  /** (P + R Px) x = P x + R s, with s the state part. */
  lemma NewPActs(q: QuadraticApprox, px: Mat, x: Vec)
    requires CostFits(q, |x|, |q.dfdux.rows|)
    requires HasMat(px) ==> |px.rows| == |q.dfdux.rows| && px.cols == |x|
    ensures MulV(NewP(q, px), x) == Add(MulV(q.dfdux, x), MulV(q.dfduu, StatePart(px, |q.dfdux.rows|, x)))
  {
    if HasMat(px) {
      MAddMulV(q.dfdux, Mul(q.dfduu, px), x);
      MulMulV(q.dfduu, px, x);
    } else {
      MulVZeros(q.dfduu);
      AddZeros(MulV(q.dfdux, x));
    }
  }

  lemma AddZeros(a: Vec)
    ensures Add(a, Zeros(|a|)) == a
  {
  }

  lemma NewRIs(q: QuadraticApprox, u0: Vec)
    requires CostFits(q, q.dfdux.cols, |q.dfdux.rows|) && (HasVec(u0) ==> |u0| == |q.dfdux.rows|)
    ensures NewR(q, u0) == Add(q.dfdu, MulV(q.dfduu, ConstantPart(u0, |q.dfdux.rows|)))
  {
    if !HasVec(u0) {
      MulVZeros(q.dfduu);
      AddZeros(q.dfdu);
    }
  }

  /** x'Q'x for the new state block. */
  lemma NewQForm(q: QuadraticApprox, px: Mat, rQ: Mat, x: Vec)
    requires CostFits(q, |x|, |q.dfdux.rows|)
    requires HasMat(px) ==> |px.rows| == |q.dfdux.rows| && px.cols == |x|
    requires rQ == if HasMat(px) then MAdd(MAdd(q.dfdxx, Mul(Transpose(q.dfdux), px)), Mul(Transpose(px), NewP(q, px)))
                   else q.dfdxx
    ensures var s := StatePart(px, |q.dfdux.rows|, x);
            Dot(x, MulV(rQ, x)) == Dot(x, MulV(q.dfdxx, x)) + Dot(s, MulV(q.dfdux, x)) + Dot(s, MulV(NewP(q, px), x))
  {
    var s := StatePart(px, |q.dfdux.rows|, x);
    var p, np := q.dfdux, NewP(q, px);
    if HasMat(px) {
      var a, b := Mul(Transpose(p), px), Mul(Transpose(px), np);
      MAddMulV(MAdd(q.dfdxx, a), b, x);
      MAddMulV(q.dfdxx, a, x);
      MulMulV(Transpose(p), px, x);
      MulMulV(Transpose(px), np, x);
      DotAdd(x, Add(MulV(q.dfdxx, x), MulV(a, x)), MulV(b, x));
      DotAdd(x, MulV(q.dfdxx, x), MulV(a, x));
      TransposedDot(p, x, s);
      TransposedDot(px, x, MulV(np, x));
      DotCommutes(MulV(np, x), s);
    } else {
      DotZeros(MulV(p, x));
      DotZeros(MulV(np, x));
    }
  }

  /** x . (a' y) = y . (a x). */
  lemma TransposedDot(a: Mat, x: Vec, y: Vec)
    requires |x| == a.cols && |y| == |a.rows|
    ensures Dot(x, MulV(Transpose(a), y)) == Dot(y, MulV(a, x)) == Dot(MulV(Transpose(a), y), x)
  {
    MoveAcross(y, a, x);
    DotCommutes(x, MulV(Transpose(a), y));
  }

  /** q'.x for the new state gradient. */
  lemma NewGradient(q: QuadraticApprox, px: Mat, u0: Vec, rq: Vec, x: Vec)
    requires CostFits(q, |x|, |q.dfdux.rows|)
    requires HasMat(px) ==> |px.rows| == |q.dfdux.rows| && px.cols == |x|
    requires HasVec(u0) ==> |u0| == |q.dfdux.rows|
    requires var g := if HasVec(u0) then Add(q.dfdx, MulV(Transpose(q.dfdux), u0)) else q.dfdx;
             rq == if HasMat(px) then Add(g, MulV(Transpose(px), NewR(q, u0))) else g
    ensures var nu := |q.dfdux.rows|;
            Dot(rq, x) == Dot(q.dfdx, x) + Dot(ConstantPart(u0, nu), MulV(q.dfdux, x))
                + Dot(NewR(q, u0), StatePart(px, nu, x))
  {
    var nr := NewR(q, u0);
    var g := if HasVec(u0) then Add(q.dfdx, MulV(Transpose(q.dfdux), u0)) else q.dfdx;
    if HasMat(px) {
      AddDot(g, MulV(Transpose(px), nr), x);
      TransposedDot(px, x, nr);
    } else {
      DotZeros(nr);
    }
    if HasVec(u0) {
      AddDot(q.dfdx, MulV(Transpose(q.dfdux), u0), x);
      TransposedDot(q.dfdux, x, u0);
    } else {
      DotZeros(MulV(q.dfdux, x));
    }
  }

  /** The cost at u = w + s + c, expanded; R is symmetric. */
  lemma ExpandedCost(q: QuadraticApprox, x: Vec, w: Vec, s: Vec, c: Vec)
    requires CostFits(q, |x|, |w|) && |s| == |c| == |w| && Symmetric(q.dfduu)
    ensures var px, rw, rs, rc := MulV(q.dfdux, x), MulV(q.dfduu, w), MulV(q.dfduu, s), MulV(q.dfduu, c);
            QuadraticValue(q, x, Add(Add(w, s), c))
            == q.f + Dot(q.dfdx, x) + 0.5 * Dot(x, MulV(q.dfdxx, x))
               + (Dot(q.dfdu, w) + Dot(q.dfdu, s) + Dot(q.dfdu, c))
               + (Dot(w, px) + Dot(s, px) + Dot(c, px))
               + (0.5 * Dot(w, rw) + 0.5 * Dot(s, rs) + 0.5 * Dot(c, rc) + Dot(w, rs) + Dot(w, rc) + Dot(s, rc))
  {
    var r, u, ws := q.dfduu, Add(Add(w, s), c), Add(w, s);
    var px, rw, rs, rc := MulV(q.dfdux, x), MulV(r, w), MulV(r, s), MulV(r, c);
    DotAdd(q.dfdu, ws, c);
    DotAdd(q.dfdu, w, s);
    AddDot(ws, c, px);
    AddDot(w, s, px);
    FormOfSumOf(r, ws, c);
    FormOfSumOf(r, w, s);
    MulVAdd(r, w, s);
    AddDot(w, s, rc);
  }

  lemma FormOfSumOf(r: Mat, a: Vec, b: Vec)
    requires Symmetric(r) && |a| == |b| == r.cols
    ensures Dot(Add(a, b), MulV(r, Add(a, b))) == Dot(a, MulV(r, a)) + 2.0 * Dot(a, MulV(r, b)) + Dot(b, MulV(r, b))
  {
    MulVAdd(r, a, b);
    AddDot(a, b, Add(MulV(r, a), MulV(r, b)));
    DotAdd(a, MulV(r, a), MulV(r, b));
    DotAdd(b, MulV(r, a), MulV(r, b));
    SymmetricForm(r, a, b);
  }

  lemma QuadraticSubstituted(q: QuadraticApprox, pu: Mat, px: Mat, u0: Vec, r: QuadraticApprox, x: Vec, v: Vec)
    requires CostFits(q, |x|, |pu.rows|) && SubstitutionFits(pu, px, u0, |x|, |pu.rows|) && |v| == pu.cols
    requires Symmetric(q.dfduu) && CostFits(r, |x|, |v|)
    requires r.dfdxx == if HasMat(px)
             then MAdd(MAdd(q.dfdxx, Mul(Transpose(q.dfdux), px)), Mul(Transpose(px), NewP(q, px)))
                        else q.dfdxx
    requires var g := if HasVec(u0) then Add(q.dfdx, MulV(Transpose(q.dfdux), u0)) else q.dfdx;
             r.dfdx == if HasMat(px) then Add(g, MulV(Transpose(px), NewR(q, u0))) else g
    requires r.f == if HasVec(u0) then q.f + 0.5 * Dot(u0, Add(NewR(q, u0), q.dfdu)) else q.f
    requires r.dfdux == Mul(Transpose(pu), NewP(q, px))
    requires r.dfduu == Mul(Transpose(pu), Mul(q.dfduu, pu))
    requires r.dfdu == MulV(Transpose(pu), NewR(q, u0))
    ensures QuadraticValue(r, x, v) == QuadraticValue(q, x, Input(pu, px, u0, x, v))
  {
    var nu := |pu.rows|;
    var w, s, c := MulV(pu, v), StatePart(px, nu, x), ConstantPart(u0, nu);
    var rw, rs, rc, ppx := MulV(q.dfduu, w), MulV(q.dfduu, s), MulV(q.dfduu, c), MulV(q.dfdux, x);
    ExpandedCost(q, x, w, s, c);
    NewQForm(q, px, r.dfdxx, x);
    NewPActs(q, px, x);
    NewRIs(q, u0);
    NewGradient(q, px, u0, r.dfdx, x);
    DotAdd(s, ppx, rs);
    AddDot(q.dfdu, rc, s);
    DotCommutes(rc, s);
    InputTerms(q, pu, NewP(q, px), NewR(q, u0), r, x, v);
    DotAdd(w, ppx, rs);
    AddDot(q.dfdu, rc, w);
    DotCommutes(rc, w);
    ConstantTerm(q, u0, r.f);
  }

  lemma InputTerms(q: QuadraticApprox, pu: Mat, np: Mat, nr: Vec, r: QuadraticApprox, x: Vec, v: Vec)
    requires CostFits(q, |x|, |pu.rows|) && |v| == pu.cols && SameShape(np, q.dfdux) && |nr| == |pu.rows|
    requires r.dfdux == Mul(Transpose(pu), np) && r.dfduu == Mul(Transpose(pu), Mul(q.dfduu, pu))
    requires r.dfdu == MulV(Transpose(pu), nr)
    ensures Dot(v, MulV(r.dfdux, x)) == Dot(MulV(pu, v), MulV(np, x))
    ensures Dot(v, MulV(r.dfduu, v)) == Dot(MulV(pu, v), MulV(q.dfduu, MulV(pu, v)))
    ensures Dot(r.dfdu, v) == Dot(nr, MulV(pu, v))
  {
    var w := MulV(pu, v);
    MulMulV(Transpose(pu), np, x);
    TransposedDot(pu, v, MulV(np, x));
    DotCommutes(MulV(np, x), w);
    MulMulV(Transpose(pu), Mul(q.dfduu, pu), v);
    MulMulV(q.dfduu, pu, v);
    TransposedDot(pu, v, MulV(q.dfduu, w));
    DotCommutes(MulV(q.dfduu, w), w);
    TransposedDot(pu, v, nr);
  }

  lemma ConstantTerm(q: QuadraticApprox, u0: Vec, f: real)
    requires CostFits(q, q.dfdux.cols, |q.dfdux.rows|) && (HasVec(u0) ==> |u0| == |q.dfdux.rows|)
    requires f == if HasVec(u0) then q.f + 0.5 * Dot(u0, Add(NewR(q, u0), q.dfdu)) else q.f
    ensures var c := ConstantPart(u0, |q.dfdux.rows|);
            f == q.f + Dot(q.dfdu, c) + 0.5 * Dot(c, MulV(q.dfduu, c))
  {
    if HasVec(u0) {
      DotAdd(u0, NewR(q, u0), q.dfdu);
      DotAdd(u0, q.dfdu, MulV(q.dfduu, u0));
      DotCommutes(u0, q.dfdu);
    } else {
      DotZeros(q.dfdu);
      DotZeros(MulV(q.dfduu, Zeros(|q.dfdu|)));
    }
  }
}
