/**
 * Order five. The components of the elementary problem stand for the rooted trees with up to five nodes, each growing
 * with the product of its branches. Butcher's theory, which is not part of this model, says that a Runge-Kutta step has
 * order five for every smooth flow without time if and only if it solves this problem exactly;
 * DormandPrinceOrder.StepWithTime adds time.
 */
module ElementaryProblems {
  import opened Vectors
  import opened Norms
  import opened Odes
  import opened Polynomials
  import opened DormandPrince
  import opened DormandPrinceAccuracy
  import opened DormandPrinceOrder

  /** The number of nodes of tree i. */
  function Order(i: nat): (r: nat)
    ensures r >= 1
  {
    if i < 1 then 1 else if i < 2 then 2 else if i < 4 then 3 else if i < 8 then 4 else 5
  }

  /** The products of the branches; no branch has more than four nodes. */
  function Branches(x: Vec): (r: Vec)
    requires |x| >= 8
    ensures |r| == 17
  {
    var square := Product(x[0], x[0]);
    var cube := Product(square, x[0]);
    [1.0, x[0], square, x[1], cube, Product(x[0], x[1]), x[2], x[3], Product(cube, x[0]), Product(square, x[1]),
     Product(x[1], x[1]), Product(x[0], x[2]), Product(x[0], x[3]), x[4], x[5], x[6], x[7]]
  }

  function Product(a: real, b: real): real {
    a * b
  }

  ghost predicate Elementary(flow: (real, Vec) -> Vec) {
    Shaped(flow) && forall t: real, x: Vec | |x| == 17 :: flow(t, x) == Branches(x)
  }

  /** Coefficients of the solution: a tree with n nodes has one n-th of the product of its branches. */
  function Weights(): (r: Vec)
    ensures |r| == 17
  {
    [1.0, 1.0 / 2.0, 1.0 / 3.0, 1.0 / 6.0, 1.0 / 4.0, 1.0 / 8.0, 1.0 / 12.0, 1.0 / 24.0, 1.0 / 5.0, 1.0 / 10.0,
     1.0 / 20.0, 1.0 / 15.0, 1.0 / 30.0, 1.0 / 20.0, 1.0 / 40.0, 1.0 / 60.0, 1.0 / 120.0]
  }

  /** The solution that starts at zero. */
  function Solution(t: real): (r: Vec)
    ensures |r| == 17
  {
    seq(17, i requires 0 <= i < 17 => Product(Power(t, Order(i)), Weights()[i]))
  }

  // ----- the stages of a step of size one

  function X1(): (r: Vec)
    ensures |r| == 8
  {
    [0.0, 0.0, 0.0, 0.0, 0.0, 0.0, 0.0, 0.0]
  }

  function X2(): (r: Vec)
    ensures |r| == 8
  {
    [1.0 / 5.0, 0.0, 0.0, 0.0, 0.0, 0.0, 0.0, 0.0]
  }

  function X3(): (r: Vec)
    ensures |r| == 8
  {
    [3.0 / 10.0, 9.0 / 200.0, 9.0 / 1000.0, 0.0, 9.0 / 5000.0, 0.0, 0.0, 0.0]
  }

  function X4(): (r: Vec)
    ensures |r| == 8
  {
    [4.0 / 5.0, 8.0 / 25.0, 64.0 / 375.0, 4.0 / 25.0, 124.0 / 1875.0, 6.0 / 125.0, 4.0 / 125.0, 0.0]
  }

  function X5(): (r: Vec)
    ensures |r| == 8
  {
    [8.0 / 9.0, 32.0 / 81.0, 512.0 / 2187.0, 424.0 / 1215.0, 1288.0 / 54675.0, 212.0 / 3645.0, 424.0 / 10935.0,
     -848.0 / 18225.0]
  }

  function X6(): (r: Vec)
    ensures |r| == 8
  {
    [1.0, 1.0 / 2.0, 1.0 / 3.0, 21.0 / 55.0, 173.0 / 1650.0, 21.0 / 220.0, 7.0 / 110.0, -14.0 / 275.0]
  }

  function K1(): (r: Vec)
    ensures |r| == 17
  {
    [1.0, 0.0, 0.0, 0.0, 0.0, 0.0, 0.0, 0.0, 0.0, 0.0, 0.0, 0.0, 0.0, 0.0, 0.0, 0.0, 0.0]
  }

  function K2(): (r: Vec)
    ensures |r| == 17
  {
    [1.0, 1.0 / 5.0, 1.0 / 25.0, 0.0, 1.0 / 125.0, 0.0, 0.0, 0.0, 1.0 / 625.0, 0.0, 0.0, 0.0, 0.0, 0.0, 0.0, 0.0,
     0.0]
  }

  function K3(): (r: Vec)
    ensures |r| == 17
  {
    [1.0, 3.0 / 10.0, 9.0 / 100.0, 9.0 / 200.0, 27.0 / 1000.0, 27.0 / 2000.0, 9.0 / 1000.0, 0.0, 81.0 / 10000.0,
     81.0 / 20000.0, 81.0 / 40000.0, 27.0 / 10000.0, 0.0, 9.0 / 5000.0, 0.0, 0.0, 0.0]
  }

  function K4(): (r: Vec)
    ensures |r| == 17
  {
    [1.0, 4.0 / 5.0, 16.0 / 25.0, 8.0 / 25.0, 64.0 / 125.0, 32.0 / 125.0, 64.0 / 375.0, 4.0 / 25.0, 256.0 / 625.0,
     128.0 / 625.0, 64.0 / 625.0, 256.0 / 1875.0, 16.0 / 125.0, 124.0 / 1875.0, 6.0 / 125.0, 4.0 / 125.0, 0.0]
  }

  function K5(): (r: Vec)
    ensures |r| == 17
  {
    [1.0, 8.0 / 9.0, 64.0 / 81.0, 32.0 / 81.0, 512.0 / 729.0, 256.0 / 729.0, 512.0 / 2187.0, 424.0 / 1215.0,
     4096.0 / 6561.0, 2048.0 / 6561.0, 1024.0 / 6561.0, 4096.0 / 19683.0, 3392.0 / 10935.0, 1288.0 / 54675.0,
     212.0 / 3645.0, 424.0 / 10935.0, -848.0 / 18225.0]
  }

  function K6(): (r: Vec)
    ensures |r| == 17
  {
    [1.0, 1.0, 1.0, 1.0 / 2.0, 1.0, 1.0 / 2.0, 1.0 / 3.0, 21.0 / 55.0, 1.0, 1.0 / 2.0, 1.0 / 4.0, 1.0 / 3.0,
     21.0 / 55.0, 173.0 / 1650.0, 21.0 / 220.0, 7.0 / 110.0, -14.0 / 275.0]
  }

  /** The slopes are the products at the states of the stages. */
  lemma SlopesAtStages()
    ensures K1() == Branches(X1()) && K2() == Branches(X2()) && K3() == Branches(X3())
    ensures K4() == Branches(X4()) && K5() == Branches(X5()) && K6() == Branches(X6())
  {
  }

  /** Component i of the stage states. */
  predicate StageRow(i: nat)
    requires i < 8
  {
    && X2()[i] == 1.0 / 5.0 * K1()[i]
    && X3()[i] == 3.0 / 40.0 * K1()[i] + 9.0 / 40.0 * K2()[i]
    && X4()[i] == 44.0 / 45.0 * K1()[i] - 56.0 / 15.0 * K2()[i] + 32.0 / 9.0 * K3()[i]
    && X5()[i] == 19372.0 / 6561.0 * K1()[i] - 25360.0 / 2187.0 * K2()[i] + 64448.0 / 6561.0 * K3()[i]
                  - 212.0 / 729.0 * K4()[i]
    && X6()[i] == 9017.0 / 3168.0 * K1()[i] - 355.0 / 33.0 * K2()[i] + 46732.0 / 5247.0 * K3()[i]
                  + 49.0 / 176.0 * K4()[i] - 5103.0 / 18656.0 * K5()[i]
  }

  lemma FirstStageRows()
    ensures StageRow(0) && StageRow(1) && StageRow(2) && StageRow(3)
  {
  }

  lemma StageRows(i: nat)
    requires i < 8
    ensures StageRow(i)
  {
    assert StageRow(0) && StageRow(1) && StageRow(2) && StageRow(3) by { FirstStageRows(); }
    assert StageRow(4) && StageRow(5) && StageRow(6) && StageRow(7);
  }

  /** Component i of the result; the conditions of order five, one for each tree. */
  predicate OrderCondition(i: nat)
    requires i < 17
  {
    35.0 / 384.0 * K1()[i] + 500.0 / 1113.0 * K3()[i] + 125.0 / 192.0 * K4()[i] - 2187.0 / 6784.0 * K5()[i]
    + 11.0 / 84.0 * K6()[i] == Weights()[i]
  }

  lemma FirstOrderConditions()
    ensures OrderCondition(0) && OrderCondition(1) && OrderCondition(2) && OrderCondition(3) && OrderCondition(4)
    ensures OrderCondition(5) && OrderCondition(6) && OrderCondition(7) && OrderCondition(8)
  {
  }

  lemma LastOrderConditions()
    ensures OrderCondition(9) && OrderCondition(10) && OrderCondition(11) && OrderCondition(12)
    ensures OrderCondition(13) && OrderCondition(14) && OrderCondition(15) && OrderCondition(16)
  {
  }

  lemma OrderConditions(i: nat)
    requires i < 17
    ensures OrderCondition(i)
  {
    hide OrderCondition;
    FirstOrderConditions();
    LastOrderConditions();
  }

  /** The result of order four agrees for the trees with up to four nodes. */
  predicate EmbeddedCondition(i: nat)
    requires i < 8
  {
    71.0 / 57600.0 * K1()[i] - 71.0 / 16695.0 * K3()[i] + 71.0 / 1920.0 * K4()[i] - 17253.0 / 339200.0 * K5()[i]
    + 22.0 / 525.0 * K6()[i] - 1.0 / 40.0 * Branches(Weights())[i] == 0.0
  }

  lemma EmbeddedConditions(i: nat)
    requires i < 8
    ensures EmbeddedCondition(i)
  {
    assert EmbeddedCondition(0) && EmbeddedCondition(1) && EmbeddedCondition(2) && EmbeddedCondition(3);
    assert EmbeddedCondition(4) && EmbeddedCondition(5) && EmbeddedCondition(6) && EmbeddedCondition(7);
  }

  // ----- steps of any size

  /** The first n components of v are those of c times the power of d that their trees ask for, less s. */
  ghost predicate Graded(v: Vec, c: Vec, d: real, s: nat, n: nat) {
    s <= 1 && n <= |v| && n <= |c| && forall i: nat | i < n :: GradedAt(v, c, d, s, i)
  }

  ghost predicate GradedAt(v: Vec, c: Vec, d: real, s: nat, i: nat)
    requires s <= 1 && i < |v| && i < |c|
  {
    v[i] == Product(Power(d, Order(i) - s), c[i])
  }

  lemma Powers(d: real)
    ensures Power(d, 0) == 1.0 && Power(d, 1) == d && Power(d, 2) == Product(d, d)
    ensures Power(d, 3) == Product(Power(d, 2), d) == Product(d, Power(d, 2))
    ensures Power(d, 4) == Product(Power(d, 2), Power(d, 2)) == Product(Power(d, 3), d) == Product(d, Power(d, 3))
  {
    var p2 := d * d;
    assert d * (d * p2) == p2 * p2;
  }

  lemma Times(p: real, c: real, q: real, e: real, r: real)
    requires r == Product(p, q)
    ensures Product(Product(p, c), Product(q, e)) == Product(r, Product(c, e))
  {
    assert (p * c) * (q * e) == (p * q) * (c * e);
  }

  /** What the components of the branches carry. */
  predicate Carries(r: Vec, e: Vec, d: real, p2: real, p3: real, p4: real)
    requires |r| == |e| == 17
  {
    && r[0] == e[0] && r[1] == Product(d, e[1]) && r[2] == Product(p2, e[2]) && r[3] == Product(p2, e[3])
    && r[4] == Product(p3, e[4]) && r[5] == Product(p3, e[5]) && r[6] == Product(p3, e[6]) && r[7] == Product(p3, e[7])
    && forall i | 8 <= i < 17 :: r[i] == Product(p4, e[i])
  }

  lemma CarriedIsGraded(r: Vec, e: Vec, d: real)
    requires |r| == |e| == 17 && Carries(r, e, d, Power(d, 2), Power(d, 3), Power(d, 4))
    ensures Graded(r, e, d, 1, 17)
  {
    hide Power;
    Powers(d);
    assert GradedAt(r, e, d, 1, 0) && GradedAt(r, e, d, 1, 1) && GradedAt(r, e, d, 1, 2) && GradedAt(r, e, d, 1, 3);
    forall i: nat | i < 17
      ensures GradedAt(r, e, d, 1, i)
    {
      assert Order(i) - 1 == if i < 4 then if i < 2 then i else 2 else if i < 8 then 3 else 4;
    }
  }

  lemma Carried(v: Vec, c: Vec, d: real, p2: real, p3: real, p4: real)
    requires |v| >= 8 && |c| >= 8 && p2 == Product(d, d) && p3 == Product(p2, d) == Product(d, p2)
    requires p4 == Product(p2, p2) == Product(p3, d) == Product(d, p3)
    requires v[0] == Product(d, c[0]) && v[1] == Product(p2, c[1])
    requires v[2] == Product(p3, c[2]) && v[3] == Product(p3, c[3])
    requires forall i | 4 <= i < 8 :: v[i] == Product(p4, c[i])
    ensures Carries(Branches(v), Branches(c), d, p2, p3, p4)
  {
    hide Product;
    var square, cube := Product(c[0], c[0]), Product(Product(c[0], c[0]), c[0]);
    Times(d, c[0], d, c[0], p2);
    Times(p2, square, d, c[0], p3);
    Times(d, c[0], p2, c[1], p3);
    Times(p2, square, p2, c[1], p4);
    Times(p3, cube, d, c[0], p4);
    Times(p2, c[1], p2, c[1], p4);
    Times(d, c[0], p3, c[2], p4);
    Times(d, c[0], p3, c[3], p4);
  }

  lemma FirstOrders()
    ensures Order(0) == 1 && Order(1) == 2 && Order(2) == Order(3) == 3
    ensures Order(4) == Order(5) == Order(6) == Order(7) == 4
  {
  }

  /** A tree has one node more than its branches together. */
  lemma BranchesGraded(v: Vec, c: Vec, d: real)
    requires |v| >= 8 && |c| >= 8 && Graded(v, c, d, 0, 8)
    ensures Graded(Branches(v), Branches(c), d, 1, 17)
  {
    hide Power, Carries, Branches, Order, Product;
    Powers(d);
    FirstOrders();
    assert GradedAt(v, c, d, 0, 0) && GradedAt(v, c, d, 0, 1) && GradedAt(v, c, d, 0, 2) && GradedAt(v, c, d, 0, 3);
    assert GradedAt(v, c, d, 0, 4) && GradedAt(v, c, d, 0, 5) && GradedAt(v, c, d, 0, 6) && GradedAt(v, c, d, 0, 7);
    Carried(v, c, d, Power(d, 2), Power(d, 3), Power(d, 4));
    CarriedIsGraded(Branches(v), Branches(c), d);
  }

  lemma Swap(b: real, p: real, c: real, k: real)
    requires k == p * c
    ensures b * k == p * (b * c)
  {
  }

  lemma TimesFive(p: real, a1: real, a2: real, a3: real, a4: real, a5: real)
    ensures p * (a1 + a2 + a3 + a4 + a5) == p * a1 + p * a2 + p * a3 + p * a4 + p * a5
  {
  }

  /** d times a combination of slopes that carry the factor p. */
  lemma CombineGraded(d: real, p: real, q: real, k1: real, k2: real, k3: real, k4: real, k5: real, c1: real, c2: real,
                      c3: real, c4: real, c5: real, b1: real, b2: real, b3: real, b4: real, b5: real, x: real)
    requires q == d * p && x == b1 * c1 + b2 * c2 + b3 * c3 + b4 * c4 + b5 * c5
    requires k1 == p * c1 && k2 == p * c2 && k3 == p * c3 && k4 == p * c4 && k5 == p * c5
    ensures d * (b1 * k1 + b2 * k2 + b3 * k3 + b4 * k4 + b5 * k5) == q * x
  {
    Swap(b1, p, c1, k1);
    Swap(b2, p, c2, k2);
    Swap(b3, p, c3, k3);
    Swap(b4, p, c4, k4);
    Swap(b5, p, c5, k5);
    TimesFive(p, b1 * c1, b2 * c2, b3 * c3, b4 * c4, b5 * c5);
    assert d * (p * x) == (d * p) * x;
  }

  // ----- the step from zero

  ghost predicate SlopesGraded(k: Slopes, d: real, j: nat) {
    && |k.k1| == |k.k2| == |k.k3| == |k.k4| == |k.k5| == |k.k6| == 17
    && Graded(k.k1, K1(), d, 1, 17)
    && (j >= 2 ==> Graded(k.k2, K2(), d, 1, 17))
    && (j >= 3 ==> Graded(k.k3, K3(), d, 1, 17))
    && (j >= 4 ==> Graded(k.k4, K4(), d, 1, 17))
    && (j >= 5 ==> Graded(k.k5, K5(), d, 1, 17))
    && (j >= 6 ==> Graded(k.k6, K6(), d, 1, 17))
  }

  function Zero(flow: (real, Vec) -> Vec, t: real): Point {
    Point(Zeros(17), flow(t, Zeros(17)), t)
  }

  lemma SlopeGraded(flow: (real, Vec) -> Vec, t: real, argument: Vec, x: Vec, d: real)
    requires Elementary(flow) && |argument| == 17 && |x| == 8 && Graded(argument, x, d, 0, 8)
    ensures Graded(flow(t, argument), Branches(x), d, 1, 17)
  {
    hide Branches, Power, Order;
    BranchesGraded(argument, x, d);
  }

  lemma RowGraded(k: Slopes, d: real, i: nat, p: real, q: real)
    requires SlopesGraded(k, d, 1) && i < 8 && p == Power(d, Order(i) - 1) && q == Power(d, Order(i))
    ensures d * (1.0 / 5.0 * k.k1[i]) == q * X2()[i]
    ensures SlopesGraded(k, d, 2) ==> d * (3.0 / 40.0 * k.k1[i] + 9.0 / 40.0 * k.k2[i]) == q * X3()[i]
    ensures SlopesGraded(k, d, 3) ==>
              d * (44.0 / 45.0 * k.k1[i] - 56.0 / 15.0 * k.k2[i] + 32.0 / 9.0 * k.k3[i]) == q * X4()[i]
    ensures SlopesGraded(k, d, 4) ==>
              d * (19372.0 / 6561.0 * k.k1[i] - 25360.0 / 2187.0 * k.k2[i] + 64448.0 / 6561.0 * k.k3[i]
                   - 212.0 / 729.0 * k.k4[i]) == q * X5()[i]
    ensures SlopesGraded(k, d, 5) ==>
              d * (9017.0 / 3168.0 * k.k1[i] - 355.0 / 33.0 * k.k2[i] + 46732.0 / 5247.0 * k.k3[i]
                   + 49.0 / 176.0 * k.k4[i] - 5103.0 / 18656.0 * k.k5[i]) == q * X6()[i]
  {
    hide Power, Order, K1, K2, K3, K4, K5, K6, X2, X3, X4, X5, X6;
    StageRows(i);
    assert q == d * p by { OneMore(d, Order(i) - 1); }
    assert GradedAt(k.k1, K1(), d, 1, i);
    var z := 0.0;
    CombineGraded(d, p, q, k.k1[i], z, z, z, z, K1()[i], z, z, z, z, 1.0 / 5.0, z, z, z, z, X2()[i]);
    if SlopesGraded(k, d, 2) {
      assert GradedAt(k.k2, K2(), d, 1, i);
      CombineGraded(d, p, q, k.k1[i], k.k2[i], z, z, z, K1()[i], K2()[i], z, z, z, 3.0 / 40.0, 9.0 / 40.0, z, z, z,
                    X3()[i]);
    }
    if SlopesGraded(k, d, 3) {
      assert GradedAt(k.k3, K3(), d, 1, i);
      CombineGraded(d, p, q, k.k1[i], k.k2[i], k.k3[i], z, z, K1()[i], K2()[i], K3()[i], z, z,
                    44.0 / 45.0, -56.0 / 15.0, 32.0 / 9.0, z, z, X4()[i]);
    }
    if SlopesGraded(k, d, 4) {
      assert GradedAt(k.k4, K4(), d, 1, i);
      CombineGraded(d, p, q, k.k1[i], k.k2[i], k.k3[i], k.k4[i], z, K1()[i], K2()[i], K3()[i], K4()[i], z,
                    19372.0 / 6561.0, -25360.0 / 2187.0, 64448.0 / 6561.0, -212.0 / 729.0, z, X5()[i]);
    }
    if SlopesGraded(k, d, 5) {
      assert GradedAt(k.k5, K5(), d, 1, i);
      CombineGraded(d, p, q, k.k1[i], k.k2[i], k.k3[i], k.k4[i], k.k5[i],
                    K1()[i], K2()[i], K3()[i], K4()[i], K5()[i],
                    9017.0 / 3168.0, -355.0 / 33.0, 46732.0 / 5247.0, 49.0 / 176.0, -5103.0 / 18656.0, X6()[i]);
    }
  }

  lemma OneMore(d: real, n: nat)
    ensures Power(d, n + 1) == d * Power(d, n)
  {
  }

  /** The next slope is graded when the ones before it are. */
  lemma NextGraded(flow: (real, Vec) -> Vec, t: real, d: real, k: Slopes, j: nat)
    requires Elementary(flow) && k == StageSlopes(flow, Zero(flow, t), d) && 1 <= j < 6 && SlopesGraded(k, d, j)
    ensures SlopesGraded(k, d, j + 1)
  {
    hide Argument2, Argument3, Argument4, Argument5, Argument6, Elementary, Power, Order, Branches,
        K1, K2, K3, K4, K5, K6, X2, X3, X4, X5, X6;
    var x := Zeros(17);
    var a2, a3, a4 := Argument2(x, k.k1, d), Argument3(x, k.k1, k.k2, d), Argument4(x, k.k1, k.k2, k.k3, d);
    var a5, a6 := Argument5(x, k.k1, k.k2, k.k3, k.k4, d), Argument6(x, k.k1, k.k2, k.k3, k.k4, k.k5, d);
    forall i: nat | i < 8
      ensures j == 1 ==> GradedAt(a2, X2(), d, 0, i)
      ensures j == 2 ==> GradedAt(a3, X3(), d, 0, i)
      ensures j == 3 ==> GradedAt(a4, X4(), d, 0, i)
      ensures j == 4 ==> GradedAt(a5, X5(), d, 0, i)
      ensures j == 5 ==> GradedAt(a6, X6(), d, 0, i)
    {
      ArgumentEntries(x, k.k1, k.k2, k.k3, k.k4, k.k5, d, i);
      RowGraded(k, d, i, Power(d, Order(i) - 1), Power(d, Order(i)));
    }
    SlopesAtStages();
    match j {
      case 1 => SlopeGraded(flow, t + d * A2, a2, X2(), d);
      case 2 => SlopeGraded(flow, t + d * A3, a3, X3(), d);
      case 3 => SlopeGraded(flow, t + d * A4, a4, X4(), d);
      case 4 => SlopeGraded(flow, t + d * A5, a5, X5(), d);
      case _ => SlopeGraded(flow, t + d, a6, X6(), d);
    }
  }

  lemma FirstGraded(flow: (real, Vec) -> Vec, t: real, d: real)
    requires Elementary(flow)
    ensures SlopesGraded(StageSlopes(flow, Zero(flow, t), d), d, 1)
  {
    hide Power, Order, Branches, Elementary, Argument2, Argument3, Argument4, Argument5, Argument6;
    SlopesAtStages();
    forall i: nat | i < 8
      ensures GradedAt(Zeros(17), X1(), d, 0, i)
    {
      assert X1()[i] == 0.0;
    }
    SlopeGraded(flow, t, Zeros(17), X1(), d);
  }

  lemma AllGraded(flow: (real, Vec) -> Vec, t: real, d: real, k: Slopes)
    requires Elementary(flow) && k == StageSlopes(flow, Zero(flow, t), d)
    ensures SlopesGraded(k, d, 6)
  {
    hide StageSlopes, SlopesGraded, Elementary;
    FirstGraded(flow, t, d);
    NextGraded(flow, t, d, k, 1);
    NextGraded(flow, t, d, k, 2);
    NextGraded(flow, t, d, k, 3);
    NextGraded(flow, t, d, k, 4);
    NextGraded(flow, t, d, k, 5);
  }

  lemma ResultGraded(k: Slopes, d: real, i: nat, p: real, q: real)
    requires SlopesGraded(k, d, 6) && i < 17 && p == Power(d, Order(i) - 1) && q == Power(d, Order(i))
    ensures NextState(Zeros(17), k, d)[i] == q * Weights()[i]
  {
    hide Power, Order, K1, K2, K3, K4, K5, K6, Weights, NextState, Weighted;
    OrderConditions(i);
    assert q == d * p by { OneMore(d, Order(i) - 1); }
    assert GradedAt(k.k1, K1(), d, 1, i) && GradedAt(k.k3, K3(), d, 1, i) && GradedAt(k.k4, K4(), d, 1, i);
    assert GradedAt(k.k5, K5(), d, 1, i) && GradedAt(k.k6, K6(), d, 1, i);
    NextStateEntry(Zeros(17), k, d, i);
    WeightValues(k.k1[i], k.k3[i], k.k4[i], k.k5[i], k.k6[i]);
    CombineGraded(d, p, q, k.k1[i], k.k3[i], k.k4[i], k.k5[i], k.k6[i],
                  K1()[i], K3()[i], K4()[i], K5()[i], K6()[i],
                  35.0 / 384.0, 500.0 / 1113.0, 125.0 / 192.0, -2187.0 / 6784.0, 11.0 / 84.0, Weights()[i]);
  }

  lemma EstimateVanishes(d: real, p: real, k1: real, k3: real, k4: real, k5: real, k6: real, k7: real, c1: real,
                         c3: real, c4: real, c5: real, c6: real, c7: real)
    requires k1 == p * c1 && k3 == p * c3 && k4 == p * c4 && k5 == p * c5 && k6 == p * c6 && k7 == p * c7
    requires 71.0 / 57600.0 * c1 - 71.0 / 16695.0 * c3 + 71.0 / 1920.0 * c4 - 17253.0 / 339200.0 * c5
             + 22.0 / 525.0 * c6 - 1.0 / 40.0 * c7 == 0.0
    ensures d * Estimated(k1, k3, k4, k5, k6, k7) == 0.0
  {
    hide Estimated;
    EstimateValues(k1, k3, k4, k5, k6, k7);
    Swap(71.0 / 57600.0, p, c1, k1);
    Swap(-71.0 / 16695.0, p, c3, k3);
    Swap(71.0 / 1920.0, p, c4, k4);
    Swap(-17253.0 / 339200.0, p, c5, k5);
    Swap(22.0 / 525.0, p, c6, k6);
    Swap(-1.0 / 40.0, p, c7, k7);
    TimesFive(p, 71.0 / 57600.0 * c1, -71.0 / 16695.0 * c3, 71.0 / 1920.0 * c4, -17253.0 / 339200.0 * c5,
              22.0 / 525.0 * c6);
    var sum := 71.0 / 57600.0 * c1 + -71.0 / 16695.0 * c3 + 71.0 / 1920.0 * c4 + -17253.0 / 339200.0 * c5
               + 22.0 / 525.0 * c6;
    assert p * sum + p * (-1.0 / 40.0 * c7) == p * (sum + -1.0 / 40.0 * c7);
  }

  /**
   * From zero one step of any size arrives at the solution of the elementary problem, and the error estimate is zero
   * for the trees with up to four nodes.
   */
  lemma StepSolvesElementary(flow: (real, Vec) -> Vec, t: real, d: real)
    requires Shaped(flow) && Elementary(flow)
    ensures var k, next := StageSlopes(flow, Zero(flow, t), d), Step(flow, Zero(flow, t), d);
            var estimate := ErrorEstimate(k, next.dxdt, d);
            next.x == Solution(d) && forall i | 0 <= i < 8 :: estimate[i] == 0.0
  {
    hide StageSlopes, SlopesGraded, Elementary, Power, Order, NextState, Weights, ErrorEstimate;
    var k := StageSlopes(flow, Zero(flow, t), d);
    AllGraded(flow, t, d, k);
    var x := NextState(Zeros(17), k, d);
    forall i: nat | i < 17
      ensures x[i] == Solution(d)[i]
    {
      ResultGraded(k, d, i, Power(d, Order(i) - 1), Power(d, Order(i)));
    }
    assert x == Solution(d);
    EstimateOfStep(flow, t, d, k, x);
  }

  lemma EstimateOfStep(flow: (real, Vec) -> Vec, t: real, d: real, k: Slopes, x: Vec)
    requires Shaped(flow) && Elementary(flow) && SlopesGraded(k, d, 6) && x == Solution(d)
    ensures var estimate := ErrorEstimate(k, flow(t + d, x), d); forall i | 0 <= i < 8 :: estimate[i] == 0.0
  {
    hide Power, Order, ErrorEstimate, Estimated, Branches, Weights, Elementary, K1, K2, K3, K4, K5, K6;
    forall j: nat | j < 8
      ensures GradedAt(x, Weights()[..8], d, 0, j)
    {
    }
    SlopeGraded(flow, t + d, x, Weights()[..8], d);
    var k7 := flow(t + d, x);
    BranchesOfPrefix(Weights());
    forall i | 0 <= i < 8
      ensures ErrorEstimate(k, k7, d)[i] == 0.0
    {
      EmbeddedConditions(i);
      assert GradedAt(k.k1, K1(), d, 1, i) && GradedAt(k.k3, K3(), d, 1, i) && GradedAt(k.k4, K4(), d, 1, i);
      assert GradedAt(k.k5, K5(), d, 1, i) && GradedAt(k.k6, K6(), d, 1, i);
      assert GradedAt(k7, Branches(Weights()), d, 1, i);
      EstimateEntry(k, k7, d, i);
      EstimateVanishes(d, Power(d, Order(i) - 1), k.k1[i], k.k3[i], k.k4[i], k.k5[i], k.k6[i], k7[i],
                       K1()[i], K3()[i], K4()[i], K5()[i], K6()[i], Branches(Weights())[i]);
    }
  }

  lemma BranchesOfPrefix(x: Vec)
    requires |x| >= 8
    ensures Branches(x[..8]) == Branches(x)
  {
  }

  // ----- the solution

  /** A tree with n nodes has n times its weight in its branches. */
  predicate TreeWeight(i: nat)
    requires i < 17
  {
    Branches(Weights())[i] == (Order(i) as real) * Weights()[i]
  }

  lemma TreeWeights(i: nat)
    requires i < 17
    ensures TreeWeight(i)
  {
    assert TreeWeight(0) && TreeWeight(1) && TreeWeight(2) && TreeWeight(3) && TreeWeight(4) && TreeWeight(5);
    assert TreeWeight(6) && TreeWeight(7) && TreeWeight(8) && TreeWeight(9) && TreeWeight(10) && TreeWeight(11);
    assert TreeWeight(12) && TreeWeight(13) && TreeWeight(14) && TreeWeight(15) && TreeWeight(16);
  }

  /** Coefficients of c t^n. */
  function Monomial(n: nat, c: real): (r: Vec)
    ensures |r| == n + 1
  {
    Zeros(n) + [c]
  }

  lemma {:induction false} MonomialMeans(n: nat, c: real, t: real)
    ensures Poly(Monomial(n, c), t) == Product(Power(t, n), c)
  {
    if n == 0 {
      assert Monomial(0, c)[1..] == [];
    } else {
      MonomialMeans(n - 1, c, t);
      assert Monomial(n, c) == [0.0] + Monomial(n - 1, c);
      PolyUp(Monomial(n - 1, c), t);
      assert t * (Power(t, n - 1) * c) == (t * Power(t, n - 1)) * c;
    }
  }

  lemma MonomialDerivative(n: nat, c: real, nc: real)
    requires n > 0 && nc == (n as real) * c
    ensures Derivative(Monomial(n, c)) == Monomial(n - 1, nc)
  {
    var l, r := Derivative(Monomial(n, c)), Monomial(n - 1, nc);
    forall j | 0 <= j < n
      ensures l[j] == r[j]
    {
    }
  }

  /** Every component of the solution is a power of time whose derivative is the product of its branches. */
  lemma SolutionSolves(t: real, i: nat)
    requires i < 17
    ensures var q := Monomial(Order(i), Weights()[i]);
            Poly(q, t) == Solution(t)[i] && Poly(Derivative(q), t) == Branches(Solution(t))[i]
    ensures Solution(0.0)[i] == 0.0
  {
    hide Poly, Derivative, Branches, Weights, Order, Power;
    var n, c := Order(i), Weights()[i];
    MonomialMeans(n, c, t);
    MonomialDerivative(n, c, (n as real) * c);
    MonomialMeans(n - 1, (n as real) * c, t);
    TreeWeights(i);
    forall j: nat | j < 8
      ensures GradedAt(Solution(t), Weights(), t, 0, j)
    {
    }
    BranchesGraded(Solution(t), Weights(), t);
    assert GradedAt(Branches(Solution(t)), Branches(Weights()), t, 1, i);
    OneMore(0.0, n - 1);
  }
}
