/**
 * The row norms of the certificate (adapter/cert_head.py, _xnorm_kernel): why the rounded, inflated
 * square roots are at least the true norms, in any reduction order; and why rounding a table value up
 * gives the least float above it.
 */
module CertNorm {
  import opened RealSums
  import opened CertBound
  import opened CertFloat
  import opened CertRound
  import opened Lanes

  const INFL_X: real := 1.0 + 256.0 * U
  const X_ABS: real := 1.0 / 576460752303423488.0
  const DELTA: real := 1.0 / 295147905179352825856.0

  // ------------------------------------------------------------------------------------------
  // sums of squares in any reduction order
  // ------------------------------------------------------------------------------------------

  /** Sum of the squares of the lanes, rounded at every step. */
  function SquareSum(r: Rounding, t: Tree, v: seq<Float>): Float {
    match t
    case Leaf(j) => if j < |v| then Mul(r, v[j], v[j]) else Fin(0.0)
    case Node(a, b) => Add(r, SquareSum(r, a, v), SquareSum(r, b, v))
  }

  function ExactSquares(t: Tree, v: seq<Float>): real {
    match t
    case Leaf(j) => if j < |v| then Times(Val(v[j]), Val(v[j])) else 0.0
    case Node(a, b) => ExactSquares(a, v) + ExactSquares(b, v)
  }

  /** The rounded sum keeps all but a part in 2^24 per level of the tree. */
  ghost predicate NearSquares(r: Rounding, t: Tree, v: seq<Float>) {
    && AtLeast0(SquareSum(r, t, v)) && ExactSquares(t, v) >= 0.0
    && (SquareSum(r, t, v).Fin? ==> Above(SquareSum(r, t, v).v, ExactSquares(t, v), Depth(t) as real, Size(t) as real))
  }

  predicate Above(s: real, exact: real, d: real, e: real) { s >= exact - Times(d * U, exact) - e * ETA }

  lemma {:induction false} SquareSumLower(r: Rounding, t: Tree, v: seq<Float>)
    requires Rounds(r) && Depth(t) <= 500
    ensures NearSquares(r, t, v)
  {
    match t
    case Leaf(j) =>
      hide Rounds, Times, AtLeast0;
      if j < |v| { SquareLeaf(r, v[j]); } else { ZeroAtLeast0(); TimesUnits(1.0 * U); }
    case Node(a, b) =>
      SquareSumLower(r, a, v);
      SquareSumLower(r, b, v);
      SquareNode(r, a, b, v);
  }

  lemma SquareNode(r: Rounding, a: Tree, b: Tree, v: seq<Float>)
    requires Rounds(r) && Depth(Node(a, b)) <= 500 && NearSquares(r, a, v) && NearSquares(r, b, v)
    ensures NearSquares(r, Node(a, b), v)
  {
    hide Rounds, Times, Add, AtLeast0, Above;
    NodeDepth(a, b);
    var s := Add(r, SquareSum(r, a, v), SquareSum(r, b, v));
    AddNonneg(r, SquareSum(r, a, v), SquareSum(r, b, v));
    if s.Fin? {
      SquareNodeAbove((Depth(Node(a, b)) - 1) as real, SquareSum(r, a, v).v, ExactSquares(a, v), Depth(a) as real,
                      Size(a) as real, SquareSum(r, b, v).v, ExactSquares(b, v), Depth(b) as real, Size(b) as real,
                      s.v);
    }
  }

  lemma NodeDepth(a: Tree, b: Tree)
    ensures Depth(a) <= Depth(Node(a, b)) - 1 && Depth(b) <= Depth(Node(a, b)) - 1
    ensures Size(Node(a, b)) == Size(a) + Size(b) + 1
  {}

  lemma SquareNodeAbove(d: real, x: real, ea: real, da: real, m: real, y: real, eb: real, db: real, n: real, s: real)
    requires 0.0 <= da <= d <= 499.0 && 0.0 <= db <= d && ea >= 0.0 && eb >= 0.0 && m >= 1.0 && n >= 1.0
    requires Above(x, ea, da, m) && Above(y, eb, db, n) && s >= (1.0 - U) * (x + y) - ETA
    ensures Above(s, ea + eb, d + 1.0, m + n + 1.0)
  {
    AboveDeeper(x, ea, da, d, m);
    AboveDeeper(y, eb, db, d, n);
    hide Above, Times;
    NodeLower(d, ea, eb, x, y, s, m, n);
  }

  lemma AboveDeeper(s: real, exact: real, d: real, d': real, e: real)
    requires Above(s, exact, d, e) && d <= d' && exact >= 0.0
    ensures Above(s, exact, d', e)
  {
    TimesMono(d * U, d' * U, exact);
  }

  lemma SquareLeaf(r: Rounding, a: Float)
    requires Rounds(r)
    ensures AtLeast0(Mul(r, a, a)) && Times(Val(a), Val(a)) >= 0.0
    ensures Mul(r, a, a).Fin? ==> a.Fin? && Mul(r, a, a).v >= Times(a.v, a.v) - Times(1.0 * U, Times(a.v, a.v)) - ETA
  {
    SquareNonneg(Val(a));
    if a.Fin? { RoundsAt(r, Times(a.v, a.v)); }
    hide Rounds, Times;
  }

  lemma NodeLower(d: real, a: real, b: real, x: real, y: real, z: real, m: real, n: real)
    requires 0.0 <= d <= 499.0 && a >= 0.0 && b >= 0.0 && m >= 1.0 && n >= 1.0
    requires Above(x, a, d, m) && Above(y, b, d, n)
    requires z >= (1.0 - U) * (x + y) - ETA
    ensures Above(z, a + b, d + 1.0, m + n + 1.0)
  {
    var s := a + b;
    TimesAdd(d * U, a, b);
    var k := Times(d * U, s);
    assert Times((d + 1.0) * U, s) == k + U * s by { assert (d + 1.0) * U * s == d * U * s + U * s; }
    TimesNonneg(d * U, s);
    hide Times;
    var e := (m + n) * ETA;
    assert e == m * ETA + n * ETA && e >= 0.0;
    assert x + y >= s - k - e;
    assert (1.0 - U) * (s - k - e) == s - k - e - U * s + U * k + U * e;
  }

  /** A tree that covers n lanes sums all of them. */
  lemma {:induction false} SquaresByCount(t: Tree, v: seq<Float>, n: nat)
    requires |v| <= n && forall i: nat :: i >= n ==> Count(t, i) == 0
    ensures ExactSquares(t, v) == Sum(n, CountedSquares(t, v))
  {
    match t
    case Leaf(j) =>
      forall i: nat | i < n && i != j ensures CountedSquares(t, v)(i) == 0.0 { TimesUnits(SquareAt(v, i)); }
      assert Count(t, j) == 1;
      TimesUnits(SquareAt(v, j));
      SumSingle(n, CountedSquares(t, v), j);
    case Node(a, b) =>
      hide Times;
      forall i: nat | i >= n ensures Count(a, i) == 0 && Count(b, i) == 0 { assert Count(t, i) == 0; }
      SquaresByCount(a, v, n);
      SquaresByCount(b, v, n);
      forall i: nat | i < n ensures CountedSquares(t, v)(i) == CountedSquares(a, v)(i) + CountedSquares(b, v)(i) {
        TimesAdd(SquareAt(v, i), Count(a, i) as real, Count(b, i) as real);
      }
      SumAdd(n, CountedSquares(t, v), CountedSquares(a, v), CountedSquares(b, v));
  }

  function SquareAt(v: seq<Float>, i: nat): real { if i < |v| then Times(Val(v[i]), Val(v[i])) else 0.0 }

  function CountedSquares(t: Tree, v: seq<Float>): nat -> real {
    (i: nat) => Times(Count(t, i) as real, SquareAt(v, i))
  }

  lemma TreeSquares(t: Tree, v: seq<Float>, n: nat)
    requires Covers(t, n) && |v| <= n
    ensures ExactSquares(t, v) == Dot(|v|, Vals(v), Vals(v))
  {
    SquaresByCount(t, v, n);
    forall i: nat | i < n ensures CountedSquares(t, v)(i) == SquareAt(v, i) { TimesUnits(SquareAt(v, i)); }
    var sq := (i: nat) => SquareAt(v, i);
    SumEq(n, CountedSquares(t, v), sq);
    PaddingZero(|v|, n, sq);
    SumEq(|v|, sq, Prod(Vals(v), Vals(v)));
  }

  lemma {:induction false} PaddingZero(m: nat, n: nat, f: nat -> real)
    requires m <= n && forall i: nat :: m <= i < n ==> f(i) == 0.0
    ensures Sum(n, f) == Sum(m, f)
  {
    if m < n { PaddingZero(m, n - 1, f); }
  }

  // ------------------------------------------------------------------------------------------
  // the inflated square roots
  // ------------------------------------------------------------------------------------------

  /** A correctly rounded square root, free of roots: at least (1 - u)·y for every y whose square fits. */
  ghost predicate IsRoot(root: Float -> Float) {
    forall s: Float :: AtLeast0(s) ==>
      AtLeast0(root(s)) &&
      (root(s).Fin? ==> s.Fin? && forall y: real :: 0.0 <= y && Times(y, y) <= s.v ==> root(s).v >= (1.0 - U) * y)
  }

  /** xg = sqrt(sum x²) · INFL_X + X_ABS */
  function GroupNorm(r: Rounding, root: Float -> Float, t: Tree, x: seq<Float>): Float {
    Add(r, Mul(r, root(SquareSum(r, t, x)), Fin(INFL_X)), Fin(X_ABS))
  }

  /** xn = sqrt(sum xg²) · INFL_X */
  function RowNorm(r: Rounding, root: Float -> Float, t: Tree, xg: seq<Float>): Float {
    Mul(r, root(SquareSum(r, t, xg)), Fin(INFL_X))
  }

  /** The pieces of an inflated root, as one inequality. */
  lemma RootLower(r: Rounding, root: Float -> Float, s: Float, y: real)
    requires Rounds(r) && IsRoot(root) && AtLeast0(s)
    ensures AtLeast0(Mul(r, root(s), Fin(INFL_X)))
    ensures Mul(r, root(s), Fin(INFL_X)).Fin? ==>
              s.Fin? && (0.0 <= y && Times(y, y) <= s.v ==>
                Mul(r, root(s), Fin(INFL_X)).v >= (1.0 - U) * (INFL_X * ((1.0 - U) * y)) - ETA)
  {
    hide Rounds, Times;
    ZeroAtLeast0X();
    MulNonneg(r, root(s), Fin(INFL_X));
    if Mul(r, root(s), Fin(INFL_X)).Fin? && 0.0 <= y && Times(y, y) <= s.v {
      InflTimes(root(s).v, y);
    }
  }

  lemma ZeroAtLeast0X()
    ensures AtLeast0(Fin(INFL_X)) && AtLeast0(Fin(X_ABS))
  {}

  lemma InflTimes(a: real, y: real)
    requires a >= (1.0 - U) * y
    ensures Times(a, INFL_X) >= INFL_X * ((1.0 - U) * y)
  {}

  /** The inflated root of a sum near Y covers Y, and by more the fewer levels the sum took. */
  lemma GroupCovers(d: real, e: real, Y: real, s: real, z: real)
    requires 0.0 <= d <= 500.0 && 0.0 <= e <= 4096.0 && Y >= 0.0 && z >= 0.0
    requires s >= Y - Times(d * U, Y) - e * ETA
    requires forall y: real :: 0.0 <= y && Times(y, y) <= s ==>
               z >= (1.0 - U) * ((1.0 - U) * (INFL_X * ((1.0 - U) * y)) - ETA + X_ABS) - ETA
    requires z >= (1.0 - U) * (X_ABS - ETA) - ETA
    ensures Times(1.0 + (500.0 - d) * U, Y) <= Times(z, z)
  {
    if Times(1.0 + (500.0 - d) * U, Y) > Times(z, z) {
      var a := Times(SHRINK, z);
      assert a == SHRINK * z;
      var y := a - DELTA;
      ShrunkSquare(z, Y, d, 1.0 + (500.0 - d) * U);
      EtaSmall(e);
      assert Times(y, y) <= s by { ShiftSquare(a, s); }
      assert z >= (1.0 - U) * ((1.0 - U) * (INFL_X * ((1.0 - U) * y)) - ETA + X_ABS) - ETA;
      GroupArithmetic(z, y);
    }
  }

  // What an inflated root can afford to lose.
  const SHRINK: real := 1.0 - 251.0 * U

  /** (SHRINK·z)² <= (1 - d·u)·Y when z² < k·Y and k is at most 1 + (500 - d)·u. */
  lemma ShrunkSquare(z: real, Y: real, d: real, k: real)
    requires 0.0 <= d <= 500.0 && Y >= 0.0 && 1.0 <= k <= 1.0 + (500.0 - d) * U && Times(k, Y) > Times(z, z)
    ensures Times(Times(SHRINK, z), Times(SHRINK, z)) <= Y - Times(d * U, Y)
  {
    var q, c := Times(z, z), SHRINK * SHRINK;
    assert Times(Times(SHRINK, z), Times(SHRINK, z)) == Times(c, q) by {
      assert (SHRINK * z) * (SHRINK * z) == c * (z * z) by { assert SHRINK * z * SHRINK == SHRINK * SHRINK * z; }
    }
    TimesMono(q, Times(k, Y), c);
    assert Times(c, Times(k, Y)) == Times(c * k, Y) by { TimesAssoc(c, k, Y); }
    assert c == 1.0 - 502.0 * U + 63001.0 * U * U;
    assert c * k <= c * (1.0 + (500.0 - d) * U);
    assert c * (1.0 + (500.0 - d) * U) <= 1.0 - d * U;
    TimesMono(c * k, 1.0 - d * U, Y);
    assert Times(1.0 - d * U, Y) == Y - Times(d * U, Y);
  }

  lemma EtaSmall(e: real)
    requires 0.0 <= e <= 4096.0
    ensures e * ETA <= DELTA * DELTA
  {
    assert 4096.0 * ETA <= DELTA * DELTA;
  }

  lemma ShiftSquare(a: real, s: real)
    requires a >= 2.0 * DELTA
    requires s >= Times(a, a) - DELTA * DELTA
    ensures Times(a - DELTA, a - DELTA) <= s
  {
    assert Times(a - DELTA, a - DELTA) == Times(a, a) - 2.0 * (DELTA * a) + DELTA * DELTA;
    assert DELTA * a >= DELTA * (2.0 * DELTA) by { TimesMono(2.0 * DELTA, a, DELTA); }
  }

  lemma GroupArithmetic(z: real, y: real)
    requires y >= SHRINK * z - DELTA && z >= 0.0
    ensures (1.0 - U) * ((1.0 - U) * (INFL_X * ((1.0 - U) * y)) - ETA + X_ABS) - ETA > z
  {}

  /** The inflated root of a sum of squares near Y, when Y is not minute, covers Y. */
  lemma RowCovers(d: real, e: real, Y: real, s: real, z: real)
    requires 0.0 <= d <= 480.0 && 0.0 <= e <= 1024.0 && Y >= 0.25 * X_ABS * X_ABS && z >= 0.0
    requires s >= Y - Times(d * U, Y) - e * ETA
    requires forall y: real :: 0.0 <= y && Times(y, y) <= s ==> z >= (1.0 - U) * (INFL_X * ((1.0 - U) * y)) - ETA
    ensures Y <= Times(z, z)
  {
    if Y > Times(z, z) {
      SmallEta(e, Y);
      assert Times((d + 16.0) * U, Y) == Times(d * U, Y) + 16.0 * U * Y by {
        assert (d + 16.0) * U * Y == d * U * Y + 16.0 * U * Y;
      }
      TimesUnits(Y);
      ShrunkSquare(z, Y, d + 16.0, 1.0);
      var y := Times(SHRINK, z);
      assert y == SHRINK * z && Times(y, y) <= s;
      FloorRoot(d, Y, s, z);
      RowArithmetic(z, y);
    }
  }

  lemma SmallEta(e: real, Y: real)
    requires 0.0 <= e <= 1024.0 && Y >= 0.25 * X_ABS * X_ABS
    ensures e * ETA <= 16.0 * U * Y
  {
    assert 1024.0 * ETA <= 16.0 * U * (0.25 * X_ABS * X_ABS);
  }

  lemma FloorRoot(d: real, Y: real, s: real, z: real)
    requires 0.0 <= d <= 480.0 && Y >= 0.25 * X_ABS * X_ABS && s >= Y - Times(d * U, Y) - 16.0 * U * Y
    requires forall y: real :: 0.0 <= y && Times(y, y) <= s ==> z >= (1.0 - U) * (INFL_X * ((1.0 - U) * y)) - ETA
    ensures z >= 0.125 * X_ABS
  {
    var y := 0.25 * X_ABS;
    TimesMono(d * U, 480.0 * U, Y);
    assert Times(480.0 * U, Y) == 480.0 * U * Y;
    assert s >= 0.5 * Y;
    assert Times(y, y) == 0.0625 * X_ABS * X_ABS <= s;
  }

  lemma RowArithmetic(z: real, y: real)
    requires y >= SHRINK * z && z >= 0.125 * X_ABS
    ensures (1.0 - U) * (INFL_X * ((1.0 - U) * y)) - ETA > z
  {}

  /** The group norm, when finite, exceeds the true norm of the group by the slack its reduction leaves, is clear of
      underflow, and saw only finite lanes. */
  lemma GroupNormCovers(r: Rounding, root: Float -> Float, t: Tree, n: nat, x: seq<Float>)
    requires Rounds(r) && IsRoot(root) && Covers(t, n) && |x| <= n <= 2048 && Depth(t) <= 500
    ensures SlackNorm(GroupNorm(r, root, t, x), Depth(t), |x|, Vals(x))
    ensures GroupNorm(r, root, t, x).Fin? ==> forall i :: 0 <= i < |x| ==> x[i].Fin?
    ensures GroupNorm(r, root, t, x).Fin? ==> GroupNorm(r, root, t, x).v >= 0.5 * X_ABS
  {
    hide Rounds, IsRoot, Covers, Times, Dot, AtLeast0, SquareSum, Mul, Add;
    var s := SquareSum(r, t, x);
    var m := Mul(r, root(s), Fin(INFL_X));
    SquareSumLower(r, t, x);
    TreeSquares(t, x, n);
    CoverShape(t, n);
    ZeroAtLeast0X();
    RootLower(r, root, s, 0.0);
    AddNonneg(r, m, Fin(X_ABS));
    var z := GroupNorm(r, root, t, x);
    if z.Fin? {
      NonnegVal(z);
      NonnegVal(m);
      GroupFloor(m.v, z.v);
      forall y: real | 0.0 <= y && Times(y, y) <= s.v
        ensures z.v >= (1.0 - U) * ((1.0 - U) * (INFL_X * ((1.0 - U) * y)) - ETA + X_ABS) - ETA
      {
        RootLower(r, root, s, y);
        GroupChain(m.v, z.v, (1.0 - U) * (INFL_X * ((1.0 - U) * y)) - ETA);
      }
      GroupCovers(Depth(t) as real, Size(t) as real, ExactSquares(t, x), s.v, z.v);
      forall i | 0 <= i < |x| ensures x[i].Fin? { Covered(t, n, i); FiniteLanes(r, t, x, i); }
    }
  }

  lemma Covered(t: Tree, n: nat, i: nat)
    requires Covers(t, n) && i < n
    ensures Count(t, i) == 1
  {}

  lemma GroupFloor(m: real, z: real)
    requires m >= 0.0 && z >= (1.0 - U) * (m + X_ABS) - ETA
    ensures z >= (1.0 - U) * (X_ABS - ETA) - ETA && z >= 0.5 * X_ABS
  {}

  lemma GroupChain(m: real, z: real, w: real)
    requires m >= w && z >= (1.0 - U) * (m + X_ABS) - ETA
    ensures z >= (1.0 - U) * (w + X_ABS) - ETA
  {}

  /** A finite sum of squares has finite lanes. */
  lemma {:induction false} FiniteLanes(r: Rounding, t: Tree, v: seq<Float>, i: nat)
    requires SquareSum(r, t, v).Fin? && i < |v| && Count(t, i) > 0
    ensures v[i].Fin?
  {
    match t
    case Leaf(j) =>
    case Node(a, b) => if Count(a, i) > 0 { FiniteLanes(r, a, v, i); } else { FiniteLanes(r, b, v, i); }
  }

  /** A finite row norm is at least the norm of the finite group norms. */
  lemma RowNormCovers(r: Rounding, root: Float -> Float, t: Tree, n: nat, xg: seq<Float>)
    requires Rounds(r) && IsRoot(root) && Covers(t, n) && 1 <= |xg| <= n <= 512 && Depth(t) <= 480
    requires forall g :: 0 <= g < |xg| && xg[g].Fin? ==> xg[g].v >= 0.5 * X_ABS
    ensures AboveNorm(RowNorm(r, root, t, xg), |xg|, Vals(xg))
    ensures RowNorm(r, root, t, xg).Fin? ==> forall g :: 0 <= g < |xg| ==> xg[g].Fin?
  {
    hide Rounds, IsRoot, Covers, Times, Dot, AtLeast0, SquareSum, Mul, Add;
    var s := SquareSum(r, t, xg);
    SquareSumLower(r, t, xg);
    TreeSquares(t, xg, n);
    CoverShape(t, n);
    RootLower(r, root, s, 0.0);
    var z := RowNorm(r, root, t, xg);
    if z.Fin? {
      NonnegVal(z);
      forall g | 0 <= g < |xg| ensures xg[g].Fin? { Covered(t, n, g); FiniteLanes(r, t, xg, g); }
      FirstSquare(xg);
      forall y: real | 0.0 <= y && Times(y, y) <= s.v ensures z.v >= (1.0 - U) * (INFL_X * ((1.0 - U) * y)) - ETA {
        RootLower(r, root, s, y);
      }
      RowCovers(Depth(t) as real, Size(t) as real, ExactSquares(t, xg), s.v, z.v);
    }
  }

  lemma FirstSquare(xg: seq<Float>)
    requires |xg| >= 1 && xg[0].Fin? && xg[0].v >= 0.5 * X_ABS
    ensures Dot(|xg|, Vals(xg), Vals(xg)) >= 0.25 * X_ABS * X_ABS
  {
    var p := Prod(Vals(xg), Vals(xg));
    forall i: nat | i < |xg| ensures p(i) >= 0.0 { SquareNonneg(Vals(xg)(i)); }
    SumNonneg(|xg|, p);
    assert p(0) == Times(xg[0].v, xg[0].v);
    TimesMono(0.5 * X_ABS, xg[0].v, 0.5 * X_ABS);
    TimesMono(0.5 * X_ABS, xg[0].v, xg[0].v);
    assert Times(0.5 * X_ABS, 0.5 * X_ABS) == 0.25 * X_ABS * X_ABS;
  }

  // ------------------------------------------------------------------------------------------
  // the kernel
  // ------------------------------------------------------------------------------------------

  function GroupOf(G: nat, x: seq<Float>, g: nat): seq<Float>
    requires g * G + G <= |x|
  {
    x[g * G..g * G + G]
  }

  lemma GroupFits(NG: nat, G: nat, g: nat)
    requires g < NG
    ensures g * G + G <= NG * G
  {
    if g + 1 < NG { GroupFits(NG - 1, G, g); }
    assert NG * G == (NG - 1) * G + G;
  }

  /** The reductions _xnorm_kernel is launched with: over the lanes of a group, and over the padded groups. */
  ghost predicate Launched(lanes: Tree, groups: Tree, NG: nat, G: nat, NGP: nat) {
    && 1 <= NG <= NGP <= 512 && G <= 2048 && Covers(lanes, G) && Covers(groups, NGP) && Depth(groups) <= 480
    && Narrow(NG, Depth(lanes))
  }

  /** At 5120 columns any group of 32 to 256 columns may be added in any order at all; wider ones in the tree orders
      of at most 480 levels. */
  lemma AnyOrder(lanes: Tree, groups: Tree, G: nat, NG: nat, NGP: nat)
    requires G in {32, 64, 128, 256, 512, 1024} && NG * G == 5120 && NG <= NGP < 2 * NG
    requires Covers(lanes, G) && Covers(groups, NGP) && (G >= 512 ==> Depth(lanes) <= 480)
    ensures Launched(lanes, groups, NG, G, NGP)
  {
    CoverShape(lanes, G);
    CoverShape(groups, NGP);
    assert NG == 5120 / G;
  }

  /** _xnorm_kernel for one row: group norms, the row norm and the non-finite flag. */
  method XNorm(r: Rounding, root: Float -> Float, lanes: Tree, groups: Tree, NG: nat, G: nat, NGP: nat, x: seq<Float>)
    returns (xg: seq<Float>, xn: Float, bad: bool)
    requires Rounds(r) && IsRoot(root) && |x| == NG * G && Launched(lanes, groups, NG, G, NGP)
    ensures |xg| == NG
    ensures forall g :: 0 <= g < NG ==> SlackNorm(xg[g], Depth(lanes), G, Group(G, Vals(x), g))
    ensures AboveNorm(xn, NG * G, Vals(x))
    ensures bad <==> !xn.Fin?
    ensures !bad ==> forall g :: 0 <= g < NG ==> xg[g].Fin?
    ensures !bad ==> forall i :: 0 <= i < |x| ==> x[i].Fin?
  {
    hide Rounds, IsRoot, Covers, AboveNorm, SlackNorm, AtLeast0, GroupNorm, RowNorm, Vals, Group;
    xg := [];
    for g := 0 to NG
      invariant |xg| == g
      invariant forall k :: 0 <= k < g ==> SlackNorm(xg[k], Depth(lanes), G, Group(G, Vals(x), k))
      invariant forall k :: 0 <= k < g && xg[k].Fin? ==> xg[k].v >= 0.5 * X_ABS && GroupFinite(NG, G, x, k)
    {
      GroupFits(NG, G, g);
      var part := GroupOf(G, x, g);
      GroupNormCovers(r, root, lanes, G, part);
      SameGroup(G, x, g, GroupNorm(r, root, lanes, part), Depth(lanes));
      xg := xg + [GroupNorm(r, root, lanes, part)];
    }
    RowNormCovers(r, root, groups, NGP, xg);
    xn := RowNorm(r, root, groups, xg);
    WholeRow(NG, G, x, xg, xn, Depth(lanes));
    bad := xn == NaN || xn == PosInf;
    NotNegInf(xn, NG * G, Vals(x));
    if !bad { WholeFinite(NG, G, x); }
  }

  /** The lanes of group k are finite. */
  ghost predicate GroupFinite(NG: nat, G: nat, x: seq<Float>, k: nat)
    requires |x| == NG * G && k < NG
  {
    GroupFits(NG, G, k);
    forall i :: 0 <= i < G ==> GroupOf(G, x, k)[i].Fin?
  }

  lemma WholeFinite(NG: nat, G: nat, x: seq<Float>)
    requires |x| == NG * G && forall k :: 0 <= k < NG ==> GroupFinite(NG, G, x, k)
    ensures forall i :: 0 <= i < |x| ==> x[i].Fin?
  {
    forall i | 0 <= i < |x| ensures x[i].Fin? {
      var k := GroupIndex(NG, G, i);
      GroupFits(NG, G, k);
      assert GroupFinite(NG, G, x, k) && GroupOf(G, x, k)[i - k * G] == x[i];
    }
  }

  lemma {:induction false} GroupIndex(NG: nat, G: nat, i: nat) returns (k: nat)
    requires i < NG * G
    ensures k < NG && k * G <= i < k * G + G
  {
    if i >= (NG - 1) * G {
      k := NG - 1;
      assert NG * G == (NG - 1) * G + G;
    } else {
      k := GroupIndex(NG - 1, G, i);
    }
  }

  lemma NotNegInf(a: Float, n: nat, v: Vec)
    requires AboveNorm(a, n, v)
    ensures a != NegInf
  {}

  lemma SameGroup(G: nat, x: seq<Float>, g: nat, a: Float, d: nat)
    requires g * G + G <= |x| && SlackNorm(a, d, G, Vals(GroupOf(G, x, g)))
    ensures SlackNorm(a, d, G, Group(G, Vals(x), g))
  {
    hide AtLeast0;
    var u, v := Vals(GroupOf(G, x, g)), Group(G, Vals(x), g);
    forall i: nat | i < G ensures Prod(u, u)(i) == Prod(v, v)(i) {
      assert GroupOf(G, x, g)[i] == x[g * G + i];
    }
    SumEq(G, Prod(u, u), Prod(v, v));
  }

  /** The group norms together bound the row. */
  lemma WholeRow(NG: nat, G: nat, x: seq<Float>, xg: seq<Float>, xn: Float, d: nat)
    requires |x| == NG * G && |xg| == NG && AboveNorm(xn, NG, Vals(xg)) && d <= 500
    requires forall g :: 0 <= g < NG ==> SlackNorm(xg[g], d, G, Group(G, Vals(x), g))
    requires xn.Fin? ==> forall g :: 0 <= g < NG ==> xg[g].Fin?
    ensures AboveNorm(xn, NG * G, Vals(x))
  {
    if xn.Fin? {
      hide AtLeast0, Times, Val;
      var v, sq := Vals(x), Prod(Vals(xg), Vals(xg));
      SumGroups(NG, G, Prod(v, v));
      var sums := GroupSums(G, Prod(v, v));
      forall g: nat | g < NG ensures sums(g) <= sq(g) {
        var u := Group(G, v, g);
        assert SlackNorm(xg[g], d, G, u) && Vals(xg)(g) == Val(xg[g]);
        CauchySchwarz(G, u, u);
        TimesMono(1.0, 1.0 + (500 - d) as real * U, Dot(G, u, u));
        TimesUnits(Dot(G, u, u));
        ValFin(xg[g]);
        SumEq(G, Group(G, Prod(v, v), g), Prod(u, u));
        assert sums(g) == Dot(G, u, u);
      }
      SumMono(NG, sums, sq);
    }
  }

  lemma ValFin(a: Float)
    ensures a.Fin? ==> Val(a) == a.v
  {}

  // ------------------------------------------------------------------------------------------
  // rounding the tables up
  // ------------------------------------------------------------------------------------------

  /** f is a nearest element of the format to y, and up the least element above f. */
  ghost predicate NearestWithNext(format: real -> bool, y: real, f: real, up: real) {
    && format(f) && (forall g: real :: format(g) ==> Abs(f - y) <= Abs(g - y))
    && format(up) && up > f && (forall g: real :: format(g) && g > f ==> g >= up)
  }

  /** _round_up: the nearest value, bumped to the next one when it fell short. */
  function RoundUp(y: real, f: real, up: real): real { if f < y then up else f }

  /** Rounding a table value up gives the least value of the format that is not below it. */
  lemma RoundUpIsCeiling(format: real -> bool, y: real, f: real, up: real)
    requires NearestWithNext(format, y, f, up)
    ensures RoundUp(y, f, up) >= y && format(RoundUp(y, f, up))
    ensures forall g: real :: format(g) && g >= y ==> g >= RoundUp(y, f, up)
  {
    assert Abs(f - y) <= Abs(up - y);
  }
}
