/**
 * A rank's screen from its tables, its input rows and its accumulations (adapter/cert_head.py, the norm and
 * screen kernels put together): the intervals it computes hold the exact logits.
 */
module CertScreen {
  import opened RealSums
  import opened CertBound
  import opened CertFloat
  import opened CertRound
  import opened CertNorm
  import opened CertArgmax
  import opened CertKernels
  import opened Lanes

  /** The arithmetic of a device: binary32 rounding, the bf16 cast, square root, the reduction orders of the norm
      kernel, and the accumulation constant. */
  datatype Machine = Machine(
    r: Rounding, rb: Rounding, root: Float -> Float, lanes: Tree, groups: Tree, NGP: nat, c: real)

  /** One rank's head shard: weights, screening copy, group residual norms and row norms. */
  datatype Head = Head(
    vstart: nat, V: nat, NG: nat, G: nat, W: seq<Vec>, D: seq<Vec>, rg: seq<seq<Float>>, nv: seq<Float>)

  /** The rows of a step, the screen's accumulation for every row and token, and the stock kernel's logits. */
  datatype Inputs = Inputs(x: seq<seq<Float>>, acc: seq<seq<Float>>, exact: seq<Row>)

  /** One rank's head shard and what the screen made of it. */
  datatype Rank = Rank(vstart: nat, V: nat, exact: seq<Row>, lo: seq<Row>, hi: seq<Row>, bad: seq<bool>)

  function ShardOf(r: Rank, slots: seq<int>, full: bool): Shard {
    Shard(r.vstart, r.V, r.exact, r.lo, r.hi, r.bad, slots, full)
  }

  ghost predicate Computes(k: Machine, h: Head) {
    && Rounds(k.r) && Monotone(k.rb) && IsRoot(k.root) && 0.0 <= k.c <= 0.5
    && Launched(k.lanes, k.groups, h.NG, h.G, k.NGP)
  }

  predicate Sized(h: Head, i: Inputs, M: nat) {
    && h.V >= 1 && |h.W| == |h.D| == |h.rg| == |h.nv| == h.V
    && (forall v :: 0 <= v < h.V ==> |h.rg[v]| == h.NG)
    && |i.x| == |i.acc| == |i.exact| == M
    && (forall m :: 0 <= m < M ==> |i.x[m]| == h.NG * h.G && |i.acc[m]| == |i.exact[m]| == h.V)
  }

  /** The table entries of a token are at least what they stand for. */
  ghost predicate Tabled(h: Head, v: nat)
    requires v < |h.W| == |h.D| == |h.rg| == |h.nv| && |h.rg[v]| == h.NG
  {
    && (forall g: nat :: g < h.NG ==> AboveNorm(h.rg[v][g], h.G, Group(h.G, Minus(h.W[v], h.D[v]), g)))
    && AboveNorm(h.nv[v], h.NG * h.G, h.W[v]) && AboveNorm(h.nv[v], h.NG * h.G, h.D[v])
  }

  /** Both products of a row and a token follow the accumulation model, and the exact logit is the rounded stock one. */
  ghost predicate Accumulated(k: Machine, h: Head, x: seq<Float>, v: nat, acc: Float, exact: Float)
    requires v < |h.W| == |h.D|
  {
    && IsFloat(k.r, acc) && (acc.Fin? ==> Accumulates(h.NG * h.G, k.c, h.D[v], Vals(x), acc.v))
    && exists stock: real :: Accumulates(h.NG * h.G, k.c, h.W[v], Vals(x), stock) && exact == k.rb(stock)
  }

  ghost predicate AllFinite(x: seq<Float>) { forall i :: 0 <= i < |x| ==> x[i].Fin? }

  /** What is taken from outside: the tables, and the accumulation model on rows without infinities and NaN. */
  ghost predicate Models(k: Machine, h: Head, i: Inputs, M: nat) {
    && Sized(h, i, M) && Computes(k, h) && (forall v :: 0 <= v < h.V ==> Tabled(h, v))
    && forall m, v :: 0 <= m < M && 0 <= v < h.V && AllFinite(i.x[m]) ==>
         Accumulated(k, h, i.x[m], v, i.acc[m][v], i.exact[m][v])
  }

  /** The interval of a token holds its exact logit, and its lower end is a number. */
  ghost predicate Held(lo: Float, exact: Float, hi: Float, bad: bool) {
    lo != NaN && (!bad ==> AtMost(lo, exact) && AtMost(exact, hi))
  }

  /** What the norm kernel leaves for a row. */
  ghost predicate Normed(k: Machine, h: Head, x: seq<Float>, xg: seq<Float>, xn: Float, bad: bool) {
    && |xg| == h.NG
    && (forall g :: 0 <= g < h.NG ==> SlackNorm(xg[g], Depth(k.lanes), h.G, Group(h.G, Vals(x), g)))
    && AboveNorm(xn, h.NG * h.G, Vals(x))
    && (!bad ==> AllFinite(x))
  }

  method NormRow(k: Machine, h: Head, x: seq<Float>) returns (xg: seq<Float>, xn: Float, bad: bool)
    requires Computes(k, h) && |x| == h.NG * h.G
    ensures Normed(k, h, x, xg, xn, bad)
  {
    xg, xn, bad := XNorm(k.r, k.root, k.lanes, k.groups, h.NG, h.G, k.NGP, x);
  }

  /** One row: its norms, and an interval for every token. */
  method ScreenRow(k: Machine, h: Head, i: Inputs, M: nat, m: nat) returns (lo: Row, hi: Row, bad: bool)
    requires Models(k, h, i, M) && m < M
    ensures |lo| == |hi| == h.V
    ensures forall v :: 0 <= v < h.V ==> Held(lo[v], i.exact[m][v], hi[v], bad)
  {
    var xg, xn;
    xg, xn, bad := NormRow(k, h, i.x[m]);
    hide Computes, Tabled, Accumulated, Held, AllFinite;
    lo, hi := [], [];
    for v := 0 to h.V
      invariant |lo| == |hi| == v
      invariant forall u :: 0 <= u < v ==> Held(lo[u], i.exact[m][u], hi[u], bad)
    {
      assert !bad ==> Accumulated(k, h, i.x[m], v, i.acc[m][v], i.exact[m][v]);
      var l, u := ScreenToken(k, h, i.x[m], v, i.acc[m][v], i.exact[m][v], xg, xn, bad);
      lo, hi := lo + [l], hi + [u];
    }
  }

  /** The kernel's tail before the stop rule. */
  method Unmasked(r: Rounding, rb: Rounding, acc: Float, xg: seq<Float>, rg: seq<Float>, xn: Float, nv: Float, c2: real)
    returns (lo: Float, hi: Float)
    requires |xg| == |rg|
    ensures lo == LoOf(r, rb, acc, BoundOf(r, Qb(r, xg, rg, |xg|), c2, xn, nv))
    ensures hi == HiOf(r, rb, acc, BoundOf(r, Qb(r, xg, rg, |xg|), c2, xn, nv))
  {
    hide LoOf, HiOf, BoundOf, Qb;
    lo, hi := Interval(r, rb, acc, xg, rg, xn, nv, c2, 0, []);
  }

  /** The interval of one row and token. */
  method ScreenToken(k: Machine, h: Head, x: seq<Float>, v: nat, acc: Float, ghost exact: Float, xg: seq<Float>,
                     xn: Float, bad: bool) returns (lo: Float, hi: Float)
    requires Computes(k, h) && v < |h.W| == |h.D| == |h.rg| == |h.nv| && |h.rg[v]| == h.NG && Tabled(h, v)
    requires |xg| == h.NG && Normed(k, h, x, xg, xn, bad) && (!bad ==> Accumulated(k, h, x, v, acc, exact))
    ensures Held(lo, exact, hi, bad)
  {
    hide Computes, Tabled, Accumulated, Normed, Held, LoOf, HiOf, BoundOf, Qb;
    lo, hi := Unmasked(k.r, k.rb, acc, xg, h.rg[v], xn, h.nv[v], 2.0 * k.c);
    RowHolds(k, h, x, v, acc, exact, xg, xn, bad, lo, hi);
  }

  /** The certificate, from what the norm kernel and the tables promise. */
  lemma RowHolds(k: Machine, h: Head, x: seq<Float>, v: nat, acc: Float, exact: Float, xg: seq<Float>, xn: Float,
                 bad: bool, lo: Float, hi: Float)
    requires Computes(k, h) && v < |h.W| == |h.D| == |h.rg| == |h.nv| && |h.rg[v]| == h.NG && Tabled(h, v)
    requires Normed(k, h, x, xg, xn, bad) && (!bad ==> Accumulated(k, h, x, v, acc, exact))
    requires lo == LoOf(k.r, k.rb, acc, BoundOf(k.r, Qb(k.r, xg, h.rg[v], h.NG), 2.0 * k.c, xn, h.nv[v]))
    requires hi == HiOf(k.r, k.rb, acc, BoundOf(k.r, Qb(k.r, xg, h.rg[v], h.NG), 2.0 * k.c, xn, h.nv[v]))
    ensures Held(lo, exact, hi, bad)
  {
    hide AboveNorm, SlackNorm, Rounds, Monotone, IsRoot, Launched, Accumulates, BoundOf, Qb;
    if !bad {
      var stock: real :| Accumulates(h.NG * h.G, k.c, h.W[v], Vals(x), stock) && exact == k.rb(stock);
      assert Narrow(h.NG, Depth(k.lanes)) by { LaunchedNarrow(k, h); }
      Certificate(k.r, k.rb, h.NG, h.G, Depth(k.lanes), h.W[v], h.D[v], Vals(x), xg, h.rg[v], xn, h.nv[v], k.c, acc,
        stock);
    }
  }

  lemma LaunchedNarrow(k: Machine, h: Head)
    requires Computes(k, h)
    ensures Narrow(h.NG, Depth(k.lanes))
  {}

  /** The norm and screen kernels on every row: whatever the reduction orders, the roundings, infinities and NaN, the
      intervals hold the exact logits in every row that is not flagged. */
  method ScreenHead(k: Machine, h: Head, i: Inputs, M: nat) returns (rank: Rank)
    requires Models(k, h, i, M)
    ensures rank.vstart == h.vstart && rank.V == h.V && rank.exact == i.exact
    ensures Bounded(ShardOf(rank, [], false), M) && Sound(ShardOf(rank, [], false), M)
  {
    var lo: seq<Row>, hi: seq<Row>, bad: seq<bool> := [], [], [];
    for m := 0 to M
      invariant |lo| == |hi| == |bad| == m
      invariant forall q :: 0 <= q < m ==> RowIs(h, i, q, lo, hi, bad)
    {
      var l, u, b := ScreenRow(k, h, i, M, m);
      ghost var lo0, hi0, bad0 := lo, hi, bad;
      lo, hi, bad := lo + [l], hi + [u], bad + [b];
      forall q | 0 <= q < m + 1 ensures RowIs(h, i, q, lo, hi, bad) {
        if q < m { assert RowIs(h, i, q, lo0, hi0, bad0); }
      }
    }
    rank := Rank(h.vstart, h.V, i.exact, lo, hi, bad);
    hide Models;
    RowsAreSound(h, i, M, rank);
  }

  ghost predicate RowIs(h: Head, i: Inputs, m: nat, lo: seq<Row>, hi: seq<Row>, bad: seq<bool>)
    requires m < |lo| == |hi| == |bad|
  {
    && m < |i.exact| && |lo[m]| == |hi[m]| == |i.exact[m]| == h.V
    && forall v :: 0 <= v < h.V ==> Held(lo[m][v], i.exact[m][v], hi[m][v], bad[m])
  }

  lemma RowsAreSound(h: Head, i: Inputs, M: nat, rank: Rank)
    requires rank.V == h.V >= 1 && rank.exact == i.exact && |i.exact| == |rank.lo| == |rank.hi| == |rank.bad| == M
    requires forall m :: 0 <= m < M ==> RowIs(h, i, m, rank.lo, rank.hi, rank.bad)
    ensures Bounded(ShardOf(rank, [], false), M) && Sound(ShardOf(rank, [], false), M)
  {
    hide AtMost;
    var s := ShardOf(rank, [], false);
    forall m | 0 <= m < M ensures |s.exact[m]| == |s.lo[m]| == |s.hi[m]| == s.V {
      assert RowIs(h, i, m, rank.lo, rank.hi, rank.bad);
    }
    forall m, v | 0 <= m < M && 0 <= v < s.V
      ensures s.lo[m][v] != NaN
      ensures !s.bad[m] ==> AtMost(s.lo[m][v], s.exact[m][v]) && AtMost(s.exact[m][v], s.hi[m][v])
    {
      assert RowIs(h, i, m, rank.lo, rank.hi, rank.bad);
      assert Held(rank.lo[m][v], i.exact[m][v], rank.hi[m][v], rank.bad[m]);
    }
  }
}
