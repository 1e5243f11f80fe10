/**
 * The certified LM head (adapter/cert_head.py): the masked, sharded logits have the arg-max of the exact
 * ones, ties, stop-id masks, bad rows and full mode included; and the host state that arms it.
 */
module CertArgmax {
  import opened CertFloat

  /** Strictly below in the order of arg-max, where NaN is above everything. */
  predicate Less(a: Float, b: Float) {
    match (a, b)
    case (NaN, _) => false
    case (_, NaN) => true
    case (_, NegInf) => false
    case (NegInf, _) => true
    case (PosInf, _) => false
    case (_, PosInf) => true
    case (Fin(x), Fin(y)) => x < y
  }

  type Row = seq<Float>

  /** The first index of a greatest entry. */
  function FirstArgmax(row: Row): (k: nat)
    requires |row| >= 1
    ensures k < |row|
    ensures forall j :: 0 <= j < |row| ==> !Less(row[k], row[j])
    ensures forall j :: 0 <= j < k ==> Less(row[j], row[k])
  {
    if |row| == 1 then 0
    else
      var k := FirstArgmax(row[..|row| - 1]);
      if Less(row[k], row[|row| - 1]) then |row| - 1 else k
  }

  /** Where the two rows differ, a column on which they agree beats both. */
  ghost predicate Beaten(a: Row, b: Row, i: nat)
    requires i < |a| == |b|
  {
    exists w :: 0 <= w < |a| && a[w] == b[w] && Less(a[i], a[w]) && Less(b[i], b[w])
  }

  ghost predicate Agree(a: Row, b: Row) {
    |a| == |b| && forall i :: 0 <= i < |a| && a[i] != b[i] ==> Beaten(a, b, i)
  }

  lemma AgreeArgmax(a: Row, b: Row)
    requires Agree(a, b) && |a| >= 1
    ensures FirstArgmax(a) == FirstArgmax(b)
    ensures a[FirstArgmax(a)] == b[FirstArgmax(a)]
  {
    var k, l := FirstArgmax(a), FirstArgmax(b);
    assert a[k] != b[k] ==> Beaten(a, b, k);
    assert a[l] != b[l] ==> Beaten(a, b, l);
    assert a[k] == b[k] && a[l] == b[l];
  }

  lemma BeatenPad(p: Row, a: Row, b: Row, q: Row, q': Row, p': Row, i: nat)
    requires i < |a| == |b| && Beaten(a, b, i) && |p| == |p'| && |q| == |q'|
    ensures Beaten(p + a + q, p' + b + q', |p| + i)
  {
    var w :| 0 <= w < |a| && a[w] == b[w] && Less(a[i], a[w]) && Less(b[i], b[w]);
    var x, y := p + a + q, p' + b + q';
    assert x[|p| + w] == a[w] && y[|p| + w] == b[w] && x[|p| + i] == a[i] && y[|p| + i] == b[i];
  }

  lemma AgreeConcat(a: Row, b: Row, c: Row, d: Row)
    requires Agree(a, b) && Agree(c, d)
    ensures Agree(a + c, b + d)
  {
    forall i | 0 <= i < |a + c| && (a + c)[i] != (b + d)[i] ensures Beaten(a + c, b + d, i) {
      if i < |a| {
        BeatenPad([], a, b, c, d, [], i);
        assert [] + a + c == a + c && [] + b + d == b + d;
      } else {
        BeatenPad(a, c, d, [], [], b, i - |a|);
        assert a + c + [] == a + c && b + d + [] == b + d;
      }
    }
  }

  // ------------------------------------------------------------------------------------------
  // one rank
  // ------------------------------------------------------------------------------------------

  /**
   * One rank's shard: first global id, exact logits and screened interval for every row, the bad-row
   * flags, the stop slots, and whether the step is in full mode.
   */
  datatype Shard = Shard(
    vstart: nat, V: nat, exact: seq<Row>, lo: seq<Row>, hi: seq<Row>, bad: seq<bool>, slots: seq<int>, full: bool)

  predicate Shaped(s: Shard, M: nat) {
    && s.V >= 1 && |s.exact| == |s.lo| == |s.hi| == |s.bad| == M
    && forall m :: 0 <= m < M ==> |s.exact[m]| == |s.lo[m]| == |s.hi[m]| == s.V
  }

  predicate IsStop(s: Shard, v: nat) { s.vstart + v in s.slots }

  function LoAt(s: Shard, m: nat, v: nat): Float
    requires m < |s.lo| && v < |s.lo[m]|
  {
    if IsStop(s, v) then NegInf else s.lo[m][v]
  }

  function HiAt(s: Shard, m: nat, v: nat): Float
    requires m < |s.hi| && v < |s.hi[m]|
  {
    if IsStop(s, v) then PosInf else s.hi[m][v]
  }

  function Larger(a: Float, b: Float): Float { if Less(a, b) then b else a }

  /** T: the greatest lower end over the first n tokens of the shard. */
  function Threshold(s: Shard, m: nat, n: nat): Float
    requires m < |s.lo| && n <= |s.lo[m]|
  {
    if n == 0 then NegInf else Larger(Threshold(s, m, n - 1), LoAt(s, m, n - 1))
  }

  function Tile(v: nat, bv: nat): nat
    requires bv > 0
  {
    v / bv
  }

  /** A candidate of the tile in some row. */
  ghost predicate Hit(s: Shard, M: nat, bv: nat, tile: nat)
    requires Shaped(s, M)
  {
    exists m, v ::
      0 <= m < M && 0 <= v < s.V && bv > 0 && Tile(v, bv) == tile && AtMost(Threshold(s, m, s.V), HiAt(s, m, v))
  }

  ghost predicate Needed(s: Shard, M: nat, bv: nat, tile: nat)
    requires Shaped(s, M)
  {
    s.full || (exists m :: 0 <= m < M && s.bad[m]) || Hit(s, M, bv, tile)
  }

  /** The refined row: exact on the needed tiles, minus infinity elsewhere. */
  ghost function Refined(s: Shard, M: nat, bv: nat, m: nat): (row: Row)
    requires Shaped(s, M) && m < M && bv > 0
    ensures |row| == s.V
  {
    seq(s.V, v requires 0 <= v < s.V => if Needed(s, M, bv, Tile(v, bv)) then s.exact[m][v] else NegInf)
  }

  /** The interval holds the exact logit in every row that is not bad. */
  ghost predicate Sound(s: Shard, M: nat)
    requires Shaped(s, M)
  {
    forall m, v :: 0 <= m < M && !s.bad[m] && 0 <= v < s.V ==>
      AtMost(s.lo[m][v], s.exact[m][v]) && AtMost(s.exact[m][v], s.hi[m][v])
  }

  /** A later mask: minus infinity on the ids in `ids`. */
  function Mask(row: Row, start: nat, ids: set<int>): (out: Row)
    ensures |out| == |row|
  {
    seq(|row|, v requires 0 <= v < |row| => if start + v in ids then NegInf else row[v])
  }

  lemma {:induction false} ThresholdIs(s: Shard, m: nat, n: nat)
    requires m < |s.lo| && n <= |s.lo[m]|
    requires forall v :: 0 <= v < n ==> s.lo[m][v] != NaN
    ensures Threshold(s, m, n) != NaN
    ensures Threshold(s, m, n) == NegInf
            || exists v :: 0 <= v < n && LoAt(s, m, v) == Threshold(s, m, n) && !IsStop(s, v)
  {
    if n > 0 { ThresholdIs(s, m, n - 1); }
  }

  /**
   * One rank, one row: whatever subset of the stop slots is masked afterwards, the refined row agrees with
   * the exact one, because a column that was not computed lies below one that was.
   */
  lemma LocalAgree(s: Shard, M: nat, bv: nat, m: nat, ids: set<int>)
    requires Shaped(s, M) && m < M && bv > 0 && Sound(s, M)
    requires !s.full ==> forall id :: id in ids ==> id in s.slots
    ensures Agree(Mask(Refined(s, M, bv, m), s.vstart, ids), Mask(s.exact[m], s.vstart, ids))
  {
    var a, b := Mask(Refined(s, M, bv, m), s.vstart, ids), Mask(s.exact[m], s.vstart, ids);
    forall i | 0 <= i < |a| && a[i] != b[i] ensures Beaten(a, b, i) {
      LeftOut(s, M, bv, m, ids, i);
      var w := Winner(s, M, bv, m, i);
      LeftOut(s, M, bv, m, ids, w);
      hide Needed, Sound, Mask, Refined, Tile;
      assert a[w] == b[w] && Less(a[i], a[w]) && Less(b[i], b[w]);
    }
  }

  /** One column of the masked rows. */
  lemma LeftOut(s: Shard, M: nat, bv: nat, m: nat, ids: set<int>, i: nat)
    requires Shaped(s, M) && m < M && bv > 0 && i < s.V
    ensures var a, b := Mask(Refined(s, M, bv, m), s.vstart, ids), Mask(s.exact[m], s.vstart, ids);
            && (Needed(s, M, bv, Tile(i, bv)) ==> a[i] == b[i])
            && (!Needed(s, M, bv, Tile(i, bv)) ==> a[i] == NegInf && !s.bad[m])
            && (s.vstart + i !in ids ==> b[i] == s.exact[m][i])
            && (s.vstart + i in ids ==> a[i] == b[i] == NegInf)
  {
    hide Tile, Hit;
  }

  /** A column left out has a computed, unmaskable column strictly above it. */
  lemma Winner(s: Shard, M: nat, bv: nat, m: nat, i: nat) returns (w: nat)
    requires Shaped(s, M) && m < M && bv > 0 && Sound(s, M) && i < s.V && !s.bad[m]
    requires !Needed(s, M, bv, Tile(i, bv))
    ensures w < s.V && !IsStop(s, w) && Needed(s, M, bv, Tile(w, bv))
    ensures s.exact[m][i] != NaN && Less(s.exact[m][i], s.exact[m][w])
  {
    hide Tile;
    var T := Threshold(s, m, s.V);
    ThresholdIs(s, m, s.V);
    hide Threshold;
    assert !AtMost(T, HiAt(s, m, i));
    assert AtMost(s.lo[m][i], s.exact[m][i]) && AtMost(s.exact[m][i], s.hi[m][i]);
    w :| 0 <= w < s.V && LoAt(s, m, w) == T && !IsStop(s, w);
    assert AtMost(T, s.exact[m][w]) && AtMost(s.exact[m][w], HiAt(s, m, w));
    assert Hit(s, M, bv, Tile(w, bv));
  }

  // ------------------------------------------------------------------------------------------
  // all ranks
  // ------------------------------------------------------------------------------------------

  function Concat(rows: seq<Row>): Row {
    if rows == [] then [] else Concat(rows[..|rows| - 1]) + rows[|rows| - 1]
  }

  ghost function RefinedRows(shards: seq<Shard>, M: nat, bv: nat, m: nat): (rows: seq<Row>)
    requires m < M && bv > 0 && forall k :: 0 <= k < |shards| ==> Shaped(shards[k], M)
    ensures |rows| == |shards|
  {
    seq(|shards|, k requires 0 <= k < |shards| => Refined(shards[k], M, bv, m))
  }

  function ExactRows(shards: seq<Shard>, M: nat, m: nat): (rows: seq<Row>)
    requires m < M && forall k :: 0 <= k < |shards| ==> Shaped(shards[k], M)
    ensures |rows| == |shards|
  {
    seq(|shards|, k requires 0 <= k < |shards| && Shaped(shards[k], M) => shards[k].exact[m])
  }

  function Width(shards: seq<Shard>): nat {
    if shards == [] then 0 else Width(shards[..|shards| - 1]) + shards[|shards| - 1].V
  }

  /** The shards cut the vocabulary in rank order. */
  ghost predicate Contiguous(shards: seq<Shard>) {
    forall k :: 0 <= k < |shards| ==> shards[k].vstart == Width(shards[..k])
  }

  lemma MaskConcat(a: Row, c: Row, ids: set<int>)
    ensures Mask(a + c, 0, ids) == Mask(a, 0, ids) + Mask(c, |a|, ids)
  {}

  lemma {:induction false} GatheredAgree(shards: seq<Shard>, M: nat, bv: nat, m: nat, ids: set<int>)
    requires m < M && bv > 0 && Contiguous(shards)
    requires forall k :: 0 <= k < |shards| ==> Shaped(shards[k], M) && Sound(shards[k], M)
    requires forall k, id :: 0 <= k < |shards| && !shards[k].full && id in ids ==> id in shards[k].slots
    ensures |Concat(RefinedRows(shards, M, bv, m))| == Width(shards)
    ensures Agree(Mask(Concat(RefinedRows(shards, M, bv, m)), 0, ids), Mask(Concat(ExactRows(shards, M, m)), 0, ids))
  {
    if shards != [] {
      var n := |shards| - 1;
      var head, s := shards[..n], shards[n];
      forall k | 0 <= k < n ensures head[k].vstart == Width(head[..k]) { assert head[..k] == shards[..k]; }
      GatheredAgree(head, M, bv, m, ids);
      var a, b := RefinedRows(shards, M, bv, m), ExactRows(shards, M, m);
      assert a[..n] == RefinedRows(head, M, bv, m) && b[..n] == ExactRows(head, M, m);
      LocalAgree(s, M, bv, m, ids);
      MaskConcat(Concat(a[..n]), a[n], ids);
      MaskConcat(Concat(b[..n]), b[n], ids);
      AgreeConcat(Mask(Concat(a[..n]), 0, ids), Mask(Concat(b[..n]), 0, ids),
                  Mask(a[n], s.vstart, ids), Mask(b[n], s.vstart, ids));
    }
  }

  /**
   * For any number of ranks, shards, rows and tile width, in every row: the first arg-max of the gathered
   * masked logits is that of the exact logits, and carries the exact value, whatever subset of the ids in
   * every rank's stop slots is set to minus infinity afterwards (any ids at all in full mode).
   */
  lemma MaskedArgmaxExact(shards: seq<Shard>, M: nat, bv: nat, m: nat, ids: set<int>)
    requires m < M && bv > 0 && Contiguous(shards) && shards != []
    requires forall k :: 0 <= k < |shards| ==> Shaped(shards[k], M) && Sound(shards[k], M)
    requires forall k, id :: 0 <= k < |shards| && !shards[k].full && id in ids ==> id in shards[k].slots
    ensures var got := Mask(Concat(RefinedRows(shards, M, bv, m)), 0, ids);
            var want := Mask(Concat(ExactRows(shards, M, m)), 0, ids);
            && |got| == |want| >= 1 && FirstArgmax(got) == FirstArgmax(want)
            && got[FirstArgmax(got)] == want[FirstArgmax(got)]
  {
    GatheredAgree(shards, M, bv, m, ids);
    assert Width(shards) >= shards[|shards| - 1].V;
    AgreeArgmax(Mask(Concat(RefinedRows(shards, M, bv, m)), 0, ids), Mask(Concat(ExactRows(shards, M, m)), 0, ids));
  }

  /** The stop slots matter: an id masked later but absent from the slots can change the arg-max. */
  lemma SlotsNeeded()
    ensures var row: Row := [Fin(2.0), Fin(1.0)];
            var s := Shard(0, 2, [row], [row], [row], [false], [], false);
            Shaped(s, 1) && Sound(s, 1)
            && FirstArgmax(Mask(Refined(s, 1, 1, 0), 0, {0})) != FirstArgmax(Mask(s.exact[0], 0, {0}))
  {
    var s := Shard(0, 2, [[Fin(2.0), Fin(1.0)]], [[Fin(2.0), Fin(1.0)]], [[Fin(2.0), Fin(1.0)]], [false], [], false);
    assert Threshold(s, 0, 1) == Fin(2.0);
    assert Threshold(s, 0, 2) == Fin(2.0);
    assert !Hit(s, 1, 1, 1);
    var a, b := Mask(Refined(s, 1, 1, 0), 0, {0}), Mask(s.exact[0], 0, {0});
    assert a[0] == NegInf && a[1] == NegInf;
    assert b[0] == NegInf && b[1] == Fin(1.0);
    assert Less(b[0], b[1]) && !Less(a[0], a[1]);
    assert FirstArgmax(b) == 1 && FirstArgmax(a) == 0;
  }
}

/** The screen and refine kernels over their device buffers. */
module CertKernels {
  import opened CertFloat
  import opened CertArgmax

  ghost predicate Bounded(s: Shard, M: nat) {
    Shaped(s, M) && forall m, v :: 0 <= m < M && 0 <= v < s.V ==> s.lo[m][v] != NaN
  }

  /** T is the greatest lower end among the tokens in `seen`. */
  ghost predicate Tops(s: Shard, M: nat, m: nat, T: Float, seen: iset<nat>)
    requires Bounded(s, M) && m < M
  {
    && T != NaN
    && (T == NegInf || exists v :: v in seen && v < s.V && LoAt(s, m, v) == T)
    && (forall v :: v in seen && v < s.V ==> !Less(T, LoAt(s, m, v)))
  }

  lemma TopsUnion(s: Shard, M: nat, m: nat, T: Float, A: iset<nat>, T': Float, B: iset<nat>)
    requires Bounded(s, M) && m < M && Tops(s, M, m, T, A) && Tops(s, M, m, T', B)
    ensures Tops(s, M, m, Larger(T, T'), A + B)
  {
    hide LoAt;
    var big := Larger(T, T');
    forall v | v in A + B && v < s.V ensures !Less(big, LoAt(s, m, v)) {
      if v in A { assert !Less(T, LoAt(s, m, v)); } else { assert !Less(T', LoAt(s, m, v)); }
    }
    if big != NegInf {
      if big == T {
        var v :| v in A && v < s.V && LoAt(s, m, v) == T;
        assert v in A + B;
      } else {
        var v :| v in B && v < s.V && LoAt(s, m, v) == T';
        assert v in A + B;
      }
    }
  }

  lemma TopsOne(s: Shard, M: nat, m: nat, v: nat)
    requires Bounded(s, M) && m < M && v < s.V
    ensures Tops(s, M, m, LoAt(s, m, v), iset{v})
  {
    assert v in iset{v};
  }

  predicate Within(v: nat, start: nat, len: nat) { start <= v < start + len }

  ghost function Span(start: nat, len: nat): iset<nat> { iset v: nat | Within(v, start, len) }

  lemma {:induction false} ThresholdTops(s: Shard, M: nat, m: nat, n: nat)
    requires Bounded(s, M) && m < M && n <= s.V
    ensures Tops(s, M, m, Threshold(s, m, n), Span(0, n))
  {
    if n > 0 {
      ThresholdTops(s, M, m, n - 1);
      TopsOne(s, M, m, n - 1);
      TopsUnion(s, M, m, Threshold(s, m, n - 1), Span(0, n - 1), LoAt(s, m, n - 1), iset{n - 1});
      assert Span(0, n - 1) + iset{n - 1} == Span(0, n);
    }
  }

  /** The greatest lower end does not depend on the order in which it was found. */
  lemma TopsUnique(s: Shard, M: nat, m: nat, T: Float, seen: iset<nat>)
    requires Bounded(s, M) && m < M && Tops(s, M, m, T, seen) && forall v: nat :: v < s.V ==> v in seen
    ensures T == Threshold(s, m, s.V)
  {
    ThresholdTops(s, M, m, s.V);
    var U := Threshold(s, m, s.V);
    hide Threshold, LoAt;
    assert T != NegInf ==> exists v: nat :: v < s.V && LoAt(s, m, v) == T;
    assert !Less(U, T);
    assert !Less(T, U);
  }

  ghost function TileOf(BN: nat, pid: nat): iset<nat> { Span(pid * BN, BN) }

  ghost function Seen(BN: nat, order: seq<nat>, n: nat): iset<nat>
    requires n <= |order|
  {
    if n == 0 then iset{} else Seen(BN, order, n - 1) + TileOf(BN, order[n - 1])
  }

  lemma {:induction false} SeenHas(BN: nat, order: seq<nat>, n: nat, k: nat)
    requires k < n <= |order|
    ensures TileOf(BN, order[k]) <= Seen(BN, order, n)
  {
    if k < n - 1 { SeenHas(BN, order, n - 1, k); }
  }

  /** The programs of a launch in the order they ran: every tile of the shard among them. */
  ghost predicate RunsAll(order: seq<nat>, BN: nat, V: nat) {
    BN >= 1 && forall v: nat :: v < V ==> Tile(v, BN) in order
  }

  lemma TileHolds(v: nat, BN: nat)
    requires BN >= 1
    ensures Tile(v, BN) * BN <= v < Tile(v, BN) * BN + BN
  {
    assert v == (v / BN) * BN + v % BN;
  }

  lemma AllSeen(order: seq<nat>, BN: nat, V: nat)
    requires RunsAll(order, BN, V)
    ensures forall v: nat :: v < V ==> v in Seen(BN, order, |order|)
  {
    forall v: nat | v < V ensures v in Seen(BN, order, |order|) {
      TileHolds(v, BN);
      var k :| 0 <= k < |order| && order[k] == Tile(v, BN);
      SeenHas(BN, order, |order|, k);
    }
  }

  /** The tile's greatest lower end in one row. */
  method TileMax(s: Shard, M: nat, m: nat, BN: nat, pid: nat) returns (best: Float)
    requires Bounded(s, M) && m < M
    ensures Tops(s, M, m, best, TileOf(BN, pid))
  {
    best := NegInf;
    var start := pid * BN;
    ghost var seen: iset<nat> := iset{};
    for lane := 0 to BN
      invariant Tops(s, M, m, best, seen) && seen == Span(start, lane)
    {
      var v := start + lane;
      if v < s.V {
        TopsOne(s, M, m, v);
        TopsUnion(s, M, m, best, seen, LoAt(s, m, v), iset{v});
        best := Larger(best, LoAt(s, m, v));
      }
      seen := seen + iset{v};
    }
  }

  /** The screen kernel: hi for every token, and the row thresholds by atomic max, tile by tile in any order. */
  method Screen(s: Shard, M: nat, BN: nat, order: seq<nat>, hi: array2<Float>, thr: array<Float>)
    requires Bounded(s, M) && RunsAll(order, BN, s.V)
    requires hi.Length0 == M == thr.Length && hi.Length1 == s.V
    requires !s.full ==> forall m :: 0 <= m < M ==> thr[m] == NegInf
    modifies hi, thr
    ensures s.full ==> forall m :: 0 <= m < M ==> thr[m] == old(thr[m])
    ensures !s.full ==> forall m :: 0 <= m < M ==> thr[m] == Threshold(s, m, s.V)
    ensures !s.full ==> forall m, v :: 0 <= m < M && 0 <= v < s.V ==> hi[m, v] == HiAt(s, m, v)
  {
    if s.full { return; }
    for n := 0 to |order|
      invariant forall m :: 0 <= m < M ==> Tops(s, M, m, thr[m], Seen(BN, order, n))
      invariant forall m, v :: 0 <= m < M && v in Seen(BN, order, n) && 0 <= v < s.V ==> hi[m, v] == HiAt(s, m, v)
    {
      ScreenProgram(s, M, BN, order[n], Seen(BN, order, n), hi, thr);
    }
    AllSeen(order, BN, s.V);
    forall m | 0 <= m < M ensures thr[m] == Threshold(s, m, s.V) {
      TopsUnique(s, M, m, thr[m], Seen(BN, order, |order|));
    }
  }

  method ScreenProgram(s: Shard, M: nat, BN: nat, pid: nat, ghost seen: iset<nat>, hi: array2<Float>, thr: array<Float>)
    requires Bounded(s, M) && hi.Length0 == M == thr.Length && hi.Length1 == s.V
    requires forall m :: 0 <= m < M ==> Tops(s, M, m, thr[m], seen)
    requires forall m, v :: 0 <= m < M && v in seen && 0 <= v < s.V ==> hi[m, v] == HiAt(s, m, v)
    modifies hi, thr
    ensures forall m :: 0 <= m < M ==> Tops(s, M, m, thr[m], seen + TileOf(BN, pid))
    ensures forall m, v :: 0 <= m < M && v in seen + TileOf(BN, pid) && 0 <= v < s.V ==> hi[m, v] == HiAt(s, m, v)
  {
    var start := pid * BN;
    forall m, v | 0 <= m < M && 0 <= v < s.V && start <= v < start + BN { hi[m, v] := HiAt(s, m, v); }
    hide Tops, HiAt, LoAt;
    for m := 0 to M
      invariant forall k :: 0 <= k < m ==> Tops(s, M, k, thr[k], seen + TileOf(BN, pid))
      invariant forall k :: m <= k < M ==> Tops(s, M, k, thr[k], seen)
      invariant forall m, v :: 0 <= m < M && v in seen + TileOf(BN, pid) && 0 <= v < s.V ==> hi[m, v] == HiAt(s, m, v)
    {
      var best := TileMax(s, M, m, BN, pid);
      TopsUnion(s, M, m, thr[m], seen, best, TileOf(BN, pid));
      thr[m] := Larger(thr[m], best);
    }
  }

  /** Whether the tile has a candidate in some row, read from the buffers. */
  method TileHit(s: Shard, M: nat, bv: nat, pid: nat, hi: array2<Float>, thr: array<Float>) returns (hit: bool)
    requires Shaped(s, M) && bv >= 1 && hi.Length0 == M == thr.Length && hi.Length1 == s.V
    ensures hit <==> exists m, v :: 0 <= m < M && 0 <= v < s.V && Tile(v, bv) == pid && AtMost(thr[m], hi[m, v])
  {
    hit := false;
    var start := pid * bv;
    for m := 0 to M
      invariant hit <==> exists k, v :: 0 <= k < m && 0 <= v < s.V && Tile(v, bv) == pid && AtMost(thr[k], hi[k, v])
    {
      var before := hit;
      for lane := 0 to bv
        invariant hit <==> before || exists v :: start <= v < start + lane && 0 <= v < s.V && AtMost(thr[m], hi[m, v])
      {
        var v := start + lane;
        if v < s.V && AtMost(thr[m], hi[m, v]) { hit := true; }
      }
      forall v: nat ensures Tile(v, bv) == pid <==> start <= v < start + bv { TileRange(v, bv, pid); }
    }
  }

  lemma TileRange(v: nat, bv: nat, pid: nat)
    requires bv >= 1
    ensures Tile(v, bv) == pid <==> pid * bv <= v < pid * bv + bv
  {
    TileHolds(v, bv);
    var q := Tile(v, bv);
    hide Tile;
    if q < pid { Multiples(q + 1, pid, bv); }
    if q > pid { Multiples(pid + 1, q, bv); }
  }

  lemma Multiples(a: nat, b: nat, n: nat)
    requires 1 <= a <= b
    ensures a * n <= b * n && a * n == (a - 1) * n + n
  {
    assert (b - a) * n >= 0;
  }

  /** The refine kernel: every program stores either its tile's exact logits or minus infinity. */
  method Refine(s: Shard, M: nat, bv: nat, order: seq<nat>, hi: array2<Float>, thr: array<Float>, out: array2<Float>)
    requires Shaped(s, M) && RunsAll(order, bv, s.V)
    requires hi.Length0 == M == thr.Length == out.Length0 && hi.Length1 == s.V == out.Length1 && out != hi
    requires !s.full ==> forall m :: 0 <= m < M ==> thr[m] == Threshold(s, m, s.V)
    requires !s.full ==> forall m, v :: 0 <= m < M && 0 <= v < s.V ==> hi[m, v] == HiAt(s, m, v)
    modifies out
    ensures forall m, v :: 0 <= m < M && 0 <= v < s.V ==> out[m, v] == Refined(s, M, bv, m)[v]
  {
    for n := 0 to |order|
      invariant forall k, m, v :: 0 <= k < n && 0 <= m < M && 0 <= v < s.V && Tile(v, bv) == order[k] ==>
                  out[m, v] == Refined(s, M, bv, m)[v]
    {
      var need := TileNeeded(s, M, bv, order[n], hi, thr);
      hide Needed, Tile;
      forall m, v | 0 <= m < M && 0 <= v < s.V && Tile(v, bv) == order[n] {
        out[m, v] := if need then s.exact[m][v] else NegInf;
      }
    }
    forall m, v | 0 <= m < M && 0 <= v < s.V ensures out[m, v] == Refined(s, M, bv, m)[v] {
      assert Tile(v, bv) in order;
    }
  }

  method TileNeeded(s: Shard, M: nat, bv: nat, pid: nat, hi: array2<Float>, thr: array<Float>) returns (need: bool)
    requires Shaped(s, M) && bv >= 1 && hi.Length0 == M == thr.Length && hi.Length1 == s.V
    requires !s.full ==> forall m :: 0 <= m < M ==> thr[m] == Threshold(s, m, s.V)
    requires !s.full ==> forall m, v :: 0 <= m < M && 0 <= v < s.V ==> hi[m, v] == HiAt(s, m, v)
    ensures need == Needed(s, M, bv, pid)
  {
    var bad := false;
    for m := 0 to M
      invariant bad <==> exists k :: 0 <= k < m && s.bad[k]
    {
      bad := bad || s.bad[m];
    }
    var hit := TileHit(s, M, bv, pid, hi, thr);
    hide Threshold, HiAt, Tile;
    need := s.full || hit || bad;
  }

  /**
   * certified_logits on one rank: whatever was in the buffers and in whatever order the programs ran, the
   * output is the refined matrix; in full mode that is the exact one.
   */
  method CertifiedLogits(s: Shard, M: nat, BN: nat, bv: nat, screenOrder: seq<nat>, refineOrder: seq<nat>, junk: Float)
    returns (out: array2<Float>)
    requires Bounded(s, M) && RunsAll(screenOrder, BN, s.V) && RunsAll(refineOrder, bv, s.V)
    ensures out.Length0 == M && out.Length1 == s.V
    ensures forall m, v :: 0 <= m < M && 0 <= v < s.V ==> out[m, v] == Refined(s, M, bv, m)[v]
    ensures s.full ==> forall m, v :: 0 <= m < M && 0 <= v < s.V ==> out[m, v] == s.exact[m][v]
  {
    var hi := new Float[M, s.V]((_, _) => junk);
    var thr := new Float[M](_ => junk);
    if !s.full {
      for m := 0 to M
        invariant forall k :: 0 <= k < m ==> thr[k] == NegInf
      {
        thr[m] := NegInf;
      }
    }
    Screen(s, M, BN, screenOrder, hi, thr);
    out := new Float[M, s.V]((_, _) => junk);
    Refine(s, M, bv, refineOrder, hi, thr, out);
  }
}

/** The host state that arms the certified head, and a verify step end to end. */
module CertBuffers {
  import opened Wrappers
  import opened CertFloat
  import opened CertArgmax
  import opened CertKernels
  import opened CertScreen
  import opened SortedIds

  const NSTOP := 64

  datatype Penalizer = Penalizer(prepared: bool, minNewTokens: bool)

  datatype Sampling = Sampling(
    allGreedy: bool, customProcessor: bool, logitBias: bool, grammarMask: bool,
    required: bool, penalizers: seq<Penalizer>)

  /** The scheduler's batch: what reads the logits, and the stop ids of each request. */
  datatype Batch = Batch(returnLogprob: bool, hasGrammar: bool, sampling: Option<Sampling>, stopIds: seq<seq<int>>)

  /** Every consumer of the verify logits is the greedy arg-max, up to the min-new-tokens mask. */
  predicate OnlyArgmax(b: Batch) {
    && !b.returnLogprob && !b.hasGrammar
    && (b.sampling.Some? ==>
          var s := b.sampling.value;
          && s.allGreedy && !s.customProcessor && !s.logitBias && !s.grammarMask
          && (s.required ==>
                forall k :: 0 <= k < |s.penalizers| && s.penalizers[k].prepared ==> s.penalizers[k].minNewTokens))
  }

  /** The ids a min-new-tokens penalizer may set to minus infinity after the head. */
  ghost function MayMask(b: Batch): (ids: set<int>)
    ensures forall id :: id in ids <==>
              b.sampling.Some? && b.sampling.value.required && exists k :: 0 <= k < |b.stopIds| && id in b.stopIds[k]
  {
    if b.sampling.Some? && b.sampling.value.required
    then set k: nat, j: nat | k < |b.stopIds| && j < |b.stopIds[k]| :: b.stopIds[k][j]
    else {}
  }

  function Padded(ids: seq<int>): (s: seq<int>)
    requires |ids| <= NSTOP
    ensures |s| == NSTOP
  {
    ids + seq(NSTOP - |ids|, _ => -1)
  }

  class Buffers {
    var flag: int
    var flagHost: int
    var stop: seq<int>
    var stopHost: seq<int>

    /** The device copies are what the host last wrote. */
    ghost predicate Valid()
      reads this
    {
      && flag == flagHost && (flag == 0 || flag == 1)
      && |stopHost| <= NSTOP && stop == Padded(stopHost)
    }

    constructor ()
      ensures Valid() && flag == 0 && stopHost == []
    {
      flag, flagHost := 0, 0;
      stop := seq(NSTOP, _ => -1);
      stopHost := [];
      new;
      assert stop == Padded([]);
    }

    method SetFlag(armed: bool)
      requires Valid()
      modifies this`flag, this`flagHost
      ensures Valid() && flag == if armed then 1 else 0
    {
      var v := if armed then 1 else 0;
      if flagHost != v {
        flag := v;
        flagHost := v;
      }
    }

    method SetStop(ids: seq<int>)
      requires Valid() && |ids| <= NSTOP
      modifies this`stop, this`stopHost
      ensures Valid() && stopHost == ids
    {
      if stopHost == ids { return; }
      stop := Padded(ids);
      stopHost := ids;
    }

    /** step_armed: whether masked logits are safe for this batch, and the stop ids they must respect. */
    method StepArmed(b: Batch) returns (armed: bool, ids: seq<int>)
      ensures armed <==> OnlyArgmax(b) && |MayMask(b)| <= NSTOP
      ensures armed ==> !b.returnLogprob && !b.hasGrammar
      ensures armed && b.sampling.Some? ==>
                var s := b.sampling.value;
                && s.allGreedy && !s.customProcessor && !s.logitBias && !s.grammarMask
                && (s.required ==> forall p :: p in s.penalizers && p.prepared ==> p.minNewTokens)
      ensures !armed && b.sampling.None? ==> b.returnLogprob || b.hasGrammar
      ensures !armed && b.sampling.Some? && !b.returnLogprob && !b.hasGrammar ==>
                var s := b.sampling.value;
                || !s.allGreedy || s.customProcessor || s.logitBias || s.grammarMask
                || (s.required && (|MayMask(b)| > 64 || exists p :: p in s.penalizers && p.prepared && !p.minNewTokens))
      ensures armed ==> Increasing(ids) && |ids| <= 64 && forall id :: id in ids <==>
                b.sampling.Some? && b.sampling.value.required && exists k :: 0 <= k < |b.stopIds| && id in b.stopIds[k]
      ensures !armed ==> ids == []
    {
      if b.returnLogprob || b.hasGrammar { return false, []; }
      if b.sampling.None? { return true, []; }
      var si := b.sampling.value;
      if !si.allGreedy || si.customProcessor || si.logitBias || si.grammarMask { return false, []; }
      var stops: seq<int> := [];
      if si.required {
        for k := 0 to |si.penalizers|
          invariant forall j :: 0 <= j < k && si.penalizers[j].prepared ==> si.penalizers[j].minNewTokens
        {
          if si.penalizers[k].prepared && !si.penalizers[k].minNewTokens { return false, []; }
        }
        stops := UnionIds(b.stopIds);
        IncreasingCount(stops);
        assert Members(stops) == MayMask(b);
        if |stops| > NSTOP { return false, []; }
      }
      armed := true;
      ids := stops;
      IncreasingCount(ids);
      assert Members(ids) == MayMask(b);
    }

    /** The union of the requests' stop ids, sorted. */
    static method UnionIds(requests: seq<seq<int>>) returns (stops: seq<int>)
      ensures Increasing(stops)
      ensures forall id :: id in stops <==> exists k :: 0 <= k < |requests| && id in requests[k]
    {
      stops := [];
      for k := 0 to |requests|
        invariant Increasing(stops)
        invariant forall id :: id in stops <==> exists i :: 0 <= i < k && id in requests[i]
      {
        ghost var before := stops;
        for j := 0 to |requests[k]|
          invariant Increasing(stops)
          invariant forall id :: id in stops <==> id in before || id in requests[k][..j]
        {
          if requests[k][j] !in stops { stops := Insert(stops, requests[k][j]); }
        }
      }
    }

    /** Before a verify forward: afterwards the slots hold every id this batch may mask, stale ones besides. */
    method RunNonCompact(b: Batch) returns (armed: bool)
      requires Valid()
      modifies this
      ensures Valid() && flag == if armed then 1 else 0
      ensures armed <==> OnlyArgmax(b) && |MayMask(b)| <= NSTOP
      ensures armed && b.sampling.Some? && b.sampling.value.required ==>
                forall k, id :: 0 <= k < |b.stopIds| && id in b.stopIds[k] ==> id in stop
      ensures !armed || MayMask(b) == {} ==> stop == old(stop) && stopHost == old(stopHost)
    {
      var ids;
      armed, ids := StepArmed(b);
      assert armed ==> forall id :: id in MayMask(b) <==> id in ids;
      assert ids != [] ==> ids[0] in ids;
      if armed && ids != [] { SetStop(ids); }
      assert armed ==> forall id :: id in ids ==> id in stop;
      SetFlag(armed);
    }

    method RunCompact()
      requires Valid()
      modifies this
      ensures Valid() && flag == 0 && stop == old(stop)
    {
      SetFlag(false);
    }

    method RunIdleParticipation()
      requires Valid()
      modifies this
      ensures Valid() && flag == 0 && stop == old(stop)
    {
      SetFlag(false);
    }
  }

  ghost predicate RanksFit(ranks: seq<Rank>, M: nat) {
    && ranks != []
    && (forall k :: 0 <= k < |ranks| ==>
          Bounded(ShardOf(ranks[k], [], false), M) && Sound(ShardOf(ranks[k], [], false), M))
    && Contiguous(seq(|ranks|, k requires 0 <= k < |ranks| => ShardOf(ranks[k], [], false)))
  }

  function WithSlots(ranks: seq<Rank>, slots: seq<seq<int>>, full: seq<bool>): (s: seq<Shard>)
    requires |slots| == |full| == |ranks|
    ensures |s| == |ranks|
  {
    seq(|ranks|, k requires 0 <= k < |ranks| => ShardOf(ranks[k], slots[k], full[k]))
  }

  lemma {:induction false} SameWidth(a: seq<Shard>, b: seq<Shard>)
    requires |a| == |b| && forall k :: 0 <= k < |a| ==> a[k].V == b[k].V
    ensures Width(a) == Width(b)
  {
    if a != [] { SameWidth(a[..|a| - 1], b[..|b| - 1]); }
  }

  lemma SlotsIrrelevant(ranks: seq<Rank>, M: nat, slots: seq<seq<int>>, full: seq<bool>)
    requires RanksFit(ranks, M) && |slots| == |full| == |ranks|
    ensures forall k :: 0 <= k < |ranks| ==>
              Bounded(WithSlots(ranks, slots, full)[k], M) && Sound(WithSlots(ranks, slots, full)[k], M)
    ensures Contiguous(WithSlots(ranks, slots, full))
  {
    var bare := seq(|ranks|, k requires 0 <= k < |ranks| => ShardOf(ranks[k], [], false));
    var s := WithSlots(ranks, slots, full);
    forall k | 0 <= k < |ranks| ensures s[k].vstart == Width(s[..k]) {
      SameWidth(s[..k], bare[..k]);
      assert bare[k].vstart == Width(bare[..k]);
    }
    forall k | 0 <= k < |ranks| ensures Bounded(s[k], M) && Sound(s[k], M) {
      assert Bounded(ShardOf(ranks[k], [], false), M) && Sound(ShardOf(ranks[k], [], false), M);
    }
  }

  predicate RowFits(r: Rank, m: nat) { m < |r.exact| }

  /** Row m of the exact logits, rank by rank. */
  function ExactOf(ranks: seq<Rank>, m: nat): seq<Row>
    requires forall k :: 0 <= k < |ranks| ==> RowFits(ranks[k], m)
  {
    seq(|ranks|, k requires 0 <= k < |ranks| && RowFits(ranks[k], m) => ranks[k].exact[m])
  }

  /** Row m of one rank's output. */
  method OutputRow(s: Shard, M: nat, BN: nat, bv: nat, screenOrder: seq<nat>, refineOrder: seq<nat>, junk: Float,
                   m: nat)
    returns (row: Row)
    requires Bounded(s, M) && RunsAll(screenOrder, BN, s.V) && RunsAll(refineOrder, bv, s.V) && m < M
    ensures row == Refined(s, M, bv, m)
  {
    var out := CertifiedLogits(s, M, BN, bv, screenOrder, refineOrder, junk);
    row := [];
    for v := 0 to s.V
      invariant |row| == v && forall k :: 0 <= k < v ==> row[k] == Refined(s, M, bv, m)[k]
    {
      row := row + [out[m, v]];
    }
  }

  /** Ids a min-new-tokens penalizer of this batch may mask. */
  ghost predicate Maskable(b: Batch, ids: set<int>) {
    forall id :: id in ids ==>
      b.sampling.Some? && b.sampling.value.required && exists k :: 0 <= k < |b.stopIds| && id in b.stopIds[k]
  }

  /** The step after the screen: every rank arms its own buffers from the batch and refines its shard. */
  method ArgmaxStep(bufs: seq<Buffers>, b: Batch, ranks: seq<Rank>, M: nat, BN: nat, bv: nat,
                    screenOrders: seq<seq<nat>>, refineOrders: seq<seq<nat>>, junk: Float, m: nat, ids: set<int>)
    returns (token: nat)
    requires RanksFit(ranks, M) && m < M && Maskable(b, ids)
    requires |bufs| == |ranks| == |screenOrders| == |refineOrders|
    requires forall k :: 0 <= k < |ranks| ==>
              RunsAll(screenOrders[k], BN, ranks[k].V) && RunsAll(refineOrders[k], bv, ranks[k].V)
    requires forall k :: 0 <= k < |bufs| ==> bufs[k].Valid()
    modifies bufs
    ensures forall k :: 0 <= k < |bufs| ==> bufs[k].Valid()
    ensures forall k :: 0 <= k < |ranks| ==> RowFits(ranks[k], m)
    ensures var want := Mask(Concat(ExactOf(ranks, m)), 0, ids); |want| >= 1 && token == FirstArgmax(want)
  {
    var rows: seq<Row> := [];
    ghost var slots: seq<seq<int>>, full: seq<bool> := [], [];
    RanksNonempty(ranks, M, bv, refineOrders);
    hide RanksFit, RowRight, RunsAll;
    for k := 0 to |ranks|
      invariant |rows| == |slots| == |full| == k
      invariant forall j :: 0 <= j < |bufs| ==> bufs[j].Valid()
      invariant forall j, id :: 0 <= j < k && !full[j] && id in ids ==> id in slots[j]
      invariant forall j :: 0 <= j < k ==> RowRight(ranks[j], slots[j], full[j], M, bv, m, rows[j])
    {
      var armed := bufs[k].RunNonCompact(b);
      var row := RankRow(ranks, k, bufs[k].stop, bufs[k].flag == 0, M, BN, bv, screenOrders[k], refineOrders[k],
                         junk, m);
      rows := rows + [row];
      slots, full := slots + [bufs[k].stop], full + [bufs[k].flag == 0];
    }
    RowsDecide(ranks, M, bv, m, ids, slots, full, rows);
    token := FirstArgmax(Mask(Concat(rows), 0, ids));
  }

  /** The row is the rank's refined one under its slots. */
  ghost predicate RowRight(rank: Rank, slots: seq<int>, full: bool, M: nat, bv: nat, m: nat, row: Row) {
    && m < M && bv > 0 && Bounded(ShardOf(rank, slots, full), M)
    && row == Refined(ShardOf(rank, slots, full), M, bv, m)
  }

  method RankRow(ranks: seq<Rank>, k: nat, slots: seq<int>, full: bool, M: nat, BN: nat, bv: nat, screenOrder: seq<nat>,
                 refineOrder: seq<nat>, junk: Float, m: nat) returns (row: Row)
    requires RanksFit(ranks, M) && k < |ranks| && m < M
    requires RunsAll(screenOrder, BN, ranks[k].V) && RunsAll(refineOrder, bv, ranks[k].V)
    ensures RowRight(ranks[k], slots, full, M, bv, m, row)
  {
    assert Bounded(ShardOf(ranks[k], [], false), M);
    row := OutputRow(ShardOf(ranks[k], slots, full), M, BN, bv, screenOrder, refineOrder, junk, m);
  }

  lemma RanksNonempty(ranks: seq<Rank>, M: nat, bv: nat, refineOrders: seq<seq<nat>>)
    requires RanksFit(ranks, M) && |refineOrders| == |ranks|
    requires forall k :: 0 <= k < |ranks| ==> RunsAll(refineOrders[k], bv, ranks[k].V)
    ensures ranks != [] && bv > 0
  {
    assert RunsAll(refineOrders[0], bv, ranks[0].V);
  }

  lemma RowsDecide(ranks: seq<Rank>, M: nat, bv: nat, m: nat, ids: set<int>, slots: seq<seq<int>>, full: seq<bool>,
                   rows: seq<Row>)
    requires RanksFit(ranks, M) && m < M && bv > 0 && |slots| == |full| == |rows| == |ranks|
    requires forall j :: 0 <= j < |ranks| ==> RowRight(ranks[j], slots[j], full[j], M, bv, m, rows[j])
    requires forall j, id :: 0 <= j < |ranks| && !full[j] && id in ids ==> id in slots[j]
    ensures forall k :: 0 <= k < |ranks| ==> RowFits(ranks[k], m)
    ensures var got, want := Mask(Concat(rows), 0, ids), Mask(Concat(ExactOf(ranks, m)), 0, ids);
            |got| >= 1 && |want| >= 1 && FirstArgmax(got) == FirstArgmax(want)
  {
    var shards := WithSlots(ranks, slots, full);
    SlotsIrrelevant(ranks, M, slots, full);
    RowsRefined(ranks, M, bv, m, slots, full, rows);
    hide Sound, Contiguous, Refined, RanksFit, RowRight, FirstArgmax, Mask, Concat;
    assert forall k :: 0 <= k < |ranks| ==> Bounded(shards[k], M);
    MaskedArgmaxExact(shards, M, bv, m, ids);
  }

  lemma RowsRefined(ranks: seq<Rank>, M: nat, bv: nat, m: nat, slots: seq<seq<int>>, full: seq<bool>, rows: seq<Row>)
    requires m < M && bv > 0 && |slots| == |full| == |rows| == |ranks|
    requires forall j :: 0 <= j < |ranks| ==> RowRight(ranks[j], slots[j], full[j], M, bv, m, rows[j])
    ensures forall k :: 0 <= k < |ranks| ==> Shaped(WithSlots(ranks, slots, full)[k], M) && RowFits(ranks[k], m)
    ensures rows == RefinedRows(WithSlots(ranks, slots, full), M, bv, m)
    ensures ExactOf(ranks, m) == ExactRows(WithSlots(ranks, slots, full), M, m)
  {
    hide Refined;
    var shards := WithSlots(ranks, slots, full);
    forall k | 0 <= k < |ranks|
      ensures Shaped(shards[k], M) && RowFits(ranks[k], m) && rows[k] == Refined(shards[k], M, bv, m)
      ensures ranks[k].exact == shards[k].exact
    {
      assert RowRight(ranks[k], slots[k], full[k], M, bv, m, rows[k]);
    }
  }

  /** The heads cut the vocabulary in rank order. */
  ghost predicate HeadsFit(heads: seq<Head>) {
    heads != [] && Cut(heads)
  }

  ghost predicate Cut(heads: seq<Head>) {
    forall k :: 0 <= k < |heads| ==> heads[k].vstart == HeadWidth(heads[..k])
  }

  function HeadWidth(heads: seq<Head>): nat {
    if heads == [] then 0 else HeadWidth(heads[..|heads| - 1]) + heads[|heads| - 1].V
  }

  lemma {:induction false} SameHeadWidth(heads: seq<Head>, s: seq<Shard>)
    requires |heads| == |s| && forall k :: 0 <= k < |s| ==> s[k].V == heads[k].V
    ensures Width(s) == HeadWidth(heads)
  {
    if s != [] { SameHeadWidth(heads[..|s| - 1], s[..|s| - 1]); }
  }

  lemma HeadsContiguous(heads: seq<Head>, ranks: seq<Rank>)
    requires HeadsFit(heads) && |ranks| == |heads|
    requires forall k :: 0 <= k < |ranks| ==> ranks[k].vstart == heads[k].vstart && ranks[k].V == heads[k].V
    ensures Contiguous(seq(|ranks|, k requires 0 <= k < |ranks| => ShardOf(ranks[k], [], false)))
  {
    var s := seq(|ranks|, k requires 0 <= k < |ranks| => ShardOf(ranks[k], [], false));
    forall k | 0 <= k < |s| ensures s[k].vstart == Width(s[..k]) { SameHeadWidth(heads[..k], s[..k]); }
  }

  /** Row m of the stock logits, rank by rank. */
  function StockOf(inputs: seq<Inputs>, m: nat): seq<Row>
    requires forall k :: 0 <= k < |inputs| ==> m < |inputs[k].exact|
  {
    seq(|inputs|, k requires 0 <= k < |inputs| && m < |inputs[k].exact| => inputs[k].exact[m])
  }

  /**
   * A verify step end to end, from the tables and the rows: every rank computes the norms and the intervals of its
   * shard, arms its own buffers from the batch, screens and refines, the rows are gathered, a min-new-tokens mask
   * over ids of the batch is applied, and the token chosen is the arg-max of the stock logits under the same mask.
   */
  method VerifyStep(bufs: seq<Buffers>, b: Batch, k: Machine, heads: seq<Head>, inputs: seq<Inputs>, M: nat, BN: nat,
                    bv: nat, screenOrders: seq<seq<nat>>, refineOrders: seq<seq<nat>>, junk: Float, m: nat,
                    ids: set<int>)
    returns (token: nat)
    requires HeadsFit(heads) && m < M
    requires forall id :: id in ids ==>
               b.sampling.Some? && b.sampling.value.required && exists j :: 0 <= j < |b.stopIds| && id in b.stopIds[j]
    requires |bufs| == |heads| == |inputs| == |screenOrders| == |refineOrders|
    requires forall j :: 0 <= j < |heads| ==> Models(k, heads[j], inputs[j], M)
    requires forall j :: 0 <= j < |heads| ==>
               RunsAll(screenOrders[j], BN, heads[j].V) && RunsAll(refineOrders[j], bv, heads[j].V)
    requires forall j :: 0 <= j < |bufs| ==> bufs[j].Valid()
    modifies bufs
    ensures forall j :: 0 <= j < |bufs| ==> bufs[j].Valid()
    ensures forall j :: 0 <= j < |inputs| ==> m < |inputs[j].exact| && |inputs[j].exact[m]| == heads[j].V
    ensures var want := Mask(Concat(StockOf(inputs, m)), 0, ids); |want| >= 1 && token == FirstArgmax(want)
    ensures exists j, v :: 0 <= j < |heads| && 0 <= v < heads[j].V && token == heads[j].vstart + v
                           && FirstBest(heads, inputs, m, ids, j, v)
  {
    var ranks := ScreenHeads(k, heads, inputs, M);
    HeadsContiguous(heads, ranks);
    RanksHold(heads, inputs, ranks, M, m);
    hide Models, Contiguous, RankOf, HeadsFit;
    token := ArgmaxStep(bufs, b, ranks, M, BN, bv, screenOrders, refineOrders, junk, m, ids);
    assert ExactOf(ranks, m) == StockOf(inputs, m);
    TokenPlace(heads, inputs, m, ids, token);
  }

  /** The stock logit of a rank's own column, or minus infinity where the later mask falls on it. */
  ghost function LaterLogit(heads: seq<Head>, inputs: seq<Inputs>, m: nat, ids: set<int>, j: nat, v: nat): Float
    requires j < |heads| == |inputs| && m < |inputs[j].exact| && v < |inputs[j].exact[m]|
  {
    if heads[j].vstart + v in ids then NegInf else inputs[j].exact[m][v]
  }

  /** No column of any rank is above this one, and every column of a smaller id is below it. */
  ghost predicate FirstBest(heads: seq<Head>, inputs: seq<Inputs>, m: nat, ids: set<int>, j: nat, v: nat)
    requires |heads| == |inputs| && j < |heads| && v < heads[j].V
    requires forall i :: 0 <= i < |inputs| ==> m < |inputs[i].exact| && |inputs[i].exact[m]| == heads[i].V
  {
    forall i, u :: 0 <= i < |heads| && 0 <= u < heads[i].V ==>
      && !Less(LaterLogit(heads, inputs, m, ids, j, v), LaterLogit(heads, inputs, m, ids, i, u))
      && (heads[i].vstart + u < heads[j].vstart + v ==>
            Less(LaterLogit(heads, inputs, m, ids, i, u), LaterLogit(heads, inputs, m, ids, j, v)))
  }

  lemma ConcatLast(rows: seq<Row>, n: nat)
    requires |rows| == n + 1
    ensures Concat(rows) == Concat(rows[..n]) + rows[n]
  {}

  lemma HeadsLast(heads: seq<Head>, n: nat)
    requires Cut(heads) && |heads| == n + 1
    ensures Cut(heads[..n]) && HeadWidth(heads) == HeadWidth(heads[..n]) + heads[n].V
    ensures heads[n].vstart == HeadWidth(heads[..n])
  {
    assert forall k :: 0 <= k < n ==> heads[..n][..k] == heads[..k];
  }

  /** Column u of rank i stands at its own vocabulary id in the gathered row. */
  lemma {:induction false} ColumnAt(heads: seq<Head>, rows: seq<Row>, i: nat, u: nat)
    requires Cut(heads) && |rows| == |heads| && forall k :: 0 <= k < |heads| ==> |rows[k]| == heads[k].V
    ensures |Concat(rows)| == HeadWidth(heads)
    ensures i < |heads| && u < heads[i].V ==>
              heads[i].vstart + u < |Concat(rows)| && Concat(rows)[heads[i].vstart + u] == rows[i][u]
  {
    if heads != [] {
      var n := |heads| - 1;
      HeadsLast(heads, n);
      ConcatLast(rows, n);
      hide Concat, HeadWidth;
      ColumnAt(heads[..n], rows[..n], i, u);
    }
  }

  /** Every id is some rank's column. */
  lemma {:induction false} OwnerAt(heads: seq<Head>, t: nat) returns (i: nat)
    requires Cut(heads) && t < HeadWidth(heads)
    ensures i < |heads| && heads[i].vstart <= t < heads[i].vstart + heads[i].V
  {
    var n := |heads| - 1;
    HeadsLast(heads, n);
    if t < heads[n].vstart { i := OwnerAt(heads[..n], t); } else { i := n; }
  }

  /** Column u of rank i, masked, is in the gathered row at its own id. */
  ghost predicate StandsAt(want: Row, heads: seq<Head>, inputs: seq<Inputs>, m: nat, ids: set<int>, i: nat, u: nat)
    requires i < |heads| == |inputs| && m < |inputs[i].exact| && u < |inputs[i].exact[m]|
  {
    heads[i].vstart + u < |want| && want[heads[i].vstart + u] == LaterLogit(heads, inputs, m, ids, i, u)
  }

  lemma MaskedColumn(rows: seq<Row>, heads: seq<Head>, inputs: seq<Inputs>, m: nat, ids: set<int>, i: nat, u: nat)
    requires Cut(heads) && |rows| == |heads| == |inputs| && i < |heads| && u < heads[i].V
    requires forall j :: 0 <= j < |inputs| ==>
               m < |inputs[j].exact| && |inputs[j].exact[m]| == heads[j].V && rows[j] == inputs[j].exact[m]
    ensures StandsAt(Mask(Concat(rows), 0, ids), heads, inputs, m, ids, i, u)
  {
    hide Concat, HeadWidth, Cut;
    ColumnAt(heads, rows, i, u);
  }

  lemma FirstIsBest(want: Row, heads: seq<Head>, inputs: seq<Inputs>, m: nat, ids: set<int>, j: nat, v: nat)
    requires |heads| == |inputs| && j < |heads| && v < heads[j].V && |want| >= 1
    requires forall i :: 0 <= i < |inputs| ==> m < |inputs[i].exact| && |inputs[i].exact[m]| == heads[i].V
    requires forall i, u :: 0 <= i < |heads| && 0 <= u < heads[i].V ==> StandsAt(want, heads, inputs, m, ids, i, u)
    requires FirstArgmax(want) == heads[j].vstart + v
    ensures FirstBest(heads, inputs, m, ids, j, v)
  {
    hide LaterLogit, Less, FirstArgmax;
    var k := FirstArgmax(want);
    assert StandsAt(want, heads, inputs, m, ids, j, v);
    forall i, u | 0 <= i < |heads| && 0 <= u < heads[i].V
      ensures !Less(want[k], LaterLogit(heads, inputs, m, ids, i, u))
      ensures heads[i].vstart + u < k ==> Less(LaterLogit(heads, inputs, m, ids, i, u), want[k])
    {
      assert StandsAt(want, heads, inputs, m, ids, i, u);
    }
  }

  lemma TokenPlace(heads: seq<Head>, inputs: seq<Inputs>, m: nat, ids: set<int>, token: nat)
    requires HeadsFit(heads) && |heads| == |inputs|
    requires forall j :: 0 <= j < |inputs| ==> m < |inputs[j].exact| && |inputs[j].exact[m]| == heads[j].V
    requires var want := Mask(Concat(StockOf(inputs, m)), 0, ids); |want| >= 1 && token == FirstArgmax(want)
    ensures exists j, v :: 0 <= j < |heads| && 0 <= v < heads[j].V && token == heads[j].vstart + v
                           && FirstBest(heads, inputs, m, ids, j, v)
  {
    var rows := StockOf(inputs, m);
    var want := Mask(Concat(rows), 0, ids);
    ColumnAt(heads, rows, 0, 0);
    var j := OwnerAt(heads, token);
    hide HeadsFit, Concat, HeadWidth, LaterLogit, FirstBest, StandsAt;
    forall i, u | 0 <= i < |heads| && 0 <= u < heads[i].V ensures StandsAt(want, heads, inputs, m, ids, i, u) {
      MaskedColumn(rows, heads, inputs, m, ids, i, u);
    }
    FirstIsBest(want, heads, inputs, m, ids, j, token - heads[j].vstart);
  }

  method ScreenHeads(k: Machine, heads: seq<Head>, inputs: seq<Inputs>, M: nat) returns (ranks: seq<Rank>)
    requires |heads| == |inputs| && forall j :: 0 <= j < |heads| ==> Models(k, heads[j], inputs[j], M)
    ensures |ranks| == |heads| && forall j :: 0 <= j < |heads| ==> RankOf(ranks[j], heads[j], inputs[j], M)
  {
    hide Models;
    ranks := [];
    for j := 0 to |heads|
      invariant |ranks| == j && forall q :: 0 <= q < j ==> RankOf(ranks[q], heads[q], inputs[q], M)
    {
      var rank := ScreenHead(k, heads[j], inputs[j], M);
      ranks := ranks + [rank];
    }
  }

  lemma RanksHold(heads: seq<Head>, inputs: seq<Inputs>, ranks: seq<Rank>, M: nat, m: nat)
    requires |heads| == |inputs| == |ranks| && m < M && HeadsFit(heads)
    requires forall j :: 0 <= j < |heads| ==> RankOf(ranks[j], heads[j], inputs[j], M)
    requires Contiguous(seq(|ranks|, k requires 0 <= k < |ranks| => ShardOf(ranks[k], [], false)))
    ensures RanksFit(ranks, M)
    ensures forall j :: 0 <= j < |inputs| ==>
              && m < |inputs[j].exact| && RowFits(ranks[j], m)
              && ranks[j].exact == inputs[j].exact && ranks[j].V == heads[j].V == |inputs[j].exact[m]|
  {
    hide Contiguous, Sound;
    forall j | 0 <= j < |inputs| ensures m < |inputs[j].exact| { assert RankOf(ranks[j], heads[j], inputs[j], M); }
    forall j | 0 <= j < |ranks|
      ensures Bounded(ShardOf(ranks[j], [], false), M) && Sound(ShardOf(ranks[j], [], false), M)
    {
      assert RankOf(ranks[j], heads[j], inputs[j], M);
    }
  }

  ghost predicate RankOf(rank: Rank, h: Head, i: Inputs, M: nat) {
    && rank.vstart == h.vstart && rank.V == h.V && rank.exact == i.exact
    && Bounded(ShardOf(rank, [], false), M) && Sound(ShardOf(rank, [], false), M)
  }
}
