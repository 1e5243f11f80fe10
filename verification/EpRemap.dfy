/**
 * Expert parallelism for the MoE layer (adapter/moe_b12x_next.py): the kernel that turns global expert ids
 * into one rank's local ids, the capacities a batch is launched with, and the chunked forward.
 */
module EpKernel {

  const BIG: int := 0x7FFF_FFFF
  const BLOCK_ROWS: nat := 32

  predicate Int32(v: int) { -0x8000_0000 <= v <= 0x7FFF_FFFF }

  /** Two's complement truncation to 32 bits. */
  function Wrap32(v: int): (r: int)
    ensures Int32(r) && (Int32(v) ==> r == v)
  {
    (v + 0x8000_0000) % 0x1_0000_0000 - 0x8000_0000
  }

  /** One rank's experts: the global ids from `offset`, `count` of them. */
  datatype Shard = Shard(offset: nat, count: nat)

  ghost predicate Fits(s: Shard) { s.count >= 1 && s.offset + s.count <= BIG }

  predicate Local(s: Shard, id: int) { 0 <= id - s.offset < s.count }

  /** Element (i, j) of a matrix lives at base + i·rows + j·cols of a flat memory; strides may be any integers. */
  datatype Strided<T> = Strided(mem: seq<T>, base: int, rows: int, cols: int)

  function Address<T>(v: Strided<T>, i: int, j: int): int { v.base + i * v.rows + j * v.cols }

  ghost predicate Holds<T>(v: Strided<T>, m: nat, k: nat) {
    forall i, j :: 0 <= i < m && 0 <= j < k ==> 0 <= Address(v, i, j) < |v.mem|
  }

  function At<T>(v: Strided<T>, m: nat, k: nat, i: nat, j: nat): T
    requires Holds(v, m, k) && i < m && j < k
  {
    v.mem[Address(v, i, j)]
  }

  function Row<T>(v: Strided<T>, m: nat, k: nat, i: nat): (row: seq<T>)
    requires Holds(v, m, k) && i < m
    ensures |row| == k
  {
    seq(k, j requires 0 <= j < k => At(v, m, k, i, j))
  }

  function Matrix<T>(v: Strided<T>, m: nat, k: nat): (t: seq<seq<T>>)
    requires Holds(v, m, k)
    ensures |t| == m && forall i :: 0 <= i < m ==> |t[i]| == k
  {
    seq(m, i requires 0 <= i < m => Row(v, m, k, i))
  }

  /** Entry (i, j) of the matrix is the memory's at the base plus i row strides and j column strides. */
  lemma Entry<T>(v: Strided<T>, m: nat, k: nat, i: nat, j: nat)
    requires Holds(v, m, k) && i < m && j < k
    ensures 0 <= v.base + i * v.rows + j * v.cols < |v.mem|
    ensures Matrix(v, m, k)[i][j] == Row(v, m, k, i)[j] == v.mem[v.base + i * v.rows + j * v.cols]
  {
    assert Address(v, i, j) == v.base + i * v.rows + j * v.cols;
  }

  // ---- the reference, on matrices and exact integers ----

  function Least(a: int, b: int): int { if b < a then b else a }

  /** The lowest local expert of a row, BIG when it has none. */
  function RowLow(s: Shard, row: seq<int>): int {
    if row == [] then BIG
    else
      var n := |row| - 1;
      Least(RowLow(s, row[..n]), if Local(s, row[n]) then row[n] - s.offset else BIG)
  }

  function BatchLow(s: Shard, t: seq<seq<int>>): int {
    if t == [] then BIG else Least(BatchLow(s, t[..|t| - 1]), RowLow(s, t[|t| - 1]))
  }

  function Filler(s: Shard, t: seq<seq<int>>, i: nat): int
    requires i < |t|
  {
    var fallback := if BatchLow(s, t) < s.count then BatchLow(s, t) else 0;
    if RowLow(s, t[i]) < s.count then RowLow(s, t[i]) else fallback
  }

  function OutId(s: Shard, t: seq<seq<int>>, i: nat, j: nat): int
    requires i < |t| && j < |t[i]|
  {
    if Local(s, t[i][j]) then t[i][j] - s.offset else Filler(s, t, i)
  }

  function OutWeight(s: Shard, id: int, w: real): real { if Local(s, id) then w else 0.0 }

  // ---- what the reference promises ----

  /** RowLow is a local id that occurs in the row and bounds every local id of it; BIG exactly when there is none. */
  lemma {:induction false} RowLowIsLowest(s: Shard, row: seq<int>)
    requires Fits(s)
    ensures RowLow(s, row) == BIG <==> forall j :: 0 <= j < |row| ==> !Local(s, row[j])
    ensures RowLow(s, row) != BIG ==>
              0 <= RowLow(s, row) < s.count && exists j :: 0 <= j < |row| && row[j] == s.offset + RowLow(s, row)
    ensures forall j :: 0 <= j < |row| && Local(s, row[j]) ==> RowLow(s, row) <= row[j] - s.offset
  {
    if row != [] {
      var n := |row| - 1;
      var front := row[..n];
      RowLowIsLowest(s, front);
      assert forall j :: 0 <= j < n ==> row[j] == front[j];
      if RowLow(s, front) != BIG && RowLow(s, row) == RowLow(s, front) {
        var j :| 0 <= j < n && front[j] == s.offset + RowLow(s, front);
        assert row[j] == s.offset + RowLow(s, row);
      } else if Local(s, row[n]) {
        assert row[n] == s.offset + RowLow(s, row);
      }
    }
  }

  lemma {:induction false} BatchLowIsLowest(s: Shard, t: seq<seq<int>>)
    requires Fits(s)
    ensures BatchLow(s, t) == BIG <==> forall i :: 0 <= i < |t| ==> RowLow(s, t[i]) == BIG
    ensures BatchLow(s, t) != BIG ==>
              0 <= BatchLow(s, t) < s.count && exists i :: 0 <= i < |t| && RowLow(s, t[i]) == BatchLow(s, t)
    ensures forall i :: 0 <= i < |t| ==> BatchLow(s, t) <= RowLow(s, t[i])
  {
    if t != [] {
      var n := |t| - 1;
      var front := t[..n];
      BatchLowIsLowest(s, front);
      RowLowIsLowest(s, t[n]);
      assert forall i :: 0 <= i < n ==> t[i] == front[i];
      if BatchLow(s, front) != BIG && BatchLow(s, t) == BatchLow(s, front) {
        var i :| 0 <= i < n && RowLow(s, front[i]) == BatchLow(s, front);
        assert RowLow(s, t[i]) == BatchLow(s, t);
      } else {
        assert RowLow(s, t[n]) == BatchLow(s, t);
      }
    }
  }

  /** Some row of the batch already routes to local expert e. */
  ghost predicate AlreadyRead(s: Shard, t: seq<seq<int>>, e: int) {
    exists i, j :: 0 <= i < |t| && 0 <= j < |t[i]| && t[i][j] == s.offset + e
  }

  /** Every written id is a valid local expert; a slot that was not local points at an expert the batch reads
      anyway: the row's own lowest if the row has a local slot, else the batch's, or 0 if the batch has none. */
  lemma RemapSafe(s: Shard, t: seq<seq<int>>, i: nat, j: nat)
    requires Fits(s) && i < |t| && j < |t[i]|
    ensures 0 <= OutId(s, t, i, j) < s.count
    ensures Local(s, t[i][j]) ==> OutId(s, t, i, j) == t[i][j] - s.offset
    ensures !Local(s, t[i][j]) && (exists c :: 0 <= c < |t[i]| && Local(s, t[i][c])) ==>
              s.offset + OutId(s, t, i, j) in t[i]
    ensures AlreadyRead(s, t, OutId(s, t, i, j))
            || (OutId(s, t, i, j) == 0 && forall r, c :: 0 <= r < |t| && 0 <= c < |t[r]| ==> !Local(s, t[r][c]))
  {
    BatchLowIsLowest(s, t);
    forall r | 0 <= r < |t| ensures RowLowFacts(s, t[r]) { RowLowIsLowest(s, t[r]); }
    RowLowIsLowest(s, t[i]);
    var out := OutId(s, t, i, j);
    if Local(s, t[i][j]) {
      assert t[i][j] == s.offset + out;
    } else if RowLow(s, t[i]) != BIG {
      var c :| 0 <= c < |t[i]| && t[i][c] == s.offset + RowLow(s, t[i]);
      assert t[i][c] == s.offset + out;
    } else if BatchLow(s, t) != BIG {
      var r :| 0 <= r < |t| && RowLow(s, t[r]) == BatchLow(s, t);
      assert RowLowFacts(s, t[r]);
      var c :| 0 <= c < |t[r]| && t[r][c] == s.offset + RowLow(s, t[r]);
      assert t[r][c] == s.offset + out;
    } else {
      forall r, c | 0 <= r < |t| && 0 <= c < |t[r]| ensures !Local(s, t[r][c]) {
        assert RowLowFacts(s, t[r]);
      }
    }
  }

  ghost predicate RowLowFacts(s: Shard, row: seq<int>) {
    && (RowLow(s, row) == BIG <==> forall j :: 0 <= j < |row| ==> !Local(s, row[j]))
    && (RowLow(s, row) != BIG ==>
          0 <= RowLow(s, row) < s.count && exists j :: 0 <= j < |row| && row[j] == s.offset + RowLow(s, row))
  }

  // ---- 32-bit arithmetic ----

  /** The kernel's lane: the id truncated to 32 bits, minus the offset, wrapping. */
  function KernelLid(s: Shard, id: int): int { Wrap32(Wrap32(id) - s.offset) }

  predicate KernelLocal(s: Shard, id: int) { 0 <= KernelLid(s, id) < s.count }

  /** The wrapping subtraction never turns a foreign 32-bit id into a local one. A wider id is read right exactly
      when its low 32 bits do not happen to name a local expert. */
  lemma LanesAgreeExactly(s: Shard, id: int)
    requires Fits(s)
    ensures Int32(id) ==> (KernelLocal(s, id) <==> Local(s, id)) && (Local(s, id) ==> KernelLid(s, id) == id - s.offset)
    ensures (KernelLocal(s, id) <==> Local(s, id)) <==> (Int32(id) || !Local(s, Wrap32(id)))
  {
    var low := Wrap32(id);
    if low - s.offset < -0x8000_0000 {
      assert low - s.offset + 0x8000_0000 + 0x1_0000_0000 == (low - s.offset + 0x8000_0000) % 0x1_0000_0000;
    }
    assert KernelLocal(s, id) <==> Local(s, low);
  }

  /** 2^32 has low bits 0, so rank 0 would take it for its expert 0. */
  lemma WideIdMisread()
    ensures KernelLocal(Shard(0, 8), 0x1_0000_0000) && !Local(Shard(0, 8), 0x1_0000_0000)
  {}

  // ---- the kernel ----

  ghost predicate Ids32(t: seq<seq<int>>) {
    forall i, j :: 0 <= i < |t| && 0 <= j < |t[i]| ==> Int32(t[i][j])
  }

  /** The minimum over one lane row of a block: kp padded columns, rows past m fully masked. */
  method LaneRowLow(s: Shard, ids: Strided<int>, m: nat, k: nat, kp: nat, r: nat) returns (low: int)
    requires Fits(s) && Holds(ids, m, k) && Ids32(Matrix(ids, m, k)) && kp >= k
    ensures low == if r < m then RowLow(s, Row(ids, m, k, r)) else BIG
  {
    hide Address, Holds, Wrap32;
    low := BIG;
    ghost var row: seq<int> := if r < m then Row(ids, m, k, r) else [];
    assert r < m ==> row == Matrix(ids, m, k)[r];
    var c := 0;
    while c < kp
      invariant 0 <= c <= kp
      invariant low == if r < m then RowLow(s, row[..if c < k then c else k]) else BIG
    {
      if r < m && c < k {
        var id := At(ids, m, k, r, c);
        assert id == row[c] && Int32(id);
        LanesAgreeExactly(s, id);
        assert row[..c + 1][..c] == row[..c];
        low := Least(low, if KernelLocal(s, id) then KernelLid(s, id) else BIG);
      }
      c := c + 1;
    }
    assert r < m ==> row[..k] == row;
  }

  /** First pass: the lowest local expert of the whole batch, by blocks of 32 rows. */
  method BatchBest(s: Shard, ids: Strided<int>, m: nat, k: nat, kp: nat) returns (best: int)
    requires Fits(s) && Holds(ids, m, k) && Ids32(Matrix(ids, m, k)) && kp >= k
    ensures best == BatchLow(s, Matrix(ids, m, k))
  {
    best := BIG;
    ghost var t := Matrix(ids, m, k);
    var r0 := 0;
    while r0 < m
      invariant best == BatchLow(s, t[..if r0 < m then r0 else m])
    {
      var r := r0;
      while r < r0 + BLOCK_ROWS
        invariant r0 <= r <= r0 + BLOCK_ROWS
        invariant best == BatchLow(s, t[..if r < m then r else m])
      {
        var low := LaneRowLow(s, ids, m, k, kp, r);
        if r < m {
          assert t[..r + 1][..r] == t[..r] && t[..r + 1][r] == t[r];
        }
        BatchAtMost(s, t[..if r < m then r else m]);
        best := Least(best, low);
        r := r + 1;
      }
      r0 := r0 + BLOCK_ROWS;
    }
    assert t[..m] == t;
  }

  lemma BatchAtMost(s: Shard, t: seq<seq<int>>)
    requires Fits(s)
    ensures BatchLow(s, t) <= BIG
  {
    BatchLowIsLowest(s, t);
  }

  /** One row of the second pass. */
  method StoreRow(s: Shard, ids: Strided<int>, w: Strided<real>, m: nat, k: nat, kp: nat, best: int, r: nat,
                     outIds: array2<int>, outW: array2<real>)
    requires Fits(s) && Holds(ids, m, k) && Holds(w, m, k) && Ids32(Matrix(ids, m, k)) && kp >= k
    requires best == BatchLow(s, Matrix(ids, m, k))
    requires outIds.Length1 == k == outW.Length1 && outIds.Length0 >= m && outW.Length0 >= m
    modifies outIds, outW
    ensures r < m ==> RowDone(s, ids, w, m, k, outIds, outW, r)
    ensures forall q :: 0 <= q < m && q != r && old(RowDone(s, ids, w, m, k, outIds, outW, q)) ==>
              RowDone(s, ids, w, m, k, outIds, outW, q)
    ensures forall i, j :: 0 <= i < outIds.Length0 && 0 <= j < k && (i != r || r >= m) ==>
              outIds[i, j] == old(outIds[i, j])
    ensures forall i, j :: 0 <= i < outW.Length0 && 0 <= j < k && (i != r || r >= m) ==> outW[i, j] == old(outW[i, j])
  {
    ghost var t := Matrix(ids, m, k);
    var fallback := if best < s.count then best else 0;
    var low := LaneRowLow(s, ids, m, k, kp, r);
    var fill := if low < s.count then low else fallback;
    assert r < m ==> t[r] == Row(ids, m, k, r) && fill == Filler(s, t, r);
    var c := 0;
    while c < kp
      invariant 0 <= c <= kp
      invariant r < m ==> forall j :: 0 <= j < c && j < k ==>
                  outIds[r, j] == OutId(s, t, r, j) &&
                  outW[r, j] == OutWeight(s, t[r][j], At(w, m, k, r, j))
      invariant forall i, j :: 0 <= i < outIds.Length0 && 0 <= j < k && (i != r || r >= m) ==>
                  outIds[i, j] == old(outIds[i, j])
      invariant forall i, j :: 0 <= i < outW.Length0 && 0 <= j < k && (i != r || r >= m) ==>
                  outW[i, j] == old(outW[i, j])
    {
      if r < m && c < k {
        var id := At(ids, m, k, r, c);
        assert id == t[r][c] && Int32(id);
        LanesAgreeExactly(s, id);
        var local := KernelLocal(s, id);
        outIds[r, c] := if local then KernelLid(s, id) else fill;
        outW[r, c] := if local then At(w, m, k, r, c) else 0.0;
      }
      c := c + 1;
    }
  }

  ghost predicate RowDone(s: Shard, ids: Strided<int>, w: Strided<real>, m: nat, k: nat,
                             outIds: array2<int>, outW: array2<real>, r: nat)
    requires Holds(ids, m, k) && Holds(w, m, k) && r < m
    requires outIds.Length1 == k == outW.Length1 && outIds.Length0 >= m && outW.Length0 >= m
    reads outIds, outW
  {
    forall j :: 0 <= j < k ==>
      outIds[r, j] == OutId(s, Matrix(ids, m, k), r, j) &&
      outW[r, j] == OutWeight(s, Matrix(ids, m, k)[r][j], At(w, m, k, r, j))
  }

  /** The blocked two-pass kernel writes exactly the reference, for any strides, padding and number of rows, and
      nothing past row m. Refused (false) when the shapes do not match; nothing is written then. */
  method EpRemap(s: Shard, ids: Strided<int>, w: Strided<real>, m: nat, k: nat, wShape: (nat, nat), kp: nat,
                    outIds: array2<int>, outW: array2<real>) returns (ok: bool)
    requires Fits(s) && Holds(ids, m, k) && Ids32(Matrix(ids, m, k)) && kp >= k
    requires wShape == (m, k) ==> Holds(w, m, k)
    requires outIds.Length1 == k == outW.Length1
    modifies outIds, outW
    ensures ok <==> m == 0 || (wShape == (m, k) && outIds.Length0 >= m && outW.Length0 >= m)
    ensures ok && m > 0 ==> forall r :: 0 <= r < m ==> RowDone(s, ids, w, m, k, outIds, outW, r)
    ensures forall i, j :: 0 <= i < outIds.Length0 && 0 <= j < k && (i >= m || !ok) ==>
              outIds[i, j] == old(outIds[i, j])
    ensures forall i, j :: 0 <= i < outW.Length0 && 0 <= j < k && (i >= m || !ok) ==> outW[i, j] == old(outW[i, j])
  {
    if m == 0 { return true; }
    hide Holds, RowDone, Ids32, Fits;
    if wShape != (m, k) || outIds.Length0 < m || outW.Length0 < m { return false; }
    var best := BatchBest(s, ids, m, k, kp);
    var r0 := 0;
    while r0 < m
      invariant forall r :: 0 <= r < r0 && r < m ==> RowDone(s, ids, w, m, k, outIds, outW, r)
      invariant forall i, j :: m <= i < outIds.Length0 && 0 <= j < k ==> outIds[i, j] == old(outIds[i, j])
      invariant forall i, j :: m <= i < outW.Length0 && 0 <= j < k ==> outW[i, j] == old(outW[i, j])
    {
      var r := r0;
      while r < r0 + BLOCK_ROWS
        invariant r0 <= r <= r0 + BLOCK_ROWS
        invariant forall q :: 0 <= q < r && q < m ==> RowDone(s, ids, w, m, k, outIds, outW, q)
        invariant forall i, j :: m <= i < outIds.Length0 && 0 <= j < k ==> outIds[i, j] == old(outIds[i, j])
        invariant forall i, j :: m <= i < outW.Length0 && 0 <= j < k ==> outW[i, j] == old(outW[i, j])
      {
        StoreRow(s, ids, w, m, k, kp, best, r, outIds, outW);
        r := r + 1;
      }
      r0 := r0 + BLOCK_ROWS;
    }
    ok := true;
  }
}

/**
 * What the layer computes with the remapped ids: one output coordinate per row, as the weighted sum of expert
 * outputs, on each rank and over all ranks.
 */
module EpSum {
  import opened RealSums
  import opened EpKernel

  /** A rank's local expert e is the global expert offset + e. */
  function Shifted(y: int -> real, offset: int): int -> real { e => y(offset + e) }

  /** The engine's sum over a row's slots; ids outside [0, count) are skipped, as b12x does. */
  function EngineRow(ids: seq<int>, w: seq<real>, count: nat, expert: int -> real): real
    requires |ids| == |w|
  {
    Sum(|ids|, EngineTerm(ids, w, count, expert))
  }

  function EngineTerm(ids: seq<int>, w: seq<real>, count: nat, expert: int -> real): nat -> real
    requires |ids| == |w|
  {
    (j: nat) => if j < |ids| && 0 <= ids[j] < count then Times(w[j], expert(ids[j])) else 0.0
  }

  /** The stock sum restricted to the experts [lo, hi) of the global numbering. */
  function TopK(row: seq<int>, w: seq<real>, lo: int, hi: int, y: int -> real): real
    requires |row| == |w|
  {
    Sum(|row|, TopKTerm(row, w, lo, hi, y))
  }

  function TopKTerm(row: seq<int>, w: seq<real>, lo: int, hi: int, y: int -> real): nat -> real
    requires |row| == |w|
  {
    (j: nat) => if j < |row| && lo <= row[j] < hi then Times(w[j], y(row[j])) else 0.0
  }

  function RemappedIds(s: Shard, t: seq<seq<int>>, i: nat): (r: seq<int>)
    requires i < |t|
    ensures |r| == |t[i]|
  {
    seq(|t[i]|, j requires 0 <= j < |t[i]| => OutId(s, t, i, j))
  }

  function RemappedWeights(s: Shard, row: seq<int>, w: seq<real>): (r: seq<real>)
    requires |row| == |w|
    ensures |r| == |w|
  {
    seq(|w|, j requires 0 <= j < |w| => OutWeight(s, row[j], w[j]))
  }

  /** A rank's launch on remapped ids is the stock sum over its own experts: fillers and padding add nothing, and
      the rest of the batch (which only chooses the fillers) has no influence. */
  lemma {:induction false} RemappedRow(s: Shard, t: seq<seq<int>>, i: nat, w: seq<real>, y: int -> real)
    requires Fits(s) && i < |t| && |t[i]| == |w|
    ensures EngineRow(RemappedIds(s, t, i), RemappedWeights(s, t[i], w), s.count, Shifted(y, s.offset))
         == TopK(t[i], w, s.offset, s.offset + s.count, y)
  {
    var ids, ws := RemappedIds(s, t, i), RemappedWeights(s, t[i], w);
    var f := EngineTerm(ids, ws, s.count, Shifted(y, s.offset));
    var g := TopKTerm(t[i], w, s.offset, s.offset + s.count, y);
    forall j: nat | j < |w| ensures f(j) == g(j) {
      RemapSafe(s, t, i, j);
      TimesUnits(y(s.offset + ids[j]));
    }
    SumEq(|w|, f, g);
  }

  /** The direct path hands the engine the router's own ids; on a single rank that is the same sum. */
  lemma {:induction false} DirectRow(row: seq<int>, w: seq<real>, count: nat, y: int -> real)
    requires |row| == |w|
    ensures EngineRow(row, w, count, Shifted(y, 0)) == TopK(row, w, 0, count, y)
  {
    SumEq(|row|, EngineTerm(row, w, count, Shifted(y, 0)), TopKTerm(row, w, 0, count, y));
  }

  function RankOffset(rank: nat, count: nat): nat { if rank == 0 then 0 else RankOffset(rank - 1, count) + count }

  lemma {:induction false} RankOffsetIs(rank: nat, count: nat)
    ensures RankOffset(rank, count) == rank * count
  {
    if rank > 0 { RankOffsetIs(rank - 1, count); }
  }

  /** What rank r's launch adds to row i. */
  function RankRow(t: seq<seq<int>>, i: nat, w: seq<real>, count: nat, y: int -> real, r: nat): real
    requires i < |t| && |t[i]| == |w|
  {
    var s := Shard(RankOffset(r, count), count);
    EngineRow(RemappedIds(s, t, i), RemappedWeights(s, t[i], w), count, Shifted(y, s.offset))
  }

  function RankTerm(t: seq<seq<int>>, i: nat, w: seq<real>, count: nat, y: int -> real): nat -> real
    requires i < |t| && |t[i]| == |w|
  {
    (r: nat) => RankRow(t, i, w, count, y, r)
  }

  lemma OneRank(t: seq<seq<int>>, i: nat, w: seq<real>, count: nat, y: int -> real, r: nat)
    requires i < |t| && |t[i]| == |w| && count >= 1 && RankOffset(r, count) + count <= BIG
    ensures RankRow(t, i, w, count, y, r) == TopK(t[i], w, RankOffset(r, count), RankOffset(r, count) + count, y)
  {
    RemappedRow(Shard(RankOffset(r, count), count), t, i, w, y);
  }

  lemma {:induction false} NoExperts(row: seq<int>, w: seq<real>, y: int -> real)
    requires |row| == |w|
    ensures TopK(row, w, 0, 0, y) == 0.0
  {
    SumZero(|w|, TopKTerm(row, w, 0, 0, y));
  }

  lemma {:induction false} TopKSplit(row: seq<int>, w: seq<real>, lo: int, hi: int, y: int -> real)
    requires |row| == |w| && 0 <= lo <= hi
    ensures TopK(row, w, 0, hi, y) == TopK(row, w, 0, lo, y) + TopK(row, w, lo, hi, y)
  {
    SumAdd(|w|, TopKTerm(row, w, 0, hi, y), TopKTerm(row, w, 0, lo, y), TopKTerm(row, w, lo, hi, y));
  }

  /** All-reduced over the ranks, every row is the global top-k sum: each slot is served by exactly the rank that
      owns its expert, and padding (-1, or any id past the last expert) contributes nothing. */
  lemma {:induction false} RanksSumToTopK(world: nat, t: seq<seq<int>>, i: nat, w: seq<real>, count: nat,
                                          y: int -> real)
    requires i < |t| && |t[i]| == |w| && count >= 1 && RankOffset(world, count) <= BIG
    ensures Sum(world, RankTerm(t, i, w, count, y)) == TopK(t[i], w, 0, RankOffset(world, count), y)
  {
    hide EngineRow, RemappedIds, RemappedWeights, TopK, Shifted, RankRow, OutId, OutWeight;
    if world == 0 {
      NoExperts(t[i], w, y);
    } else {
      var lo, hi := RankOffset(world - 1, count), RankOffset(world, count);
      RanksSumToTopK(world - 1, t, i, w, count, y);
      OneRank(t, i, w, count, y, world - 1);
      TopKSplit(t[i], w, lo, hi, y);
    }
  }
}

/**
 * One expert geometry: which prepared capacity runs a batch, and the forward that walks a batch in chunks.
 */
module EpForward {
  import opened Wrappers
  import opened RealSums
  import opened EpKernel
  import opened EpSum
  import opened SortedIds
  import Lanes

  // ---- capacities ----

  datatype Plan = Plan(capacity: nat, limit: nat)

  datatype Chosen = Chosen(chunk: nat, kept: seq<int>, dropped: seq<int>)

  /** A capacity is kept exactly when its plan runs it in one launch; the chunk is the largest kept one; kept and
      dropped, both sorted, split the capacities. None (the boot is refused) exactly when nothing is kept. */
  method SelectChunk(plans: seq<Plan>) returns (r: Option<Chosen>)
    requires forall i, j :: 0 <= i < j < |plans| ==> plans[i].capacity != plans[j].capacity
    ensures r == None <==> forall i :: 0 <= i < |plans| ==> plans[i].capacity > plans[i].limit
    ensures r.Some? ==> Increasing(r.value.kept) && Increasing(r.value.dropped)
    ensures r.Some? ==> r.value.chunk in r.value.kept && forall c :: c in r.value.kept ==> c <= r.value.chunk
    ensures r.Some? ==> forall i :: 0 <= i < |plans| ==>
              (plans[i].capacity in r.value.kept <==> plans[i].capacity <= plans[i].limit) &&
              (plans[i].capacity in r.value.dropped <==> plans[i].capacity > plans[i].limit)
    ensures r.Some? ==> forall c :: c in r.value.kept + r.value.dropped ==>
              exists i :: 0 <= i < |plans| && plans[i].capacity == c
  {
    var kept: seq<int>, dropped: seq<int> := [], [];
    for i := 0 to |plans|
      invariant Increasing(kept) && Increasing(dropped)
      invariant forall q :: 0 <= q < i ==>
                  (plans[q].capacity in kept <==> plans[q].capacity <= plans[q].limit) &&
                  (plans[q].capacity in dropped <==> plans[q].capacity > plans[q].limit)
      invariant forall c :: c in kept || c in dropped ==> exists q :: 0 <= q < i && plans[q].capacity == c
    {
      ghost var kept0, dropped0 := kept, dropped;
      var c := plans[i].capacity;
      if c <= plans[i].limit {
        kept := Insert(kept, c);
      } else {
        dropped := Insert(dropped, c);
      }
      forall x | x in kept || x in dropped ensures exists q :: 0 <= q < i + 1 && plans[q].capacity == x {
        if x in kept0 || x in dropped0 {
          var q :| 0 <= q < i && plans[q].capacity == x;
        } else {
          assert plans[i].capacity == x;
        }
      }
    }
    if kept == [] {
      assert forall q :: 0 <= q < |plans| ==> plans[q].capacity !in kept;
      return None;
    }
    assert kept[0] in kept;
    r := Some(Chosen(kept[|kept| - 1], kept, dropped));
  }

  /** The capacity a batch of m rows is launched with: the smallest prepared one that holds it. */
  ghost predicate Smallest(caps: seq<int>, m: nat, c: nat) {
    c in caps && c >= m && forall x :: x in caps && x >= m ==> c <= x
  }

  // ---- the forward ----

  /** A token's output of every global expert, for one coordinate. */
  type Experts<!T> = (T, int) -> real

  function Of<T>(y: Experts<T>, x: T): int -> real { e => y(x, e) }

  /** A matrix held in the first rows of a buffer. */
  function RowOf<F>(a: array2<F>, i: nat): (r: seq<F>)
    requires i < a.Length0
    reads a
    ensures |r| == a.Length1
  {
    seq(a.Length1, j requires 0 <= j < a.Length1 reads a => a[i, j])
  }

  /** Rows [s, e) of a strided matrix, as a view of the same memory. */
  function Slice<T>(v: Strided<T>, s: nat): Strided<T> { v.(base := v.base + s * v.rows) }

  lemma SliceRows<T>(v: Strided<T>, n: nat, k: nat, s: nat, e: nat)
    requires Holds(v, n, k) && s <= e <= n
    ensures Holds(Slice(v, s), e - s, k)
    ensures forall q :: s <= q < e ==> Row(Slice(v, s), e - s, k, q - s) == Row(v, n, k, q)
  {
    var u := Slice(v, s);
    forall i: int, j: int ensures Address(u, i, j) == Address(v, s + i, j) {
      assert (s + i) * v.rows == s * v.rows + i * v.rows;
    }
    assert forall i: int, j: int :: Address(u, i, j) == Address(v, s + i, j);
    forall q | s <= q < e ensures Row(u, e - s, k, q - s) == Row(v, n, k, q) {
      assert forall j :: 0 <= j < k ==> At(v, n, k, q, j) == At(u, e - s, k, q - s, j);
    }
  }

  /** After a remap of a chunk, a launch on the buffers' row i computes the stock sum of that row. */
  lemma RemappedAt(shard: Shard, ids: Strided<int>, w: Strided<real>, m: nat, k: nat, outIds: array2<int>,
                   outW: array2<real>, i: nat, y: int -> real)
    requires Fits(shard) && Holds(ids, m, k) && Holds(w, m, k) && i < m
    requires outIds.Length1 == k == outW.Length1 && outIds.Length0 >= m && outW.Length0 >= m
    requires RowDone(shard, ids, w, m, k, outIds, outW, i)
    ensures EngineRow(RowOf(outIds, i), RowOf(outW, i), shard.count, Shifted(y, shard.offset))
         == TopK(Row(ids, m, k, i), Row(w, m, k, i), shard.offset, shard.offset + shard.count, y)
  {
    var t := Matrix(ids, m, k);
    assert RowOf(outIds, i) == RemappedIds(shard, t, i);
    assert RowOf(outW, i) == RemappedWeights(shard, t[i], Row(w, m, k, i));
    RemappedRow(shard, t, i, Row(w, m, k, i), y);
  }

  class Geometry {
    const shard: Shard
    const topk: nat
    const chunk: nat
    const caps: seq<int>
    const exactMax: nat
    const single: bool
    const idsBuf: array2<int>
    const wBuf: array2<real>
    var table: seq<nat>

    ghost predicate Valid() reads this {
      && Fits(shard)
      && Prepared()
      && |table| == exactMax + 1
      && (forall m :: 1 <= m <= exactMax && m <= chunk ==> Smallest(caps, m, table[m]))
      && (single ==> shard.offset == 0)
      && idsBuf.Length0 == chunk == wBuf.Length0 && idsBuf.Length1 == topk == wBuf.Length1
    }

    ghost predicate Prepared() {
      Increasing(caps) && |caps| > 0 && chunk == caps[|caps| - 1] && chunk > 0
    }

    constructor (shard: Shard, topk: nat, chosen: Chosen, exactMax: nat, single: bool)
      requires Fits(shard) && Increasing(chosen.kept) && chosen.kept != []
      requires chosen.chunk == chosen.kept[|chosen.kept| - 1] && chosen.chunk > 0
      requires single ==> shard.offset == 0
      ensures Valid() && fresh(idsBuf) && fresh(wBuf)
      ensures this.shard == shard && this.topk == topk && caps == chosen.kept && this.single == single
      ensures this.chunk == chosen.chunk
    {
      this.shard, this.topk, this.chunk, this.caps := shard, topk, chosen.chunk, chosen.kept;
      this.exactMax, this.single := exactMax, single;
      idsBuf := new int[chosen.chunk, topk];
      wBuf := new real[chosen.chunk, topk];
      table := [0];
      new;
      for m := 1 to exactMax + 1
        modifies this`table
        invariant |table| == m
        invariant forall q :: 1 <= q < m && q <= chunk ==> Smallest(caps, q, table[q])
      {
        var c := Lookup(m);
        table := table + [c];
      }
    }

    /** bisect_left over the capacities, the largest when all are smaller. */
    method Lookup(m: nat) returns (c: nat)
      requires Prepared()
      ensures c in caps
      ensures if m <= chunk then Smallest(caps, m, c) else c == chunk
    {
      var lo, hi := 0, |caps|;
      while lo < hi
        invariant 0 <= lo <= hi <= |caps|
        invariant forall i :: 0 <= i < lo ==> caps[i] < m
        invariant forall i :: hi <= i < |caps| ==> caps[i] >= m
      {
        var mid := (lo + hi) / 2;
        if caps[mid] < m { lo := mid + 1; } else { hi := mid; }
      }
      c := if lo < |caps| then caps[lo] else caps[|caps| - 1];
    }

    method CapFor(m: nat) returns (c: nat)
      requires Valid() && 1 <= m <= chunk
      ensures Smallest(caps, m, c)
    {
      if m <= exactMax { c := table[m]; } else { c := Lookup(m); }
    }

    /** b12x's launch, as its contract: it needs scratch for every row, and writes the engine sum of each row. */
    method Launch<T>(cap: nat, x: seq<T>, ids: seq<seq<int>>, w: seq<seq<real>>, y: Experts<T>,
                     out: array<real>, start: nat)
      requires cap in caps && |x| <= cap && |ids| == |w| == |x| && start + |x| <= out.Length
      requires forall i :: 0 <= i < |x| ==> |ids[i]| == |w[i]|
      modifies out
      ensures forall i :: 0 <= i < |x| ==>
                out[start + i] == EngineRow(ids[i], w[i], shard.count, Shifted(Of(y, x[i]), shard.offset))
      ensures forall i :: 0 <= i < start || start + |x| <= i < out.Length ==> out[i] == old(out[i])
    {
      for i := 0 to |x|
        invariant forall q :: 0 <= q < i ==>
                    out[start + q] == EngineRow(ids[q], w[q], shard.count, Shifted(Of(y, x[q]), shard.offset))
        invariant forall q :: 0 <= q < start || start + i <= q < out.Length ==> out[q] == old(out[q])
      {
        out[start + i] := EngineRow(ids[i], w[i], shard.count, Shifted(Of(y, x[i]), shard.offset));
      }
    }

    /** The stock value of a row on this rank: its slots that name this rank's experts. */
    ghost function Wanted<T>(x: T, row: seq<int>, w: seq<real>, y: Experts<T>): real
      requires |row| == |w|
    {
      TopK(row, w, shard.offset, shard.offset + shard.count, Of(y, x))
    }

    /** For any batch size the chunks cover every row exactly once, each launch has a prepared capacity that
        holds it, and every row of the output is this rank's stock sum, on the remapped and on the direct path. */
    method Forward<T>(x: seq<T>, ids: Strided<int>, w: Strided<real>, plain: bool, y: Experts<T>, out: array<real>)
      returns (launches: seq<(nat, nat, nat)>)
      requires Valid() && Holds(ids, |x|, topk) && Holds(w, |x|, topk) && Ids32(Matrix(ids, |x|, topk))
      requires out.Length == |x|
      modifies idsBuf, wBuf, out
      ensures forall i :: 0 <= i < |x| ==> out[i] == Wanted(x[i], Row(ids, |x|, topk, i), Row(w, |x|, topk, i), y)
      ensures Cover(launches, |x|)
      ensures forall l :: l in launches ==> l.2 in caps && l.1 - l.0 <= l.2 && l.1 - l.0 <= chunk
    {
      launches := [];
      var s, n := 0, |x|;
      while s < n
        invariant 0 <= s <= n
        invariant forall i :: 0 <= i < s ==> out[i] == Wanted(x[i], Row(ids, n, topk, i), Row(w, n, topk, i), y)
        invariant Cover(launches, s)
        invariant forall l :: l in launches ==> l.2 in caps && l.1 - l.0 <= l.2 && l.1 - l.0 <= chunk
      {
        var e := if n < s + chunk then n else s + chunk;
        var cap := CapFor(e - s);
        Chunk(x, ids, w, plain, y, out, s, e, cap);
        launches := launches + [(s, e, cap)];
        s := e;
      }
    }

    method Chunk<T>(x: seq<T>, ids: Strided<int>, w: Strided<real>, plain: bool, y: Experts<T>, out: array<real>,
                    s: nat, e: nat, cap: nat)
      requires Valid() && Holds(ids, |x|, topk) && Holds(w, |x|, topk) && Ids32(Matrix(ids, |x|, topk))
      requires out.Length == |x| && s < e <= |x| && e - s <= chunk && cap in caps && e - s <= cap
      modifies idsBuf, wBuf, out
      ensures forall i :: s <= i < e ==> out[i] == Wanted(x[i], Row(ids, |x|, topk, i), Row(w, |x|, topk, i), y)
      ensures forall i :: 0 <= i < s || e <= i < |x| ==> out[i] == old(out[i])
    {
      var m := e - s;
      var idsPart, wPart := Slice(ids, s), Slice(w, s);
      SliceRows(ids, |x|, topk, s, e);
      SliceRows(w, |x|, topk, s, e);
      if single && plain {
        LaunchDirect(x[s..e], idsPart, wPart, y, out, s, cap);
      } else {
        assert Ids32(Matrix(idsPart, m, topk)) by {
          forall i, j | 0 <= i < m && 0 <= j < topk ensures Int32(Matrix(idsPart, m, topk)[i][j]) {
            assert Matrix(ids, |x|, topk)[s + i][j] == Row(idsPart, m, topk, i)[j];
          }
        }
        LaunchRemapped(x[s..e], idsPart, wPart, y, out, s, cap);
      }
      forall i | s <= i < e
        ensures out[i] == Wanted(x[i], Row(ids, |x|, topk, i), Row(w, |x|, topk, i), y)
      {
        assert out[s + (i - s)] == out[i] && x[s..e][i - s] == x[i];
      }
    }

    method LaunchDirect<T>(x: seq<T>, ids: Strided<int>, w: Strided<real>, y: Experts<T>, out: array<real>, start: nat,
                           cap: nat)
      requires Valid() && single && Holds(ids, |x|, topk) && Holds(w, |x|, topk)
      requires start + |x| <= out.Length && cap in caps && |x| <= cap
      modifies out
      ensures forall i :: 0 <= i < |x| ==>
                out[start + i] == Wanted(x[i], Row(ids, |x|, topk, i), Row(w, |x|, topk, i), y)
      ensures forall i :: 0 <= i < start || start + |x| <= i < out.Length ==> out[i] == old(out[i])
    {
      Launch(cap, x, Matrix(ids, |x|, topk), Matrix(w, |x|, topk), y, out, start);
      forall i | 0 <= i < |x|
        ensures out[start + i] == Wanted(x[i], Row(ids, |x|, topk, i), Row(w, |x|, topk, i), y)
      {
        DirectRow(Row(ids, |x|, topk, i), Row(w, |x|, topk, i), shard.count, Of(y, x[i]));
      }
    }

    method LaunchRemapped<T>(x: seq<T>, ids: Strided<int>, w: Strided<real>, y: Experts<T>, out: array<real>,
                             start: nat,
                             cap: nat)
      requires Valid() && Holds(ids, |x|, topk) && Holds(w, |x|, topk) && Ids32(Matrix(ids, |x|, topk))
      requires start + |x| <= out.Length && cap in caps && 0 < |x| <= cap && |x| <= chunk
      modifies idsBuf, wBuf, out
      ensures forall i :: 0 <= i < |x| ==>
                out[start + i] == Wanted(x[i], Row(ids, |x|, topk, i), Row(w, |x|, topk, i), y)
      ensures forall i :: 0 <= i < start || start + |x| <= i < out.Length ==> out[i] == old(out[i])
    {
      var m := |x|;
      var kp := Lanes.Pow2(topk);
      var ok := EpRemap(shard, ids, w, m, topk, (m, topk), kp, idsBuf, wBuf);
      var newIds := seq(m, i requires 0 <= i < m <= idsBuf.Length0 reads idsBuf => RowOf(idsBuf, i));
      var newW := seq(m, i requires 0 <= i < m <= wBuf.Length0 reads wBuf => RowOf(wBuf, i));
      forall i | 0 <= i < m
        ensures EngineRow(newIds[i], newW[i], shard.count, Shifted(Of(y, x[i]), shard.offset))
             == Wanted(x[i], Row(ids, m, topk, i), Row(w, m, topk, i), y)
      {
        RemappedAt(shard, ids, w, m, topk, idsBuf, wBuf, i, Of(y, x[i]));
      }
      Launch(cap, x, newIds, newW, y, out, start);
    }
  }

  /** The launches' row ranges follow one another from 0 to n. */
  ghost predicate Cover(launches: seq<(nat, nat, nat)>, n: nat) {
    if launches == [] then n == 0
    else
      var l := launches[|launches| - 1];
      l.1 == n && l.0 < l.1 && Cover(launches[..|launches| - 1], l.0)
  }
}
