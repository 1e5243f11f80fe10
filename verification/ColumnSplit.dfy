/**
 * The column split of a replicated linear layer (adapter/replicated_split.py): which columns each rank
 * computes, and the gathers that put the stock output back together.
 */
module ColumnRanges {
  import opened Wrappers

  const TILE: nat := 128
  const PACK: nat := 16

  /** Columns [lo, hi). */
  datatype Range = Range(lo: nat, hi: nat)

  /** Consecutive ranges, none reversed, that cover [0, n). */
  ghost predicate Partition(ranges: seq<Range>, n: nat) {
    && ranges != []
    && ranges[0].lo == 0 && ranges[|ranges| - 1].hi == n
    && (forall r :: 0 <= r < |ranges| ==> ranges[r].lo <= ranges[r].hi)
    && (forall r :: 0 < r < |ranges| ==> ranges[r].lo == ranges[r - 1].hi)
  }

  lemma {:induction false} PartitionOrdered(ranges: seq<Range>, n: nat, a: nat, b: nat)
    requires Partition(ranges, n) && a <= b < |ranges|
    ensures ranges[a].hi <= ranges[b].hi <= n && ranges[a].lo <= ranges[b].lo
  {
    if a < b {
      PartitionOrdered(ranges, n, a, b - 1);
      assert ranges[b].lo == ranges[b - 1].hi;
    }
    PartitionBelow(ranges, n, b);
  }

  lemma {:induction false} PartitionBelow(ranges: seq<Range>, n: nat, b: nat)
    requires Partition(ranges, n) && b < |ranges|
    ensures ranges[b].hi <= n
    decreases |ranges| - b
  {
    if b < |ranges| - 1 {
      PartitionBelow(ranges, n, b + 1);
      assert ranges[b + 1].lo == ranges[b].hi;
    }
  }

  /** Every column has exactly one owner. */
  lemma {:induction false} OneOwner(ranges: seq<Range>, n: nat, c: nat)
    requires Partition(ranges, n) && c < n
    ensures exists r :: 0 <= r < |ranges| && Owns(ranges, r, c)
    ensures forall a, b :: 0 <= a < |ranges| && 0 <= b < |ranges| && Owns(ranges, a, c) && Owns(ranges, b, c) ==> a == b
  {
    var r := 0;
    while ranges[r].hi <= c
      invariant 0 <= r < |ranges| && ranges[r].lo <= c
      decreases |ranges| - r
    {
      assert r < |ranges| - 1;
      assert ranges[r + 1].lo == ranges[r].hi;
      r := r + 1;
    }
    assert Owns(ranges, r, c);
    forall a, b | 0 <= a < b < |ranges| ensures !(Owns(ranges, a, c) && Owns(ranges, b, c)) {
      PartitionOrdered(ranges, n, a, b - 1);
      assert ranges[b].lo == ranges[b - 1].hi;
    }
  }

  predicate Owns(ranges: seq<Range>, r: nat, c: nat)
    requires r < |ranges|
  {
    ranges[r].lo <= c < ranges[r].hi
  }

  function Total(counts: seq<nat>): nat {
    if counts == [] then 0 else Total(counts[..|counts| - 1]) + counts[|counts| - 1]
  }

  /** Rank r's tiles: an equal share each, one more for the first `tiles % world` ranks. */
  function Share(tiles: nat, world: nat, r: nat): nat
    requires world > 0
  {
    tiles / world + if r < tiles % world then 1 else 0
  }

  /** The tiles before rank r. */
  function Cut(tiles: nat, world: nat, r: nat): nat
    requires world > 0
  {
    if r == 0 then 0 else Cut(tiles, world, r - 1) + Share(tiles, world, r - 1)
  }

  lemma {:induction false} CutIs(tiles: nat, world: nat, r: nat)
    requires world > 0
    ensures Cut(tiles, world, r) == r * (tiles / world) + if r < tiles % world then r else tiles % world
  {
    if r > 0 {
      CutIs(tiles, world, r - 1);
      assert r * (tiles / world) == (r - 1) * (tiles / world) + tiles / world;
    }
  }

  /** All tiles are dealt out. */
  lemma CutAll(tiles: nat, world: nat)
    requires world > 0
    ensures Cut(tiles, world, world) == tiles
  {
    CutIs(tiles, world, world);
    assert tiles == world * (tiles / world) + tiles % world;
  }

  function RangeOf(tiles: nat, world: nat, r: nat): Range
    requires world > 0
  {
    Range(Cut(tiles, world, r) * TILE, Cut(tiles, world, r + 1) * TILE)
  }

  /** The ranges of all ranks. */
  function TileRanges(n: nat, world: nat): (ranges: seq<Range>)
    requires world > 0
  {
    seq(world, r requires 0 <= r < world => RangeOf(n / TILE, world, r))
  }

  /** Whole, non-empty tile ranges that partition [0, n); every range fits in `width`, and rank 0's fills it. */
  method Ranges(n: nat, world: nat) returns (ranges: seq<Range>, width: nat)
    requires world > 0 && n % TILE == 0 && n / TILE >= world
    ensures |ranges| == world && Partition(ranges, n)
    ensures forall r :: 0 <= r < world ==>
              ranges[r].lo % TILE == 0 && ranges[r].hi % TILE == 0 && 0 < ranges[r].hi - ranges[r].lo <= width
    ensures forall r :: 0 <= r < world ==> width <= ranges[r].hi - ranges[r].lo + TILE
    ensures forall r :: 0 <= r < world ==>
              ranges[r].hi - ranges[r].lo == (n / 128 / world + if r < n / 128 % world then 1 else 0) * 128
    ensures ranges[0] == Range(0, width) && width <= n && width % TILE == 0
    ensures ranges == TileRanges(n, world)
  {
    hide Cut, RangeOf, Partition, Total, Share;
    var tiles := n / TILE;
    var counts: seq<nat> := seq(world, r requires 0 <= r < world => Share(tiles, world, r));
    ranges := [];
    var most := 0;
    TotalStep(tiles, world, counts, 0);
    for r := 0 to world
      invariant |ranges| == r
      invariant Total(counts[..r]) == Cut(tiles, world, r)
      invariant forall q :: 0 <= q < r ==> ranges[q] == RangeOf(tiles, world, q)
      invariant most == if r == 0 then 0 else Share(tiles, world, 0)
    {
      TotalStep(tiles, world, counts, r);
      var s := Total(counts[..r]) * TILE;
      ranges := ranges + [Range(s, s + counts[r] * TILE)];
      if counts[r] > most { most := counts[r]; }
    }
    width := most * TILE;
    RangesPartition(n, world, ranges);
    forall r | 0 <= r < world
      ensures ranges[r].hi - ranges[r].lo == (tiles / world + if r < tiles % world then 1 else 0) * TILE
    {
      RangeWidth(tiles, world, r);
    }
  }

  lemma RangeWidth(tiles: nat, world: nat, r: nat)
    requires world > 0
    ensures RangeOf(tiles, world, r).hi - RangeOf(tiles, world, r).lo
         == (tiles / world + if r < tiles % world then 1 else 0) * TILE
  {
    assert Cut(tiles, world, r + 1) == Cut(tiles, world, r) + Share(tiles, world, r);
    hide Cut;
  }

  lemma TotalStep(tiles: nat, world: nat, counts: seq<nat>, r: nat)
    requires world > 0 && r < |counts| == world && counts[r] == Share(tiles, world, r)
    ensures Total(counts[..0]) == 0 == Cut(tiles, world, 0)
    ensures Total(counts[..r + 1]) == Total(counts[..r]) + Share(tiles, world, r)
    ensures Cut(tiles, world, r + 1) == Cut(tiles, world, r) + Share(tiles, world, r)
    ensures RangeOf(tiles, world, r)
         == Range(Cut(tiles, world, r) * TILE, Cut(tiles, world, r) * TILE + Share(tiles, world, r) * TILE)
    ensures Share(tiles, world, r) <= Share(tiles, world, 0)
  {
    assert counts[..r + 1][..r] == counts[..r];
  }

  lemma RangesPartition(n: nat, world: nat, ranges: seq<Range>)
    requires world > 0 && n % TILE == 0 && n / TILE >= world && |ranges| == world
    requires forall q :: 0 <= q < world ==> ranges[q] == RangeOf(n / TILE, world, q)
    ensures Partition(ranges, n)
    ensures forall r :: 0 <= r < world ==>
              ranges[r].lo % TILE == 0 && ranges[r].hi % TILE == 0 &&
              0 < ranges[r].hi - ranges[r].lo <= Share(n / TILE, world, 0) * TILE <= ranges[r].hi - ranges[r].lo + TILE
    ensures ranges[0] == Range(0, Share(n / TILE, world, 0) * TILE) && ranges[0].hi <= n
  {
    var tiles := n / TILE;
    hide Cut, Share, RangeOf;
    assert tiles * TILE == n;
    forall r | 0 <= r < world
      ensures ranges[r].lo % TILE == 0 && ranges[r].hi % TILE == 0
      ensures 0 < ranges[r].hi - ranges[r].lo <= Share(tiles, world, 0) * TILE <= ranges[r].hi - ranges[r].lo + TILE
    {
      RangeShape(tiles, world, r);
    }
    forall r | 0 < r < world ensures ranges[r].lo == ranges[r - 1].hi {
      RangeShape(tiles, world, r - 1);
      RangeShape(tiles, world, r);
    }
    RangeShape(tiles, world, 0);
    RangeShape(tiles, world, world - 1);
    CutAll(tiles, world);
    assert Partition(ranges, n);
    PartitionBelow(ranges, n, 0);
  }

  lemma RangeShape(tiles: nat, world: nat, r: nat)
    requires tiles >= world > 0
    ensures RangeOf(tiles, world, r) == Range(Cut(tiles, world, r) * TILE, Cut(tiles, world, r + 1) * TILE)
    ensures Cut(tiles, world, 0) == 0
    ensures RangeOf(tiles, world, r).lo % TILE == 0 && RangeOf(tiles, world, r).hi % TILE == 0
    ensures 0 < RangeOf(tiles, world, r).hi - RangeOf(tiles, world, r).lo <= Share(tiles, world, 0) * TILE
         <= RangeOf(tiles, world, r).hi - RangeOf(tiles, world, r).lo + TILE
    ensures RangeOf(tiles, world, 0).hi == Share(tiles, world, 0) * TILE
  {
    AtLeastOne(tiles, world);
    assert Cut(tiles, world, r + 1) == Cut(tiles, world, r) + Share(tiles, world, r);
    assert Cut(tiles, world, 1) == Cut(tiles, world, 0) + Share(tiles, world, 0);
    hide Cut, Share;
  }

  lemma AtLeastOne(tiles: nat, world: nat)
    requires tiles >= world > 0
    ensures tiles / world >= 1
  {
    var q := tiles / world;
    assert tiles == world * q + tiles % world;
    assert q <= 0 ==> world * q <= 0;
  }

  function Window(n: nat, lo: nat, width: nat): int { if n - width < lo then n - width else lo }

  /** Every rank's window lies in [0, n), starts on a tile and contains the rank's own range. */
  lemma WindowContains(n: nat, world: nat, ranges: seq<Range>, width: nat, r: nat)
    requires n % TILE == 0 && width % TILE == 0 && width <= n && Partition(ranges, n) && r < |ranges|
    requires ranges[r].lo % TILE == 0 && ranges[r].hi - ranges[r].lo <= width
    ensures 0 <= Window(n, ranges[r].lo, width) <= ranges[r].lo
    ensures ranges[r].hi <= Window(n, ranges[r].lo, width) + width <= n
    ensures Window(n, ranges[r].lo, width) % TILE == 0
  {
    PartitionBelow(ranges, n, r);
  }

  // ---- 16-byte packs ----

  datatype Packs = Packs(widths: seq<nat>, offsets: seq<nat>, row: nat)

  /** Ranges in 16-byte packs, refused when a width or an offset is not whole packs. */
  method PackLayout(ranges: seq<Range>, n: nat, es: nat) returns (p: Option<Packs>)
    requires Partition(ranges, n)
    ensures p == None <==> exists r :: 0 <= r < |ranges| && !WholePacks(ranges[r], es)
    ensures p.Some? ==> |p.value.widths| == |ranges| == |p.value.offsets| && p.value.row * PACK == n * es
    ensures p.Some? ==> forall r :: 0 <= r < |ranges| ==> InPacks(p.value.offsets[r], p.value.widths[r], ranges[r], es)
  {
    hide Partition, InPacks, WholePacks;
    PartitionSteps(ranges, n);
    var widths: seq<nat>, offsets: seq<nat> := [], [];
    var total := 0;
    for r := 0 to |ranges|
      invariant |widths| == r == |offsets|
      invariant forall q :: 0 <= q < r ==> WholePacks(ranges[q], es)
      invariant forall q :: 0 <= q < r ==> InPacks(offsets[q], widths[q], ranges[q], es)
      invariant total == if r == 0 then 0 else ranges[r - 1].hi
    {
      if !WholePacks(ranges[r], es) { return None; }
      var w, d := (ranges[r].hi - ranges[r].lo) * es, ranges[r].lo * es;
      WholeStep(ranges[r], es);
      widths, offsets := widths + [w / PACK], offsets + [d / PACK];
      total := total + (ranges[r].hi - ranges[r].lo);
    }
    RowOfPacks(offsets[|ranges| - 1], widths[|ranges| - 1], ranges[|ranges| - 1], es);
    p := Some(Packs(widths, offsets, total * es / PACK));
  }

  /** A range's bytes as packs. */
  ghost predicate InPacks(offset: nat, width: nat, g: Range, es: nat) {
    offset * PACK == g.lo * es && (offset + width) * PACK == g.hi * es
  }

  lemma RowOfPacks(offset: nat, width: nat, last: Range, es: nat)
    requires InPacks(offset, width, last, es)
    ensures last.hi * es / PACK * PACK == last.hi * es
  {}

  lemma WholeStep(g: Range, es: nat)
    requires g.lo <= g.hi && WholePacks(g, es)
    ensures InPacks(g.lo * es / PACK, (g.hi - g.lo) * es / PACK, g, es)
  {
    assert (g.hi - g.lo) * es + g.lo * es == g.hi * es;
  }

  lemma PartitionSteps(ranges: seq<Range>, n: nat)
    requires Partition(ranges, n)
    ensures ranges != [] && ranges[0].lo == 0 && ranges[|ranges| - 1].hi == n
    ensures forall r :: 0 <= r < |ranges| ==>
              ranges[r].lo <= ranges[r].hi && ranges[r].lo == if r == 0 then 0 else ranges[r - 1].hi
  {}

  predicate WholePacks(g: Range, es: nat)
    requires g.lo <= g.hi
  {
    (g.hi - g.lo) * es % PACK == 0 && g.lo * es % PACK == 0
  }

  /** Copying whole packs moves exactly the right bytes: byte k of column c is in rank r's packs if and only if
      rank r owns column c. */
  lemma PackBytes(ranges: seq<Range>, n: nat, es: nat, p: Packs, r: nat, c: nat, k: nat)
    requires Partition(ranges, n) && |p.widths| == |ranges| == |p.offsets| && r < |ranges| && c < n && k < es
    requires InPacks(p.offsets[r], p.widths[r], ranges[r], es)
    ensures p.offsets[r] <= (c * es + k) / PACK < p.offsets[r] + p.widths[r] <==> Owns(ranges, r, c)
  {
    var b := c * es + k;
    assert p.offsets[r] <= b / PACK <==> ranges[r].lo * es <= b;
    assert b / PACK < p.offsets[r] + p.widths[r] <==> b < ranges[r].hi * es;
    ByteOfColumn(c, es, k, ranges[r].lo);
    ByteOfColumn(c, es, k, ranges[r].hi);
  }

  lemma ByteOfColumn(c: nat, es: nat, k: nat, x: nat)
    requires k < es
    ensures x * es <= c * es + k <==> x <= c
  {
    Scaled(x, c, es);
    Scaled(c + 1, x, es);
    assert (c + 1) * es == c * es + es;
  }

  lemma Scaled(a: nat, b: nat, es: nat)
    ensures a <= b ==> a * es <= b * es
  {
    if a <= b { assert (b - a) * es == b * es - a * es; }
  }

  /** Tile ranges are whole packs whatever the element size, so the split itself never refuses. */
  lemma TilesArePacks(g: Range, es: nat)
    requires g.lo <= g.hi && g.lo % TILE == 0 && g.hi % TILE == 0
    ensures WholePacks(g, es)
  {
    MultipleOfPack(g.lo, es);
    MultipleOfPack(g.hi - g.lo, es);
  }

  lemma MultipleOfPack(x: nat, es: nat)
    requires x % TILE == 0
    ensures x * es % PACK == 0
  {
    var t := x / TILE;
    var u := 8 * t * es;
    assert x == 16 * (8 * t);
    assert x * es == 16 * u;
  }
}

/** The gathers, each against the stock output. */
module ColumnGather {
  import opened Wrappers
  import opened ColumnRanges

  type Mat<V> = seq<seq<V>>

  /** Rank r computes columns [starts[r], ends[r]); its own range begins offsets[r] into them. */
  datatype Split = Split(ranges: seq<Range>, width: nat, starts: seq<nat>, ends: seq<nat>, offsets: seq<nat>)

  ghost predicate Sound(st: Split, n: nat) {
    && Partition(st.ranges, n)
    && |st.starts| == |st.ends| == |st.offsets| == |st.ranges|
    && forall r :: 0 <= r < |st.ranges| ==> SoundAt(st, n, r)
  }

  ghost predicate SoundAt(st: Split, n: nat, r: nat)
    requires r < |st.ranges| && |st.starts| == |st.ends| == |st.offsets| == |st.ranges|
  {
    && st.starts[r] + st.offsets[r] == st.ranges[r].lo <= st.ranges[r].hi <= st.ends[r] <= n
    && st.ends[r] - st.starts[r] <= st.width
  }

  ghost predicate IsMat<V>(t: Mat<V>, m: nat, n: nat) { |t| == m && forall i :: 0 <= i < m ==> |t[i]| == n }

  /** Each rank's output is its columns of the stock output. */
  ghost predicate Shards<V>(stock: Mat<V>, m: nat, n: nat, st: Split, locals: seq<Mat<V>>) {
    && IsMat(stock, m, n) && Sound(st, n) && |locals| == |st.ranges|
    && forall r :: 0 <= r < |locals| ==>
         SoundAt(st, n, r) && |locals[r]| == m &&
         forall i :: 0 <= i < m ==> locals[r][i] == stock[i][st.starts[r]..st.ends[r]]
  }

  // ---- collectives ----

  function Flat<V>(parts: seq<seq<V>>): seq<V> {
    if parts == [] then [] else Flat(parts[..|parts| - 1]) + parts[|parts| - 1]
  }

  /** all_gather along the columns: row i is every rank's row i in rank order. */
  function GatherColumns<V>(parts: seq<Mat<V>>, m: nat): (g: Mat<V>)
    requires forall r :: 0 <= r < |parts| ==> |parts[r]| == m
    ensures |g| == m
  {
    seq(m, i requires 0 <= i < m => Flat(seq(|parts|, r requires 0 <= r < |parts| => parts[r][i])))
  }

  /** all_gather along the rows: every rank's rows in rank order. */
  function GatherRows<V>(parts: seq<Mat<V>>): Mat<V> { Flat(parts) }

  lemma {:induction false} FlatSlice<V>(parts: seq<seq<V>>, width: nat, r: nat)
    requires r < |parts| && forall q :: 0 <= q < |parts| ==> |parts[q]| == width
    ensures |Flat(parts)| == |parts| * width
    ensures r * width + width <= |parts| * width
    ensures Flat(parts)[r * width..r * width + width] == parts[r]
  {
    var n := |parts| - 1;
    FlatLength(parts[..n], width);
    assert (n + 1) * width == n * width + width;
    if r < n {
      FlatSlice(parts[..n], width, r);
    }
  }

  lemma {:induction false} FlatLength<V>(parts: seq<seq<V>>, width: nat)
    requires forall q :: 0 <= q < |parts| ==> |parts[q]| == width
    ensures |Flat(parts)| == |parts| * width
  {
    if parts != [] {
      FlatLength(parts[..|parts| - 1], width);
      assert |parts| * width == (|parts| - 1) * width + width;
    }
  }

  /** Pieces cut along a partition put the row back together. */
  lemma {:induction false} Rejoin<V>(s: seq<V>, ranges: seq<Range>, pieces: seq<seq<V>>, k: nat)
    requires Partition(ranges, |s|) && k <= |ranges| == |pieces|
    requires forall r :: 0 <= r < |ranges| ==> ranges[r].hi <= |s| && pieces[r] == s[ranges[r].lo..ranges[r].hi]
    ensures Flat(pieces[..k]) == if k == 0 then [] else s[..ranges[k - 1].hi]
  {
    if k > 0 {
      Rejoin(s, ranges, pieces, k - 1);
      assert pieces[..k][..k - 1] == pieces[..k - 1];
    }
  }

  // ---- the gathers ----

  /** Zero columns up to `width`; a window is already that wide. */
  function Padded<V>(local: seq<V>, width: nat, zero: V): (p: seq<V>)
    requires |local| <= width
    ensures |p| == width && p[..|local|] == local
  {
    local + seq(width - |local|, _ => zero)
  }

  function PaddedAll<V>(locals: seq<Mat<V>>, m: nat, width: nat, zero: V): (p: seq<Mat<V>>)
    requires forall r :: 0 <= r < |locals| ==> |locals[r]| == m && forall i :: 0 <= i < m ==> |locals[r][i]| <= width
    ensures |p| == |locals|
    ensures forall r :: 0 <= r < |p| ==> |p[r]| == m
  {
    seq(|locals|, r requires 0 <= r < |locals| =>
      seq(m, i requires 0 <= i < m => Padded(locals[r][i], width, zero)))
  }

  /** One gathered row put in stock order; when every range is a full width the row already is. */
  function AssembleRow<V>(row: seq<V>, st: Split): (out: seq<V>)
    requires |st.offsets| == |st.ranges| && |row| == |st.ranges| * st.width && Slots(st)
  {
    if forall r :: 0 <= r < |st.ranges| ==> st.ranges[r].hi - st.ranges[r].lo == st.width then
      row
    else
      Flat(Owned(row, st))
  }

  function Owned<V>(row: seq<V>, st: Split): (p: seq<seq<V>>)
    requires |st.offsets| == |st.ranges| && |row| == |st.ranges| * st.width && Slots(st)
    ensures |p| == |st.ranges| && forall r :: 0 <= r < |p| ==> p[r] == Own(row, st, r)
  {
    seq(|st.ranges|, r requires 0 <= r < |st.ranges| => Own(row, st, r))
  }

  /** Rank r's own columns in a gathered row. */
  function Own<V>(row: seq<V>, st: Split, r: nat): seq<V>
    requires |st.offsets| == |st.ranges| && |row| == |st.ranges| * st.width && Slots(st) && r < |st.ranges|
  {
    SlotInRow(|st.ranges|, st.width, r, st.offsets[r], st.ranges[r].hi - st.ranges[r].lo);
    var own := r * st.width + st.offsets[r];
    row[own..own + (st.ranges[r].hi - st.ranges[r].lo)]
  }

  /** Every rank's own columns lie inside its part of the gather. */
  ghost predicate Slots(st: Split)
    requires |st.offsets| == |st.ranges|
  {
    forall r :: 0 <= r < |st.ranges| ==>
      st.ranges[r].lo <= st.ranges[r].hi && st.offsets[r] + (st.ranges[r].hi - st.ranges[r].lo) <= st.width
  }

  /** The stacked gather, cut out of [world, M, width] views. */
  function AssembleStacked<V>(stacked: Mat<V>, m: nat, st: Split): (out: Mat<V>)
    requires StackedFits(stacked, m, st)
    ensures |out| == m
  {
    seq(m, i requires 0 <= i < m => Flat(StackedPieces(stacked, m, st, i)))
  }

  ghost predicate StackedFits<V>(stacked: Mat<V>, m: nat, st: Split) {
    && |st.offsets| == |st.ranges| && |stacked| == |st.ranges| * m && Slots(st)
    && forall q :: 0 <= q < |stacked| ==> |stacked[q]| == st.width
  }

  function StackedPieces<V>(stacked: Mat<V>, m: nat, st: Split, i: nat): (p: seq<seq<V>>)
    requires StackedFits(stacked, m, st) && i < m
    ensures |p| == |st.ranges|
  {
    seq(|st.ranges|, r requires 0 <= r < |st.ranges| =>
      RowInRange(|st.ranges|, m, r, i); StackedPiece(stacked[r * m + i], st, r))
  }

  /** Rank r's own columns of its own part. */
  function StackedPiece<V>(part: seq<V>, st: Split, r: nat): seq<V>
    requires r < |st.ranges| == |st.offsets| && st.ranges[r].lo <= st.ranges[r].hi
    requires st.offsets[r] + (st.ranges[r].hi - st.ranges[r].lo) <= |part|
  {
    part[st.offsets[r]..st.offsets[r] + (st.ranges[r].hi - st.ranges[r].lo)]
  }

  lemma RowInRange(world: nat, m: nat, r: nat, i: nat)
    requires r < world && i < m
    ensures r * m + i < world * m
  {
    assert (world - r - 1) * m >= 0;
    assert world * m == (world - r - 1) * m + r * m + m;
  }

  /** What the rank pads and gathers, row by row. */
  lemma PaddedRow<V>(stock: Mat<V>, m: nat, n: nat, st: Split, locals: seq<Mat<V>>, zero: V, r: nat, i: nat)
    requires Shards(stock, m, n, st, locals) && r < |locals| && i < m && SoundAt(st, n, r)
    ensures |locals[r][i]| <= st.width
    ensures st.offsets[r] + (st.ranges[r].hi - st.ranges[r].lo) <= st.width
    ensures Padded(locals[r][i], st.width, zero)[st.offsets[r]..st.offsets[r] + (st.ranges[r].hi - st.ranges[r].lo)]
         == stock[i][st.ranges[r].lo..st.ranges[r].hi]
  {
    assert SoundAt(st, n, r);
    var local := locals[r][i];
    assert local == stock[i][st.starts[r]..st.ends[r]];
    var o, len := st.offsets[r], st.ranges[r].hi - st.ranges[r].lo;
    assert Padded(local, st.width, zero)[o..o + len] == local[o..o + len];
    SubSlice(stock[i], st.starts[r], st.ends[r] - st.starts[r], o, len);
  }

  lemma ShardsNarrow<V>(stock: Mat<V>, m: nat, n: nat, st: Split, locals: seq<Mat<V>>)
    requires Shards(stock, m, n, st, locals)
    ensures forall r :: 0 <= r < |locals| ==>
              |locals[r]| == m && forall i :: 0 <= i < m ==> |locals[r][i]| <= st.width
  {
    forall r, i | 0 <= r < |locals| && 0 <= i < m ensures |locals[r][i]| <= st.width {
      assert SoundAt(st, n, r);
    }
  }

  /** Every rank's part fits the gather's width and holds its own columns. */
  ghost predicate Ready<V>(st: Split, m: nat, locals: seq<Mat<V>>) {
    && |locals| == |st.ranges| == |st.offsets| && Slots(st)
    && forall r :: 0 <= r < |locals| ==> |locals[r]| == m && forall i :: 0 <= i < m ==> |locals[r][i]| <= st.width
  }

  lemma ShardsReady<V>(stock: Mat<V>, m: nat, n: nat, st: Split, locals: seq<Mat<V>>)
    requires Shards(stock, m, n, st, locals)
    ensures Ready(st, m, locals)
  {
    ShardsNarrow(stock, m, n, st, locals);
    forall r | 0 <= r < |locals|
      ensures st.ranges[r].lo <= st.ranges[r].hi && st.offsets[r] + (st.ranges[r].hi - st.ranges[r].lo) <= st.width
    {
      assert SoundAt(st, n, r);
    }
  }

  lemma PaddedWidth<V>(st: Split, m: nat, locals: seq<Mat<V>>, zero: V, i: nat)
    requires Ready(st, m, locals) && i < m
    ensures |GatherColumns(PaddedAll(locals, m, st.width, zero), m)[i]| == |st.ranges| * st.width
  {
    var p := PaddedAll(locals, m, st.width, zero);
    FlatLength(seq(|p|, r requires 0 <= r < |p| => p[r][i]), st.width);
  }

  lemma SlotInRow(world: nat, width: nat, r: nat, o: nat, len: nat)
    requires r < world && o + len <= width
    ensures r * width + o + len <= world * width
  {
    assert (world - r - 1) * width >= 0;
    assert world * width == (world - r - 1) * width + r * width + width;
  }

  /** The old path: pad, gather along the columns, reorder. */
  function OldPath<V>(st: Split, m: nat, locals: seq<Mat<V>>, zero: V): (out: Mat<V>)
    requires Ready(st, m, locals)
    ensures |out| == m
  {
    var g := GatherColumns(PaddedAll(locals, m, st.width, zero), m);
    seq(m, i requires 0 <= i < m => PaddedWidth(st, m, locals, zero, i); AssembleRow(g[i], st))
  }

  /** The compact path without RoCE: pad, gather along the rows, cut every view and concatenate once. */
  function MinimalPath<V>(st: Split, m: nat, locals: seq<Mat<V>>, zero: V): (out: Mat<V>)
    requires Ready(st, m, locals)
    ensures |out| == m
  {
    var p := PaddedAll(locals, m, st.width, zero);
    var g := GatherRows(p);
    FlatLength(p, m);
    StackedRows(p, m, st.width);
    AssembleStacked(g, m, st)
  }

  lemma {:induction false} StackedRows<V>(p: seq<Mat<V>>, m: nat, width: nat)
    requires forall r :: 0 <= r < |p| ==> |p[r]| == m && forall i :: 0 <= i < m ==> |p[r][i]| == width
    ensures forall q :: 0 <= q < |Flat(p)| ==> |Flat(p)[q]| == width
  {
    if p != [] { StackedRows(p[..|p| - 1], m, width); }
  }

  lemma OldPathIsStock<V>(stock: Mat<V>, m: nat, n: nat, st: Split, locals: seq<Mat<V>>, zero: V)
    requires Shards(stock, m, n, st, locals) && Ready(st, m, locals)
    ensures OldPath(st, m, locals, zero) == stock
  {
    forall i | 0 <= i < m ensures OldPath(st, m, locals, zero)[i] == stock[i] {
      OldPathRow(stock, m, n, st, locals, zero, i);
    }
  }

  /** Row i cut along the ranges. */
  function Pieces<V>(row: seq<V>, ranges: seq<Range>): (p: seq<seq<V>>)
    requires forall r :: 0 <= r < |ranges| ==> ranges[r].lo <= ranges[r].hi <= |row|
    ensures |p| == |ranges|
  {
    seq(|ranges|, r requires 0 <= r < |ranges| => row[ranges[r].lo..ranges[r].hi])
  }

  lemma RangesIn(ranges: seq<Range>, n: nat)
    requires Partition(ranges, n)
    ensures forall r :: 0 <= r < |ranges| ==> ranges[r].lo <= ranges[r].hi <= n
  {
    forall r | 0 <= r < |ranges| ensures ranges[r].hi <= n { PartitionBelow(ranges, n, r); }
  }

  lemma PiecesRejoin<V>(row: seq<V>, ranges: seq<Range>)
    requires Partition(ranges, |row|)
    requires forall r :: 0 <= r < |ranges| ==> ranges[r].lo <= ranges[r].hi <= |row|
    ensures Flat(Pieces(row, ranges)) == row
  {
    var p := Pieces(row, ranges);
    Rejoin(row, ranges, p, |ranges|);
    assert p[..|ranges|] == p;
  }

  lemma OldPathRow<V>(stock: Mat<V>, m: nat, n: nat, st: Split, locals: seq<Mat<V>>, zero: V, i: nat)
    requires Shards(stock, m, n, st, locals) && Ready(st, m, locals) && i < m
    ensures OldPath(st, m, locals, zero)[i] == stock[i]
  {
    var p := PaddedAll(locals, m, st.width, zero);
    var parts := seq(|p|, r requires 0 <= r < |p| => p[r][i]);
    PaddedWidth(st, m, locals, zero, i);
    RangesIn(st.ranges, n);
    forall r | 0 <= r < |st.ranges| ensures PartHolds(parts, Pieces(stock[i], st.ranges), st, r) {
      assert SoundAt(st, n, r);
      PaddedRow(stock, m, n, st, locals, zero, r, i);
    }
    CutRow(parts, Pieces(stock[i], st.ranges), st);
    PiecesRejoin(stock[i], st.ranges);
  }

  ghost predicate PartHolds<V>(parts: seq<seq<V>>, pieces: seq<seq<V>>, st: Split, r: nat)
    requires |parts| == |pieces| == |st.ranges| == |st.offsets| && r < |parts| && Slots(st)
  {
    && |parts[r]| == st.width
    && parts[r][st.offsets[r]..st.offsets[r] + (st.ranges[r].hi - st.ranges[r].lo)] == pieces[r]
  }

  /** Reordering the gathered row gives the pieces in order, on both branches. */
  lemma CutRow<V>(parts: seq<seq<V>>, pieces: seq<seq<V>>, st: Split)
    requires |parts| == |pieces| == |st.ranges| == |st.offsets| && Slots(st)
    requires forall r :: 0 <= r < |parts| ==> PartHolds(parts, pieces, st, r)
    ensures |Flat(parts)| == |st.ranges| * st.width && AssembleRow(Flat(parts), st) == Flat(pieces)
  {
    Widths(parts, pieces, st);
    FlatLength(parts, st.width);
    var world, row := |st.ranges|, Flat(parts);
    hide Own, Owned, PartHolds, Flat, Slots;
    if forall r :: 0 <= r < world ==> st.ranges[r].hi - st.ranges[r].lo == st.width {
      forall r | 0 <= r < world ensures parts[r] == pieces[r] { WholePart(parts, pieces, st, r); }
      assert parts == pieces;
    } else {
      forall r | 0 <= r < world ensures Own(row, st, r) == pieces[r] { CutPart(parts, pieces, st, r); }
      assert Owned(row, st) == pieces;
    }
  }

  lemma Widths<V>(parts: seq<seq<V>>, pieces: seq<seq<V>>, st: Split)
    requires |parts| == |pieces| == |st.ranges| == |st.offsets| && Slots(st)
    requires forall r :: 0 <= r < |parts| ==> PartHolds(parts, pieces, st, r)
    ensures forall r :: 0 <= r < |parts| ==> |parts[r]| == st.width
  {
    forall r | 0 <= r < |parts| ensures |parts[r]| == st.width { assert PartHolds(parts, pieces, st, r); }
  }

  lemma WholePart<V>(parts: seq<seq<V>>, pieces: seq<seq<V>>, st: Split, r: nat)
    requires |parts| == |pieces| == |st.ranges| == |st.offsets| && Slots(st) && r < |parts|
    requires PartHolds(parts, pieces, st, r) && st.ranges[r].hi - st.ranges[r].lo == st.width
    ensures parts[r] == pieces[r]
  {
    assert st.offsets[r] == 0;
  }

  lemma CutPart<V>(parts: seq<seq<V>>, pieces: seq<seq<V>>, st: Split, r: nat)
    requires |parts| == |pieces| == |st.ranges| == |st.offsets| && r < |parts| && Slots(st)
    requires forall q :: 0 <= q < |parts| ==> PartHolds(parts, pieces, st, q)
    requires |Flat(parts)| == |st.ranges| * st.width
    ensures Own(Flat(parts), st, r) == pieces[r]
  {
    Widths(parts, pieces, st);
    assert PartHolds(parts, pieces, st, r);
    OwnPart(parts, st, r);
  }

  lemma OwnPart<V>(parts: seq<seq<V>>, st: Split, r: nat)
    requires |parts| == |st.ranges| == |st.offsets| && r < |parts| && Slots(st)
    requires forall q :: 0 <= q < |parts| ==> |parts[q]| == st.width
    requires |Flat(parts)| == |st.ranges| * st.width
    ensures Own(Flat(parts), st, r)
         == parts[r][st.offsets[r]..st.offsets[r] + (st.ranges[r].hi - st.ranges[r].lo)]
  {
    FlatSlice(parts, st.width, r);
    var o, len, row := st.offsets[r], st.ranges[r].hi - st.ranges[r].lo, Flat(parts);
    hide Flat;
    assert o + len <= st.width;
    SubSlice(row, r * st.width, st.width, o, len);
  }

  lemma SubSlice<V>(s: seq<V>, at: nat, width: nat, o: nat, len: nat)
    requires at + width <= |s| && o + len <= width
    ensures s[at..at + width][o..o + len] == s[at + o..at + o + len]
  {
    var part := s[at..at + width];
    var left, right := part[o..o + len], s[at + o..at + o + len];
    assert forall k :: 0 <= k < len ==> left[k] == right[k];
  }
}

/** The other gathers, the choice of split and the checked gather of a layer. */
module ColumnLayer {
  import opened Wrappers
  import opened ColumnRanges
  import opened ColumnGather

  lemma MinimalPathIsStock<V>(stock: Mat<V>, m: nat, n: nat, st: Split, locals: seq<Mat<V>>, zero: V)
    requires Shards(stock, m, n, st, locals) && Ready(st, m, locals)
    ensures MinimalPath(st, m, locals, zero) == stock
  {
    forall i | 0 <= i < m ensures MinimalPath(st, m, locals, zero)[i] == stock[i] {
      MinimalRow(stock, m, n, st, locals, zero, i);
    }
  }

  lemma RowSound<V>(stock: Mat<V>, m: nat, n: nat, st: Split, locals: seq<Mat<V>>, r: nat)
    requires Shards(stock, m, n, st, locals) && r < |locals|
    ensures |st.starts| == |st.ends| == |st.offsets| == |st.ranges| == |locals| && SoundAt(st, n, r)
  {}

  /** Rank r's row i of the stacked gather holds its own columns of the stock row. */
  lemma MinimalPiece<V>(stock: Mat<V>, m: nat, n: nat, st: Split, locals: seq<Mat<V>>, zero: V, r: nat, i: nat)
    requires Shards(stock, m, n, st, locals) && Ready(st, m, locals) && i < m && r < |st.ranges|
    requires st.ranges[r].lo <= st.ranges[r].hi <= |stock[i]|
    ensures var f := Flat(PaddedAll(locals, m, st.width, zero));
            && r * m + i < |f| && st.offsets[r] + (st.ranges[r].hi - st.ranges[r].lo) <= |f[r * m + i]|
            && StackedPiece(f[r * m + i], st, r) == stock[i][st.ranges[r].lo..st.ranges[r].hi]
  {
    RowSound(stock, m, n, st, locals, r);
    PaddedRow(stock, m, n, st, locals, zero, r, i);
    hide Flat, Shards;
    StackedRow(PaddedAll(locals, m, st.width, zero), m, r, i);
  }

  lemma MinimalRow<V>(stock: Mat<V>, m: nat, n: nat, st: Split, locals: seq<Mat<V>>, zero: V, i: nat)
    requires Shards(stock, m, n, st, locals) && Ready(st, m, locals) && i < m
    ensures MinimalPath(st, m, locals, zero)[i] == stock[i]
  {
    var p := PaddedAll(locals, m, st.width, zero);
    RangesIn(st.ranges, n);
    FlatLength(p, m);
    StackedRows(p, m, st.width);
    hide Shards, PaddedAll, Flat;
    var pieces := Pieces(stock[i], st.ranges);
    forall r | 0 <= r < |st.ranges| ensures PieceAt(Flat(p), m, st, i, r, pieces[r]) {
      hide Ready;
      MinimalPiece(stock, m, n, st, locals, zero, r, i);
    }
    hide PieceAt, Ready;
    PiecesRejoin(stock[i], st.ranges);
    StackedAre(Flat(p), m, st, i, pieces);
  }

  /** The piece is rank r's own columns of its row i in the stacked gather. */
  ghost predicate PieceAt<V>(stacked: Mat<V>, m: nat, st: Split, i: nat, r: nat, piece: seq<V>)
    requires StackedFits(stacked, m, st) && i < m && r < |st.ranges|
  {
    RowInRange(|st.ranges|, m, r, i);
    StackedPiece(stacked[r * m + i], st, r) == piece
  }

  lemma StackedAre<V>(stacked: Mat<V>, m: nat, st: Split, i: nat, pieces: seq<seq<V>>)
    requires StackedFits(stacked, m, st) && i < m && |pieces| == |st.ranges|
    requires forall r :: 0 <= r < |st.ranges| ==> PieceAt(stacked, m, st, i, r, pieces[r])
    ensures StackedPieces(stacked, m, st, i) == pieces
  {
    hide StackedPiece;
    forall r | 0 <= r < |pieces| ensures StackedPieces(stacked, m, st, i)[r] == pieces[r] {
      assert PieceAt(stacked, m, st, i, r, pieces[r]);
    }
  }

  lemma StackedRow<V>(p: seq<Mat<V>>, m: nat, r: nat, i: nat)
    requires r < |p| && i < m && forall q :: 0 <= q < |p| ==> |p[q]| == m
    ensures r * m + i < |Flat(p)| && Flat(p)[r * m + i] == p[r][i]
  {
    FlatSlice(p, m, r);
    assert Flat(p)[r * m..r * m + m][i] == p[r][i];
  }

  /** The columns all-gather's contract: row i is every rank's own columns in rank order. */
  function ColumnsLaw<V>(st: Split, m: nat, locals: seq<Mat<V>>): (out: Mat<V>)
    requires Ready(st, m, locals) && OwnInside(st, m, locals)
    ensures |out| == m
  {
    seq(m, i requires 0 <= i < m =>
      Flat(seq(|locals|, r requires 0 <= r < |locals| => StackedPiece(locals[r][i], st, r))))
  }

  ghost predicate OwnInside<V>(st: Split, m: nat, locals: seq<Mat<V>>)
    requires Ready(st, m, locals)
  {
    forall r, i :: 0 <= r < |locals| && 0 <= i < m ==>
      st.offsets[r] + (st.ranges[r].hi - st.ranges[r].lo) <= |locals[r][i]|
  }

  lemma ColumnsLawIsStock<V>(stock: Mat<V>, m: nat, n: nat, st: Split, locals: seq<Mat<V>>)
    requires Shards(stock, m, n, st, locals) && Ready(st, m, locals)
    ensures OwnInside(st, m, locals) && ColumnsLaw(st, m, locals) == stock
  {
    forall r, i | 0 <= r < |locals| && 0 <= i < m
      ensures st.offsets[r] + (st.ranges[r].hi - st.ranges[r].lo) <= |locals[r][i]|
    {
      assert SoundAt(st, n, r);
      assert locals[r][i] == stock[i][st.starts[r]..st.ends[r]];
    }
    RangesIn(st.ranges, n);
    forall i | 0 <= i < m ensures ColumnsLaw(st, m, locals)[i] == stock[i] {
      var pieces := Pieces(stock[i], st.ranges);
      forall r | 0 <= r < |locals| ensures StackedPiece(locals[r][i], st, r) == pieces[r] {
        OwnPiece(stock, m, n, st, locals, r, i);
      }
      assert seq(|locals|, r requires 0 <= r < |locals| => StackedPiece(locals[r][i], st, r)) == pieces;
      PiecesRejoin(stock[i], st.ranges);
    }
  }

  lemma OwnPiece<V>(stock: Mat<V>, m: nat, n: nat, st: Split, locals: seq<Mat<V>>, r: nat, i: nat)
    requires Shards(stock, m, n, st, locals) && r < |locals| && i < m
    ensures st.offsets[r] + (st.ranges[r].hi - st.ranges[r].lo) <= |locals[r][i]|
    ensures st.ranges[r].lo <= st.ranges[r].hi <= n
    ensures StackedPiece(locals[r][i], st, r) == stock[i][st.ranges[r].lo..st.ranges[r].hi]
  {
    assert SoundAt(st, n, r);
    var local, o, len := locals[r][i], st.offsets[r], st.ranges[r].hi - st.ranges[r].lo;
    assert local == stock[i][st.starts[r]..st.ends[r]];
    SubSlice(stock[i], st.starts[r], st.ends[r] - st.starts[r], o, len);
  }

  // ---- which split a layer gets ----

  /** Slice [lo, hi) of rank r's weights gave the stock columns bit for bit on every probed input. */
  type Exact = (nat, nat, nat) -> bool

  /** Every rank's own range is exact. */
  ghost predicate SlicesExact(exact: Exact, n: nat, world: nat)
    requires world > 0
  {
    forall r :: 0 <= r < world ==> exact(r, TileRanges(n, world)[r].lo, TileRanges(n, world)[r].hi)
  }

  /** Every rank's window, as wide as the widest range, is exact. */
  ghost predicate WindowsExact(exact: Exact, n: nat, world: nat)
    requires world > 0
  {
    forall r :: 0 <= r < world ==> WindowExact(exact, n, world, r)
  }

  ghost predicate WindowExact(exact: Exact, n: nat, world: nat, r: nat)
    requires r < world
  {
    var width := TileRanges(n, world)[0].hi;
    var w := Window(n, TileRanges(n, world)[r].lo, width);
    w >= 0 && exact(r, w, w + width)
  }

  lemma WindowProbes(exact: Exact, n: nat, world: nat, ranges: seq<Range>, width: nat)
    requires world > 0 && ranges == TileRanges(n, world) && n % TILE == 0 && width % TILE == 0 && width <= n
    requires Partition(ranges, n) && ranges[0].hi == width
    requires forall r :: 0 <= r < world ==> ranges[r].lo % TILE == 0 && ranges[r].hi - ranges[r].lo <= width
    ensures WindowsExact(exact, n, world)
            <==> forall r :: 0 <= r < world ==> ExactAt(exact, WindowSplit(n, ranges, width), r)
  {
    forall r | 0 <= r < world
      ensures WindowExact(exact, n, world, r) <==> ExactAt(exact, WindowSplit(n, ranges, width), r)
    {
      WindowContains(n, world, ranges, width, r);
    }
  }

  /** One rank's candidates and, after the MIN all-reduce, the state every rank ends with: windows only if every
      rank's window is exact, else slices if every rank's slice is, else the layer stays whole. */
  method Build(n: nat, world: nat, fp8: bool, windows: bool, exact: Exact) returns (st: Option<Split>)
    requires world > 0
    ensures st.Some? ==> Sound(st.value, n) && |st.value.ranges| == world
    ensures st.Some? ==> forall r :: 0 <= r < world ==> ExactAt(exact, st.value, r)
    ensures st.Some? && windows && WindowsExact(exact, n, world) ==>
              forall r :: 0 <= r < world ==>
                var lo := st.value.ranges[r].lo;
                && st.value.starts[r] == (if lo < n - st.value.width then lo else n - st.value.width)
                && st.value.ends[r] == st.value.starts[r] + st.value.width
    ensures st.Some? && !(windows && WindowsExact(exact, n, world)) ==>
              forall r :: 0 <= r < world ==>
                st.value.starts[r] == st.value.ranges[r].lo && st.value.ends[r] == st.value.ranges[r].hi
    ensures st.Some? ==> n % TILE == 0 && n / TILE >= world && fp8
    ensures n % TILE == 0 && n / TILE >= world && fp8 ==>
              (st.Some? <==> (windows && WindowsExact(exact, n, world)) || SlicesExact(exact, n, world))
  {
    if !(n % TILE == 0 && n / TILE >= world && fp8) { return None; }
    var ranges, width := Ranges(n, world);
    hide TileRanges;
    RangesIn(ranges, n);
    var windowed, sliced := WindowSplit(n, ranges, width), SliceSplit(ranges, width);
    WindowSound(n, ranges, width);
    SliceSound(n, ranges, width);
    hide Sound, SoundAt, Partition, SlicesExact, WindowsExact;
    var win, sl := Probe(exact, windowed, sliced, windows);
    st := if win then Some(windowed) else if sl then Some(sliced) else None;
    SliceProbes(exact, n, world, ranges, width);
    WindowProbes(exact, n, world, ranges, width);
  }

  lemma SliceProbes(exact: Exact, n: nat, world: nat, ranges: seq<Range>, width: nat)
    requires world > 0 && ranges == TileRanges(n, world)
    ensures SlicesExact(exact, n, world)
            <==> forall r :: 0 <= r < world ==> ExactAt(exact, SliceSplit(ranges, width), r)
  {
    hide RangeOf;
    var sliced := SliceSplit(ranges, width);
    assert forall r :: 0 <= r < world ==> (ExactAt(exact, sliced, r) <==> exact(r, ranges[r].lo, ranges[r].hi));
  }

  /** Every rank's probes, merged by the MIN all-reduce. A window that is the slice is not probed twice. */
  method Probe(exact: Exact, windowed: Split, sliced: Split, windows: bool) returns (win: bool, sl: bool)
    requires |sliced.starts| == |sliced.ends| == |windowed.starts| == |windowed.ends|
    ensures win <==> windows && forall q :: 0 <= q < |sliced.starts| ==> ExactAt(exact, windowed, q)
    ensures sl <==> forall q :: 0 <= q < |sliced.starts| ==> ExactAt(exact, sliced, q)
  {
    win, sl := windows, true;
    for r := 0 to |sliced.starts|
      invariant win <==> windows && forall q :: 0 <= q < r ==> ExactAt(exact, windowed, q)
      invariant sl <==> forall q :: 0 <= q < r ==> ExactAt(exact, sliced, q)
    {
      var slice := exact(r, sliced.starts[r], sliced.ends[r]);
      var same := windowed.starts[r] == sliced.starts[r] && windowed.ends[r] == sliced.ends[r];
      var window := if same then slice else exact(r, windowed.starts[r], windowed.ends[r]);
      assert slice == ExactAt(exact, sliced, r) && window == ExactAt(exact, windowed, r);
      win, sl := win && window, sl && slice;
    }
  }

  predicate ExactAt(exact: Exact, st: Split, r: nat)
    requires r < |st.starts| == |st.ends|
  {
    exact(r, st.starts[r], st.ends[r])
  }

  function WindowSplit(n: nat, ranges: seq<Range>, width: nat): Split
    requires width <= n
  {
    var starts: seq<nat> := seq(|ranges|, r requires 0 <= r < |ranges| => Window(n, ranges[r].lo, width));
    Split(ranges, width, starts, seq(|ranges|, r requires 0 <= r < |ranges| => starts[r] + width),
          seq(|ranges|, r requires 0 <= r < |ranges| =>
            if starts[r] <= ranges[r].lo then ranges[r].lo - starts[r] else 0))
  }

  function SliceSplit(ranges: seq<Range>, width: nat): Split {
    Split(ranges, width, seq(|ranges|, r requires 0 <= r < |ranges| => ranges[r].lo),
          seq(|ranges|, r requires 0 <= r < |ranges| => ranges[r].hi), seq(|ranges|, _ => 0))
  }

  lemma WindowSound(n: nat, ranges: seq<Range>, width: nat)
    requires n % TILE == 0 && width % TILE == 0 && width <= n && Partition(ranges, n)
    requires forall r :: 0 <= r < |ranges| ==> ranges[r].lo % TILE == 0 && ranges[r].hi - ranges[r].lo <= width
    ensures Sound(WindowSplit(n, ranges, width), n)
  {
    forall r | 0 <= r < |ranges| ensures SoundAt(WindowSplit(n, ranges, width), n, r) {
      WindowContains(n, |ranges|, ranges, width, r);
    }
  }

  lemma SliceSound(n: nat, ranges: seq<Range>, width: nat)
    requires Partition(ranges, n) && forall r :: 0 <= r < |ranges| ==> ranges[r].hi - ranges[r].lo <= width
    ensures Sound(SliceSplit(ranges, width), n)
  {
    forall r | 0 <= r < |ranges| ensures SoundAt(SliceSplit(ranges, width), n, r) { PartitionBelow(ranges, n, r); }
  }

  // ---- the checked gather ----

  datatype Kind = Roce | Minimal

  predicate All(flags: seq<bool>) { forall r :: 0 <= r < |flags| ==> flags[r] }

  /** One layer's verdicts on every rank, in lockstep. */
  class Layer<V(==)> {
    var checked: seq<map<(Kind, nat), bool>>

    /** Verdicts come out of a MIN all-reduce, so the ranks always hold the same ones. */
    ghost predicate Agreed()
      reads this
    {
      checked != [] && forall r :: 0 <= r < |checked| ==> checked[r] == checked[0]
    }

    constructor (world: nat)
      requires world > 0
      ensures Agreed() && |checked| == world && checked[0] == map[]
    {
      checked := seq(world, _ => map[]);
    }

    /** _run_compact on every rank. `roce` is whatever the columns kernel returns. */
    method RunCompact(kind: Kind, st: Split, m: nat, locals: seq<Mat<V>>, zero: V, roce: seq<Mat<V>>)
      returns (outs: seq<Mat<V>>)
      requires Ready(st, m, locals) && |roce| == |locals|
      ensures outs == if kind == Roce then roce else seq(|locals|, _ => MinimalPath(st, m, locals, zero))
    {
      if kind == Roce { outs := roce; } else { outs := seq(|locals|, _ => MinimalPath(st, m, locals, zero)); }
    }

    /** The first call of a kind at a row count: both paths on the same shard, compared, agreed over the ranks.
        The columns kernel is launched by every rank or by none. */
    method Check(kind: Kind, st: Split, m: nat, locals: seq<Mat<V>>, zero: V, roce: seq<Mat<V>>, prepared: seq<bool>)
      returns (verdict: bool, launches: seq<nat>)
      requires Ready(st, m, locals) && |roce| == |locals| == |prepared|
      ensures |launches| == |locals| && forall r :: 0 <= r < |launches| ==>
                launches[r] == if kind == Roce && (forall q :: 0 <= q < |prepared| ==> prepared[q]) then 1 else 0
      ensures kind == Roce ==>
                (verdict <==>
                 (forall r :: 0 <= r < |prepared| ==> prepared[r])
                 && forall r :: 0 <= r < |locals| ==> roce[r] == OldPath(st, m, locals, zero))
      ensures kind == Minimal && locals != [] ==>
                (verdict <==> MinimalPath(st, m, locals, zero) == OldPath(st, m, locals, zero))
    {
      launches := seq(|locals|, _ => 0);
      if kind == Roce && !All(prepared) { return false, launches; }
      var news := RunCompact(kind, st, m, locals, zero, roce);
      if kind == Roce { launches := seq(|locals|, _ => 1); }
      var same := seq(|locals|, r requires 0 <= r < |locals| <= |news| => news[r] == OldPath(st, m, locals, zero));
      verdict := All(same);
      assert forall r :: 0 <= r < |locals| ==> (same[r] <==> news[r] == OldPath(st, m, locals, zero));
      assert kind == Roce ==> forall r :: 0 <= r < |locals| ==> roce[r] == news[r];
      assert kind == Minimal && locals != [] ==> news[0] == MinimalPath(st, m, locals, zero);
    }

    /** Every rank returns the stock output, or this kind passed its check at this row count on an earlier call and
        the columns kernel now breaks its contract. Recorded verdicts never change, ranks stay in agreement, and
        the columns kernel is launched equally often by every rank. */
    method Gather(compact: bool, kind: Kind, capturing: bool, st: Split, m: nat, n: nat, locals: seq<Mat<V>>, zero: V,
                  roce: seq<Mat<V>>, prepared: seq<bool>, ghost stock: Mat<V>)
      returns (outs: seq<Mat<V>>, launches: seq<nat>)
      requires Agreed() && Shards(stock, m, n, st, locals) && |checked| == |locals| == |roce| == |prepared|
      modifies this
      ensures Agreed() && |checked| == |locals|
      ensures |outs| == |locals|
      ensures forall r :: 0 <= r < |outs| ==>
                (outs[r] == stock ||
                 (outs[r] == roce[r] && compact && kind == Roce &&
                  (kind, m) in old(checked[0]) && old(checked[0])[(kind, m)]))
      ensures forall k :: k in old(checked[0]) ==> k in checked[0] && checked[0][k] == old(checked[0])[k]
      ensures forall k :: k in checked[0] && k !in old(checked[0]) ==> k == (kind, m) && compact && !capturing
      ensures |launches| == |locals| && forall r :: 0 <= r < |launches| ==> launches[r] == launches[0]
      ensures launches[0] > 0 ==>
                (kind == Roce && (All(prepared) || ((kind, m) in old(checked[0]) && old(checked[0])[(kind, m)])))
    {
      ShardsReady(stock, m, n, st, locals);
      OldPathIsStock(stock, m, n, st, locals, zero);
      MinimalPathIsStock(stock, m, n, st, locals, zero);
      launches := seq(|locals|, _ => 0);
      if compact {
        var key := (kind, m);
        var ok := key in checked[0] && checked[0][key];
        if key !in checked[0] && !capturing {
          ok, launches := Check(kind, st, m, locals, zero, roce, prepared);
          checked := seq(|checked|, r requires 0 <= r < |checked| reads this => checked[r][key := ok]);
        }
        if ok {
          outs := RunCompact(kind, st, m, locals, zero, roce);
          if kind == Roce {
            launches := seq(|launches|, r requires 0 <= r < |launches| => launches[r] + 1);
          }
          return;
        }
      }
      outs := seq(|locals|, _ => OldPath(st, m, locals, zero));
    }
  }
}
