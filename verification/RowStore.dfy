/**
 * Reading rows exactly (adapter/row_store.cpp): page-aligned direct reads, the pinned scale shard, the
 * packed shard, and the ownership range they are indexed by.
 */
module RowStore {
  import opened Wrappers

  type Byte = x: int | 0 <= x < 256
  type Bytes = seq<Byte>

  const ROW_BYTES: nat := 264
  const WEIGHT_BYTES: nat := 256
  const SCALE_BYTES: nat := 8
  const PAGE: nat := 4096
  const PACKED_HEADER: nat := 4096
  const SPAN: nat := 8388608

  datatype Result<T> = Ok(value: T) | Fail

  // ------------------------------------------------------------------------------------------
  // direct reads
  // ------------------------------------------------------------------------------------------

  function AlignDown(n: nat): (r: nat)
    ensures r <= n < r + PAGE && r % PAGE == 0
  {
    n - n % PAGE
  }

  function AlignUp(n: nat): (r: nat)
    ensures n <= r < n + PAGE && r % PAGE == 0
  {
    (n + PAGE - 1) / PAGE * PAGE
  }

  /** What pread of `want` bytes at `at` may return: an error, or a prefix of the file's bytes there. */
  ghost predicate MayReturn(file: Bytes, at: nat, want: nat, got: int) {
    got <= 0 || (got <= want && at + got <= |file|)
  }

  /**
   * read_from: one page-aligned read into an 8 KiB buffer. Either it fails, exactly when the read came
   * back short of the bytes asked for, or it returns exactly those bytes of the file.
   */
  method ReadFrom(file: Bytes, resident: bool, offset: nat, length: nat, got: int) returns (r: Result<Bytes>)
    requires 1 <= length <= PAGE
    requires resident ==> offset + length <= |file|
    requires !resident ==> MayReturn(file, AlignDown(offset), AlignUp(offset - AlignDown(offset) + length), got)
    ensures r.Ok? ==> offset + length <= |file| && r.value == file[offset..offset + length]
    ensures r.Ok? <==> resident || got >= offset - AlignDown(offset) + length
  {
    if resident { return Ok(file[offset..offset + length]); }
    var page := new Byte[8192](_ => 0);
    var base := AlignDown(offset);
    var delta := offset - base;
    var requested := AlignUp(delta + length);
    assert requested <= 8192;
    if got < delta + length { return Fail; }
    forall i | 0 <= i < got { page[i] := file[base + i]; }
    var out := page[delta..delta + length];
    assert |out| == |file[offset..offset + length]|;
    forall i | 0 <= i < length ensures out[i] == file[offset..offset + length][i] {
      assert out[i] == page[delta + i] == file[base + (delta + i)];
    }
    r := Ok(out);
  }

  // ------------------------------------------------------------------------------------------
  // the table
  // ------------------------------------------------------------------------------------------

  /** The checkpoint file and where its weight and scale rows start. */
  datatype Table = Table(file: Bytes, rows: nat, woff: nat, soff: nat)

  predicate Fits(t: Table) {
    t.woff + t.rows * WEIGHT_BYTES <= |t.file| && t.soff + t.rows * SCALE_BYTES <= |t.file|
  }

  lemma RowInside(rows: nat, id: nat, width: nat)
    requires id < rows
    ensures id * width + width <= rows * width
  {
    if id + 1 < rows { RowInside(rows - 1, id, width); }
    assert rows * width == (rows - 1) * width + width;
  }

  function WeightOf(t: Table, id: nat): (b: Bytes)
    requires Fits(t) && id < t.rows
    ensures |b| == WEIGHT_BYTES == 256
    ensures forall k :: 0 <= k < 256 ==> t.woff + id * 256 + k < |t.file| && b[k] == t.file[t.woff + id * 256 + k]
  {
    RowInside(t.rows, id, WEIGHT_BYTES);
    t.file[t.woff + id * WEIGHT_BYTES..t.woff + id * WEIGHT_BYTES + WEIGHT_BYTES]
  }

  function ScaleOf(t: Table, id: nat): (b: Bytes)
    requires Fits(t) && id < t.rows
    ensures |b| == SCALE_BYTES == 8
    ensures forall k :: 0 <= k < 8 ==> t.soff + id * 8 + k < |t.file| && b[k] == t.file[t.soff + id * 8 + k]
  {
    RowInside(t.rows, id, SCALE_BYTES);
    t.file[t.soff + id * SCALE_BYTES..t.soff + id * SCALE_BYTES + SCALE_BYTES]
  }

  /** Row id of the table: weight then scale. */
  function RowOf(t: Table, id: nat): (b: Bytes)
    requires Fits(t) && id < t.rows
    ensures |b| == ROW_BYTES
  {
    WeightOf(t, id) + ScaleOf(t, id)
  }

  lemma RowParts(t: Table, id: nat)
    requires Fits(t) && id < t.rows
    ensures RowOf(t, id)[..WEIGHT_BYTES] == WeightOf(t, id) && RowOf(t, id)[WEIGHT_BYTES..] == ScaleOf(t, id)
  {}

  // ------------------------------------------------------------------------------------------
  // pinning the scales
  // ------------------------------------------------------------------------------------------

  /** What the i-th read, of `want` bytes at `at`, returns. */
  type Disk = (nat, nat, nat) -> int

  /** The read of `length` bytes at `at` brings them all: what the pread of their pages returns reaches their end. */
  predicate Comes(disk: Disk, at: nat, length: nat) {
    disk(0, AlignDown(at), AlignUp(at - AlignDown(at) + length)) >= at - AlignDown(at) + length
  }

  /** A disk whose first read stops only at the end of the file. */
  ghost predicate Whole(file: Bytes, disk: Disk) {
    forall at: nat, want: nat :: at + want <= |file| || at <= |file| < at + want ==>
      disk(0, at, want) >= if at + want <= |file| then want else |file| - at
  }

  lemma WholeComes(file: Bytes, disk: Disk, at: nat, length: nat)
    requires Whole(file, disk) && at + length <= |file|
    ensures Comes(disk, at, length)
  {
    var base := AlignDown(at);
    var want := AlignUp(at - base + length);
    assert disk(0, base, want) >= if base + want <= |file| then want else |file| - base;
  }

  /** Every read at [from, to) brings something. */
  ghost predicate Answers(disk: Disk, from: nat, to: nat) {
    forall i: nat, at: nat, want: nat :: from <= at < to && want >= 1 ==> disk(i, at, want) > 0
  }

  ghost predicate IsDisk(file: Bytes, disk: Disk) {
    forall i: nat, at: nat, want: nat :: MayReturn(file, at, want, disk(i, at, want))
  }

  /** The pinned shard holds the scale rows of [lo, hi). */
  ghost predicate PinnedRight(t: Table, scales: Bytes, lo: nat, hi: nat)
    requires Fits(t) && lo <= hi <= t.rows
  {
    && |scales| == (hi - lo) * SCALE_BYTES
    && forall id :: lo <= id < hi ==>
         var at := (id - lo) * SCALE_BYTES;
         at + SCALE_BYTES <= |scales| && scales[at..at + SCALE_BYTES] == ScaleOf(t, id)
  }

  /**
   * pin_scales: copies the owned scale rows span by span, whatever short reads come back; it succeeds with
   * exactly those bytes or reports failure.
   */
  method PinScales(t: Table, lo: nat, hi: nat, resident: bool, disk: Disk) returns (r: Result<Bytes>)
    requires Fits(t) && lo <= hi <= t.rows
    requires IsDisk(t.file, disk)
    ensures hi == lo ==> r == Fail
    ensures hi > lo && (resident || Answers(disk, AlignDown(t.soff + lo * SCALE_BYTES), t.soff + hi * SCALE_BYTES)) ==>
              r.Ok?
    ensures r.Ok? ==> PinnedRight(t, r.value, lo, hi)
  {
    if hi == lo { return Fail; }
    var bytes := (hi - lo) * SCALE_BYTES;
    var start := t.soff + lo * SCALE_BYTES;
    var end := start + bytes;
    assert end <= |t.file|;
    if resident {
      var all := t.file[start..end];
      PinnedRows(t, lo, hi, all);
      return Ok(all);
    }
    var out := new Byte[bytes](_ => 0);
    var offset := AlignDown(start);
    var i := 0;
    while offset < end
      invariant offset >= AlignDown(start)
      invariant forall k :: 0 <= k < bytes && start + k < offset ==> out[k] == t.file[start + k]
      decreases if offset < end then end - offset else 0
    {
      var up := AlignUp(end - offset);
      var want := if SPAN <= up then SPAN else up;
      var got := disk(i, offset, want);
      assert MayReturn(t.file, offset, want, got) && want >= 1;
      if got <= 0 { return Fail; }
      var from := if offset > start then offset else start;
      var to := if offset + got < end then offset + got else end;
      if to > from {
        forall k | from <= k < to { out[k - start] := t.file[k]; }
      }
      offset := offset + got;
      i := i + 1;
    }
    assert out[..] == t.file[start..end];
    PinnedRows(t, lo, hi, out[..]);
    r := Ok(out[..]);
  }

  lemma PinnedRows(t: Table, lo: nat, hi: nat, all: Bytes)
    requires Fits(t) && lo <= hi <= t.rows && |all| == (hi - lo) * SCALE_BYTES
    requires t.soff + lo * SCALE_BYTES + |all| <= |t.file|
    requires all == t.file[t.soff + lo * SCALE_BYTES..t.soff + lo * SCALE_BYTES + |all|]
    ensures PinnedRight(t, all, lo, hi)
  {
    forall id | lo <= id < hi
      ensures var at := (id - lo) * SCALE_BYTES;
              at + SCALE_BYTES <= |all| && all[at..at + SCALE_BYTES] == ScaleOf(t, id)
    {
      RowInside(hi - lo, id - lo, SCALE_BYTES);
      SliceOfSlice(t.file, t.soff + lo * SCALE_BYTES, |all|, (id - lo) * SCALE_BYTES, SCALE_BYTES);
      assert t.soff + lo * SCALE_BYTES + (id - lo) * SCALE_BYTES == t.soff + id * SCALE_BYTES;
    }
  }

  lemma SliceOfSlice(s: Bytes, a: nat, n: nat, at: nat, k: nat)
    requires a + n <= |s| && at + k <= n
    ensures s[a..a + n][at..at + k] == s[a + at..a + at + k]
  {
    var x, y := s[a..a + n][at..at + k], s[a + at..a + at + k];
    assert |x| == k == |y| && forall i :: 0 <= i < k ==> x[i] == y[i];
  }

  // ------------------------------------------------------------------------------------------
  // the store
  // ------------------------------------------------------------------------------------------

  datatype Header = Header(magic: nat, layer: nat, lo: nat, hi: nat, rows: nat, rowBytes: nat)

  const PACKED_MAGIC: nat := 0x31344e4531565344

  /** The packed shard holds rows [lo, hi) of the table, weight and scale adjacent, after its header. */
  ghost predicate PackedRight(t: Table, shard: Bytes, lo: nat, hi: nat)
    requires Fits(t) && lo <= hi <= t.rows
  {
    forall id :: lo <= id < hi ==>
      var at := PACKED_HEADER + (id - lo) * ROW_BYTES;
      at + ROW_BYTES <= |shard| && shard[at..at + ROW_BYTES] == RowOf(t, id)
  }

  /** The bytes read for row id when the shard is indexed from row lo. */
  function PackedAt(shard: Bytes, lo: nat, id: nat): (row: Option<Bytes>)
    requires lo <= id
  {
    var at := PACKED_HEADER + (id - lo) * ROW_BYTES;
    if at + ROW_BYTES <= |shard| then Some(shard[at..at + ROW_BYTES]) else None
  }

  /** Whether the packed shard of rows [from, to) is indexed correctly by the range [lo, hi). */
  predicate IndexedBy(from: nat, to: nat, lo: nat, hi: nat) { lo >= hi || (lo == from && hi <= to) }

  /** How many sets of `ways` rows, keys and one cursor byte the budget holds. */
  function SetsFor(budget: nat, ways: nat): nat { Quotient(budget, SetBytes(ways)) }

  function Quotient(a: nat, b: nat): (q: nat)
    requires b >= 1
    ensures a == q * b + a % b
  {
    a / b
  }

  function SetBytes(ways: nat): (bytes: nat)
    ensures bytes >= 1
  {
    (ROW_BYTES + 8) * ways + 1
  }

  /** What the cache occupies. */
  function Footprint(sets: nat, ways: nat): nat { sets * ways * ROW_BYTES + sets * ways * 8 + sets }

  lemma BudgetHolds(budget: nat, ways: nat)
    ensures Footprint(SetsFor(budget, ways), ways) <= budget
    ensures Footprint(SetsFor(budget, ways) + 1, ways) > budget
  {
    var unit := SetBytes(ways);
    var sets := SetsFor(budget, ways);
    UnitFootprint(sets, ways);
    UnitFootprint(sets + 1, ways);
    assert (sets + 1) * unit == sets * unit + unit;
  }

  lemma UnitFootprint(sets: nat, ways: nat)
    ensures Footprint(sets, ways) == sets * SetBytes(ways)
  {
    var slots := sets * ways;
    assert sets * ((ROW_BYTES + 8) * ways) == slots * (ROW_BYTES + 8);
  }

  class Store {
    const t: Table
    const ways: nat
    const sets: nat
    const resident: bool
    const keys: array2<nat>        // id + 1 of the row a way holds, 0 when empty
    const cache: array2<Bytes>
    const victim: array<nat>
    var rowLo: nat
    var rowHi: nat
    var scales: Option<Bytes>
    var packed: Option<Bytes>
    ghost var packedLo: nat
    ghost var packedHi: nat

    ghost predicate Valid()
      reads this
    {
      && Fits(t) && rowLo <= rowHi <= t.rows
      && (scales.Some? ==> PinnedRight(t, scales.value, rowLo, rowHi))
      && (packed.Some? ==> packedLo <= packedHi <= t.rows && PackedRight(t, packed.value, packedLo, packedHi))
    }

    /** Every row of the range is read from the right place. */
    ghost predicate Exact()
      reads this
    {
      Valid() && (packed.Some? ==> IndexedBy(packedLo, packedHi, rowLo, rowHi))
    }

    /** Every way in use holds exactly its row, in that row's set, and the cursors are ways. */
    ghost predicate Coherent()
      reads this, keys, cache, victim
    {
      && Fits(t) && ways >= 1
      && keys.Length0 == cache.Length0 == victim.Length == sets && keys.Length1 == cache.Length1 == ways
      && (forall k :: 0 <= k < sets ==> victim[k] < ways)
      && forall k, w :: 0 <= k < sets && 0 <= w < ways && keys[k, w] > 0 ==>
           keys[k, w] - 1 < t.rows && (keys[k, w] - 1) % sets == k && cache[k, w] == RowOf(t, keys[k, w] - 1)
    }

    /** row_store_open: the cache fits its budget, and the whole table is owned. */
    constructor (table: Table, budget: nat, waysSetting: nat, ram: bool)
      requires Fits(table)
      ensures Exact() && Coherent() && fresh(keys) && fresh(cache) && fresh(victim)
      ensures t == table && rowLo == 0 && rowHi == table.rows && packed.None? && scales.None?
      ensures resident == ram && ways == if waysSetting < 1 then 1 else if waysSetting > 16 then 16 else waysSetting
      ensures Footprint(sets, ways) <= budget && (!ram ==> Footprint(sets + 1, ways) > budget)
      ensures ram ==> sets == 0
    {
      var limited := if waysSetting <= 16 then waysSetting else 16;
      var w := if limited >= 1 then limited else 1;
      var spend := if ram then 0 else budget;
      t, resident, ways := table, ram, w;
      sets := SetsFor(spend, w);
      keys := new nat[SetsFor(spend, w), w]((_, _) => 0);
      cache := new Bytes[SetsFor(spend, w), w]((_, _) => []);
      victim := new nat[SetsFor(spend, w)](_ => 0);
      rowLo, rowHi, scales, packed := 0, table.rows, None, None;
      packedLo, packedHi := 0, 0;
      new;
      BudgetHolds(spend, w);
      hide SetsFor;
    }

    /** The header is this table's, layer's and range's, and the shard is long enough. */
    predicate Accepts(h: Header, shard: Bytes, layer: nat)
      reads this
    {
      && h.magic == PACKED_MAGIC && h.layer == layer && h.lo == rowLo && h.hi == rowHi && h.rows == t.rows
      && h.rowBytes == ROW_BYTES && h.lo <= h.hi && |shard| >= PACKED_HEADER + (h.hi - h.lo) * ROW_BYTES
    }

    /** row_store_attach_packed: false when it aborts. What is asked of the shard is asked only of one whose header
        passes: that the pack step wrote the rows it names. */
    method AttachPacked(h: Header, shard: Bytes, layer: nat) returns (ok: bool)
      requires Valid()
      requires Accepts(h, shard, layer) ==> PackedRight(t, shard, h.lo, h.hi)
      modifies this`packed, this`packedLo, this`packedHi
      ensures Valid()
      ensures ok <==>
                && h.magic == 0x31344e4531565344 && h.layer == layer && h.lo == rowLo && h.hi == rowHi
                && h.rows == t.rows && h.rowBytes == 264 && |shard| >= 4096 + (rowHi - rowLo) * 264
      ensures ok ==> Exact() && packed == Some(shard)
      ensures !ok ==> packed == old(packed) && packedLo == old(packedLo) && packedHi == old(packedHi)
    {
      if h.magic != PACKED_MAGIC || h.layer != layer || h.lo != rowLo || h.hi != rowHi || h.rows != t.rows
         || h.rowBytes != ROW_BYTES
      {
        return false;
      }
      if |shard| < PACKED_HEADER + (h.hi - h.lo) * ROW_BYTES { return false; }
      packed := Some(shard);
      packedLo, packedHi := h.lo, h.hi;
      ok := true;
    }

    /**
     * row_store_range: false when it aborts. A pinned scale shard holds the range in place; a packed shard
     * alone does not, and reads stay exact exactly when the new range still indexes it.
     */
    method Range(lo: nat, hi: nat, pinning: bool, disk: Disk) returns (ok: bool)
      requires Valid() && IsDisk(t.file, disk)
      modifies this`rowLo, this`rowHi, this`scales
      ensures Valid()
      ensures ok <==> lo <= hi <= t.rows && (old(scales).Some? ==> lo == old(rowLo) && hi == old(rowHi))
      ensures ok ==> rowLo == lo && rowHi == hi
      ensures !ok ==> rowLo == old(rowLo) && rowHi == old(rowHi) && scales == old(scales)
      ensures ok ==> (Exact() <==> packed.None? || lo == hi || (lo == packedLo && hi <= packedHi))
      ensures old(scales).Some? || lo == hi || !pinning ==> scales == old(scales)
      ensures ok && lo < hi && pinning
              && (resident || Answers(disk, AlignDown(t.soff + lo * SCALE_BYTES), t.soff + hi * SCALE_BYTES)) ==>
                scales.Some?
    {
      if lo > hi || hi > t.rows { return false; }
      if scales.Some? && (lo != rowLo || hi != rowHi) { return false; }
      rowLo, rowHi := lo, hi;
      if scales.None? && hi > lo && pinning {
        var pinned := PinScales(t, lo, hi, resident, disk);
        if pinned.Ok? { scales := Some(pinned.value); }
      }
      ok := true;
    }

    /** Every read a miss on row id needs brings its bytes; resident tables and pinned scales need none. */
    predicate ReadsBack(id: nat, disk: Disk, packedDisk: Disk)
      requires rowLo <= id
      reads this
    {
      if packed.Some? then Comes(packedDisk, PACKED_HEADER + (id - rowLo) * ROW_BYTES, ROW_BYTES)
      else
        && (resident || Comes(disk, t.woff + id * WEIGHT_BYTES, WEIGHT_BYTES))
        && (scales.Some? || resident || Comes(disk, t.soff + id * SCALE_BYTES, SCALE_BYTES))
    }

    /** Where no read stops before the end of its file, and the packed shard holds the range, every owned row can be
        read. */
    lemma WholeReadsBack(id: nat, disk: Disk, packedDisk: Disk)
      requires Exact() && rowLo <= id < rowHi
      requires Whole(t.file, disk) && (packed.Some? ==> Whole(packed.value, packedDisk))
      ensures ReadsBack(id, disk, packedDisk)
    {
      RowInside(t.rows, id, WEIGHT_BYTES);
      RowInside(t.rows, id, SCALE_BYTES);
      if packed.Some? {
        assert IndexedBy(packedLo, packedHi, rowLo, rowHi) && |RowOf(t, id)| == ROW_BYTES;
        WholeComes(packed.value, packedDisk, PACKED_HEADER + (id - rowLo) * ROW_BYTES, ROW_BYTES);
      } else {
        WholeComes(t.file, disk, t.woff + id * WEIGHT_BYTES, WEIGHT_BYTES);
        WholeComes(t.file, disk, t.soff + id * SCALE_BYTES, SCALE_BYTES);
      }
    }

    /** Some way of its set holds row id. */
    ghost predicate Cached(id: nat)
      requires Coherent()
      reads this, keys, cache, victim
    {
      sets > 0 && exists w :: 0 <= w < ways && keys[id % sets, w] == id + 1
    }

    /** The miss path of fetch_row: one packed read, or a weight read and a pinned or read scale. What a packed read
        returns are the bytes the range points at; with the range in place, and on the other paths, they are the row. */
    method FetchMiss(id: nat, disk: Disk, packedDisk: Disk) returns (r: Result<Bytes>)
      requires Valid() && rowLo <= id < rowHi
      requires IsDisk(t.file, disk) && (packed.Some? ==> IsDisk(packed.value, packedDisk))
      ensures packed.Some? && r.Ok? ==> PackedAt(packed.value, rowLo, id) == Some(r.value)
      ensures packed.None? || Exact() ==> r.Ok? ==> r.value == RowOf(t, id)
      ensures r.Ok? <==> ReadsBack(id, disk, packedDisk)
    {
      if packed.Some? {
        var at := PACKED_HEADER + (id - rowLo) * ROW_BYTES;
        var base := AlignDown(at);
        var want := AlignUp(at - base + ROW_BYTES);
        assert MayReturn(packed.value, base, want, packedDisk(0, base, want));
        r := ReadFrom(packed.value, false, at, ROW_BYTES, packedDisk(0, base, want));
        return;
      }
      RowInside(t.rows, id, WEIGHT_BYTES);
      RowInside(t.rows, id, SCALE_BYTES);
      var weight := ReadTable(t.woff + id * WEIGHT_BYTES, WEIGHT_BYTES, disk);
      if weight.Fail? { return Fail; }
      var scale;
      if scales.Some? {
        var at := (id - rowLo) * SCALE_BYTES;
        scale := scales.value[at..at + SCALE_BYTES];
      } else {
        var got := ReadTable(t.soff + id * SCALE_BYTES, SCALE_BYTES, disk);
        if got.Fail? { return Fail; }
        scale := got.value;
      }
      r := Ok(weight.value + scale);
    }

    /** fetch_row by itself: the set's ways are searched, and a miss takes the victim's way. Either way the result is
        the row, and the cache stays coherent. */
    method FetchRow(id: nat, disk: Disk, packedDisk: Disk) returns (r: Result<Bytes>)
      requires Exact() && Coherent() && rowLo <= id < rowHi
      requires IsDisk(t.file, disk) && (packed.Some? ==> IsDisk(packed.value, packedDisk))
      modifies keys, cache, victim
      ensures Exact() && Coherent()
      ensures r.Ok? ==> r.value == RowOf(t, id)
      ensures r.Ok? <==> old(Cached(id)) || ReadsBack(id, disk, packedDisk)
      ensures r.Ok? && sets > 0 ==> Cached(id)
      ensures r.Fail? || old(Cached(id)) || sets == 0 ==>
                && (forall k, w :: 0 <= k < sets && 0 <= w < ways ==> keys[k, w] == old(keys[k, w]))
                && forall k :: 0 <= k < sets ==> victim[k] == old(victim[k])
      ensures r.Ok? && !old(Cached(id)) && sets > 0 ==> Placed(id % sets, old(victim[id % sets]), id)
      ensures forall x: nat :: Cached(x) ==> old(Cached(x)) || (x == id && ReadsBack(id, disk, packedDisk))
    {
      if sets > 0 {
        var hit := Search(id);
        if hit.Some? { return Ok(hit.value); }
      }
      r := FetchMiss(id, disk, packedDisk);
      if r.Ok? && sets > 0 { Remember(id, r.value); }
    }

    /** The ways of the row's set, searched under its lock. */
    method Search(id: nat) returns (hit: Option<Bytes>)
      requires Coherent() && sets > 0 && id < t.rows
      ensures hit.Some? <==> Cached(id)
      ensures hit.Some? ==> hit.value == RowOf(t, id)
    {
      hit := None;
      for w := 0 to ways
        invariant forall j :: 0 <= j < w ==> keys[id % sets, j] != id + 1
      {
        if keys[id % sets, w] == id + 1 { return Some(cache[id % sets, w]); }
      }
    }

    /** The row takes the way its set's cursor points at, and the cursor moves on. */
    method Remember(id: nat, row: Bytes)
      requires Coherent() && sets > 0 && id < t.rows && row == RowOf(t, id)
      modifies keys, cache, victim
      ensures Coherent() && Cached(id)
      ensures Placed(id % sets, old(victim[id % sets]), id)
      ensures forall x: nat :: Cached(x) ==> old(Cached(x)) || x == id
    {
      hide RowOf, Fits;
      var line := id % sets;
      var w := victim[line] % ways;
      assert w == victim[line];
      victim[line] := (victim[line] + 1) % ways;
      cache[line, w] := row;
      keys[line, w] := id + 1;
      assert keys[id % sets, w] == id + 1;
    }

    /** The only change of the keys and cursors is that row id took this way. */
    twostate predicate Placed(line: nat, way: nat, id: nat)
      requires keys.Length0 == victim.Length == sets && keys.Length1 == ways >= 1
      requires line < sets
      reads keys, victim
    {
      && way == old(victim[line]) && victim[line] == (way + 1) % ways
      && (forall k :: 0 <= k < sets && k != line ==> victim[k] == old(victim[k]))
      && forall k, w :: 0 <= k < sets && 0 <= w < ways ==>
           keys[k, w] == if k == line && w == way then id + 1 else old(keys[k, w])
    }

    method ReadTable(at: nat, length: nat, disk: Disk) returns (r: Result<Bytes>)
      requires 1 <= length <= PAGE && at + length <= |t.file| && IsDisk(t.file, disk)
      ensures r.Ok? ==> r.value == t.file[at..at + length]
      ensures r.Ok? <==> resident || Comes(disk, at, length)
    {
      var base := AlignDown(at);
      var want := AlignUp(at - base + length);
      assert MayReturn(t.file, base, want, disk(0, base, want));
      r := ReadFrom(t.file, resident, at, length, disk(0, base, want));
    }

    /** What a lookup leaves for an id: its row where this rank owns it, zeros where another does. */
    ghost predicate Served(id: int, weight: Bytes, scale: Bytes)
      reads this
    {
      && Fits(t) && 0 <= id < t.rows && |weight| == 256 && |scale| == 8
      && (rowLo <= id < rowHi ==> weight == WeightOf(t, id) && scale == ScaleOf(t, id))
      && (!(rowLo <= id < rowHi) ==>
            (forall k :: 0 <= k < 256 ==> weight[k] == 0) && forall k :: 0 <= k < 8 ==> scale[k] == 0)
    }

    /** The id is in the table, and this rank can answer for it: another rank owns it, or its row can be read. */
    predicate Answerable(id: int, disk: Disk, packedDisk: Disk)
      reads this
    {
      0 <= id < t.rows && (rowLo <= id < rowHi ==> ReadsBack(id, disk, packedDisk))
    }

    /** serve: rows [begin, end) of a lookup; false when it aborts. It answers whenever every id is in the table and
        every row this rank must read comes back, and an id it answered for was in the table and could be read, here
        or before. */
    method Serve(ids: seq<int>, begin: nat, end: nat, weights: array<Bytes>, scaleRows: array<Bytes>,
                 disk: Disk, packedDisk: Disk) returns (ok: bool)
      requires Exact() && Coherent() && begin <= end <= |ids| == weights.Length == scaleRows.Length
      requires weights != scaleRows
      requires IsDisk(t.file, disk) && (packed.Some? ==> IsDisk(packed.value, packedDisk))
      modifies weights, scaleRows, keys, cache, victim
      ensures Exact() && Coherent()
      ensures ok ==> forall i :: begin <= i < end ==> Served(ids[i], weights[i], scaleRows[i])
      ensures (forall i :: begin <= i < end ==> Answerable(ids[i], disk, packedDisk)) ==> ok
      ensures ok ==> forall i :: begin <= i < end ==>
                0 <= ids[i] < t.rows && (Answerable(ids[i], disk, packedDisk) || old(Cached(ids[i])))
      ensures Whole(t.file, disk) && (packed.Some? ==> Whole(packed.value, packedDisk)) ==>
                (ok <==> forall i :: begin <= i < end ==> 0 <= ids[i] < t.rows)
      ensures forall i :: 0 <= i < |ids| && !(begin <= i < end) ==>
                weights[i] == old(weights[i]) && scaleRows[i] == old(scaleRows[i])
    {
      ok := ServeEach(ids, begin, end, weights, scaleRows, disk, packedDisk);
      if Whole(t.file, disk) && (packed.Some? ==> Whole(packed.value, packedDisk)) {
        forall i | begin <= i < end && 0 <= ids[i] < t.rows ensures Answerable(ids[i], disk, packedDisk) {
          if rowLo <= ids[i] < rowHi { WholeReadsBack(ids[i], disk, packedDisk); }
        }
      }
    }

    /** One id of a lookup. */
    method ServeOne(id: int, i: nat, weights: array<Bytes>, scaleRows: array<Bytes>, disk: Disk, packedDisk: Disk)
      returns (ok: bool)
      requires Exact() && Coherent() && i < weights.Length == scaleRows.Length && weights != scaleRows
      requires IsDisk(t.file, disk) && (packed.Some? ==> IsDisk(packed.value, packedDisk))
      modifies weights, scaleRows, keys, cache, victim
      ensures Exact() && Coherent()
      ensures ok ==> Served(id, weights[i], scaleRows[i])
      ensures ok <==> Answerable(id, disk, packedDisk) || (rowLo <= id < rowHi && old(Cached(id)))
      ensures forall x: nat :: Cached(x) ==> old(Cached(x)) || Answerable(x, disk, packedDisk)
      ensures forall k :: 0 <= k < weights.Length && k != i ==>
                weights[k] == old(weights[k]) && scaleRows[k] == old(scaleRows[k])
    {
      hide Coherent, Cached, IsDisk, ReadsBack, PinnedRight, PackedRight;
      if id < 0 || id >= t.rows { return false; }
      if id < rowLo || id >= rowHi {
        weights[i] := seq(WEIGHT_BYTES, _ => 0);
        scaleRows[i] := seq(SCALE_BYTES, _ => 0);
        return true;
      }
      var row := FetchRow(id, disk, packedDisk);
      if row.Fail? { return false; }
      RowParts(t, id);
      weights[i] := row.value[..WEIGHT_BYTES];
      scaleRows[i] := row.value[WEIGHT_BYTES..];
      ok := true;
    }

    /** The loop of serve. */
    method ServeEach(ids: seq<int>, begin: nat, end: nat, weights: array<Bytes>, scaleRows: array<Bytes>,
                     disk: Disk, packedDisk: Disk) returns (ok: bool)
      requires Exact() && Coherent() && begin <= end <= |ids| == weights.Length == scaleRows.Length
      requires weights != scaleRows
      requires IsDisk(t.file, disk) && (packed.Some? ==> IsDisk(packed.value, packedDisk))
      modifies weights, scaleRows, keys, cache, victim
      ensures Exact() && Coherent()
      ensures ok ==> forall i :: begin <= i < end ==> Served(ids[i], weights[i], scaleRows[i])
      ensures (forall i :: begin <= i < end ==> Answerable(ids[i], disk, packedDisk)) ==> ok
      ensures ok ==> forall i :: begin <= i < end ==>
                0 <= ids[i] < t.rows && (Answerable(ids[i], disk, packedDisk) || old(Cached(ids[i])))
      ensures forall i :: 0 <= i < |ids| && !(begin <= i < end) ==>
                weights[i] == old(weights[i]) && scaleRows[i] == old(scaleRows[i])
    {
      for i := begin to end
        invariant Exact() && Coherent()
        invariant forall k :: begin <= k < i ==> Served(ids[k], weights[k], scaleRows[k])
        invariant forall k :: begin <= k < i ==>
                    0 <= ids[k] < t.rows && (Answerable(ids[k], disk, packedDisk) || old(Cached(ids[k])))
        invariant forall id: nat :: Cached(id) ==> old(Cached(id)) || Answerable(id, disk, packedDisk)
        invariant forall k :: 0 <= k < |ids| && !(begin <= k < i) ==>
                    weights[k] == old(weights[k]) && scaleRows[k] == old(scaleRows[k])
      {
        hide Exact, Coherent, Served, Cached, Answerable, ReadsBack, IsDisk;
        var fine := ServeOne(ids[i], i, weights, scaleRows, disk, packedDisk);
        if !fine { return false; }
      }
      ok := true;
    }
  }

  // ------------------------------------------------------------------------------------------
  // moving the range under a packed shard
  // ------------------------------------------------------------------------------------------

  /** Under a range that starts at lo a shard of rows from, from + 1, ... answers for row id with the row as far from
      its own first as id is from lo. */
  lemma MovedRead(t: Table, shard: Bytes, from: nat, to: nat, lo: nat, id: nat)
    requires Fits(t) && from <= to <= t.rows && PackedRight(t, shard, from, to) && lo <= id && from + (id - lo) < to
    ensures PackedAt(shard, lo, id) == Some(RowOf(t, from + (id - lo)))
  {
    var j := from + (id - lo);
    assert from <= j < to && j - from == id - lo;
  }

  /** Every read that succeeds under the range returns its row, whatever the table and the shard hold. */
  ghost predicate ReadsRight(rows: nat, from: nat, to: nat, lo: nat, hi: nat)
    requires from <= to <= rows && lo <= hi <= rows
  {
    forall t: Table, shard: Bytes :: Fits(t) && t.rows == rows && PackedRight(t, shard, from, to) ==>
      forall id :: lo <= id < hi && PackedAt(shard, lo, id).Some? ==> PackedAt(shard, lo, id).value == RowOf(t, id)
  }

  /**
   * Which ranges a shard of rows [from, to) may be read under, in the bytes FetchMiss reads: exactly the empty ones
   * and those that start where the shard does and end within it. The guard of row_store_range does not check this
   * when the scales are not pinned.
   */
  lemma PackedRangeExactly(rows: nat, from: nat, to: nat, lo: nat, hi: nat)
    requires from <= to <= rows && lo <= hi <= rows
    ensures ReadsRight(rows, from, to, lo, hi) <==> IndexedBy(from, to, lo, hi)
  {
    if IndexedBy(from, to, lo, hi) {
      forall t: Table, shard: Bytes, id | Fits(t) && t.rows == rows && PackedRight(t, shard, from, to) && lo <= id < hi
        ensures PackedAt(shard, lo, id) == Some(RowOf(t, id))
      {
        MovedRead(t, shard, from, to, lo, id);
      }
    } else {
      var id := if lo != from then lo else to;
      var t := Marked(rows, id);
      var shard := Packed(t, from, to, rows + 1);
      PackedHolds(t, from, to, rows + 1);
      MarkedRow(rows, id, id);
      PackedElsewhere(rows, id, from, to, lo);
      assert PackedAt(shard, lo, id).value != RowOf(t, id);
    }
  }

  /** A table whose row k has weights 1 and whose other bytes are 0. */
  function Marked(rows: nat, k: nat): (t: Table)
    ensures Fits(t) && t.rows == rows
  {
    Table(seq(rows * WEIGHT_BYTES + rows * SCALE_BYTES,
              p requires 0 <= p => if k * WEIGHT_BYTES <= p < k * WEIGHT_BYTES + WEIGHT_BYTES then 1 else 0),
          rows, 0, rows * WEIGHT_BYTES)
  }

  lemma MarkedRow(rows: nat, k: nat, id: nat)
    requires k < rows && id < rows
    ensures RowOf(Marked(rows, k), id)[0] == if id == k then 1 else 0
  {
    RowInside(rows, id, WEIGHT_BYTES);
    RowInside(rows, k, WEIGHT_BYTES);
    assert WeightOf(Marked(rows, k), id)[0] == Marked(rows, k).file[id * WEIGHT_BYTES];
  }

  /** A packed shard of rows [from, to) followed by zeros up to n rows. */
  function Packed(t: Table, from: nat, to: nat, n: nat): (shard: Bytes)
    requires Fits(t) && from <= to <= t.rows && to - from <= n
  {
    seq(PACKED_HEADER + n * ROW_BYTES, p requires 0 <= p =>
      if p < PACKED_HEADER || from + (p - PACKED_HEADER) / ROW_BYTES >= to then 0
      else RowOf(t, from + (p - PACKED_HEADER) / ROW_BYTES)[(p - PACKED_HEADER) % ROW_BYTES])
  }

  lemma PackedByte(t: Table, from: nat, to: nat, n: nat, j: nat, i: nat)
    requires Fits(t) && from <= to <= t.rows && to - from <= n && j < n && i < ROW_BYTES
    ensures PACKED_HEADER + j * ROW_BYTES + ROW_BYTES <= |Packed(t, from, to, n)|
    ensures Packed(t, from, to, n)[PACKED_HEADER + j * ROW_BYTES + i]
         == if from + j < to then RowOf(t, from + j)[i] else 0
  {
    var p := j * ROW_BYTES + i;
    assert p / ROW_BYTES == j && p % ROW_BYTES == i;
    hide RowOf;
  }

  lemma PackedHolds(t: Table, from: nat, to: nat, n: nat)
    requires Fits(t) && from <= to <= t.rows && to - from <= n
    ensures PackedRight(t, Packed(t, from, to, n), from, to)
  {
    var shard := Packed(t, from, to, n);
    forall id | from <= id < to
      ensures PACKED_HEADER + (id - from) * ROW_BYTES + ROW_BYTES <= |shard|
      ensures shard[PACKED_HEADER + (id - from) * ROW_BYTES..PACKED_HEADER + (id - from) * ROW_BYTES + ROW_BYTES]
           == RowOf(t, id)
    {
      var j := id - from;
      forall i | 0 <= i < ROW_BYTES
        ensures PACKED_HEADER + j * ROW_BYTES + ROW_BYTES <= |shard|
        ensures shard[PACKED_HEADER + j * ROW_BYTES + i] == RowOf(t, id)[i]
      {
        PackedByte(t, from, to, n, j, i);
      }
      hide Packed, RowOf;
    }
  }

  /** Where the range does not fit, the read for the marked row meets an unmarked one. */
  lemma PackedElsewhere(rows: nat, id: nat, from: nat, to: nat, lo: nat)
    requires from <= to <= rows && lo <= id < rows && (if lo != from then id == lo else id == to)
    ensures var r := PackedAt(Packed(Marked(rows, id), from, to, rows + 1), lo, id); r.Some? && r.value[0] == 0
  {
    var t := Marked(rows, id);
    var j := id - lo;
    PackedByte(t, from, to, rows + 1, j, 0);
    if from + j < to { MarkedRow(rows, id, from + j); }
    hide Packed, Marked;
  }
}
