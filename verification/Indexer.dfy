/**
 * The dense prefill indexer (adapter/indexer_chunked_v3.py, with partition from
 * adapter/spark_prefill_dense.py): compressed slot ids without host syncs, and the selection computed in
 * row chunks, or in row chunks of each rank's slice, against the selection computed row by row.
 */
module IndexerSlots {
  import opened Wrappers

  /** prefix sums of the per-request lengths */
  function Start(lens: seq<nat>, r: nat): nat
    requires r <= |lens|
  {
    if r == 0 then 0 else Start(lens, r - 1) + lens[r - 1]
  }

  lemma {:induction false} StartMono(lens: seq<nat>, a: nat, b: nat)
    requires a <= b <= |lens|
    ensures Start(lens, a) <= Start(lens, b)
  {
    if a < b { StartMono(lens, a, b - 1); }
  }

  /** The compressed slot of a request's j-th visible position. */
  function SlotAt(table: (int, nat) -> int, pool: int, j: nat, ratio: nat): int
    requires ratio > 0
  {
    table(pool, j * ratio) / ratio
  }

  /** The stock loop: request r contributes its token slots at 0, ratio, 2·ratio, ... divided by ratio. */
  function PerRequest(table: (int, nat) -> int, pool: seq<int>, lens: seq<nat>, ratio: nat, r: nat): (out: seq<int>)
    requires r <= |lens| <= |pool| && ratio > 0
    ensures |out| == Start(lens, r)
  {
    if r == 0 then []
    else PerRequest(table, pool, lens, ratio, r - 1)
         + seq(lens[r - 1], j requires 0 <= j => SlotAt(table, pool[r - 1], j, ratio))
  }

  /** repeat_interleave: value r repeated counts[r] times. */
  function Repeat<T>(values: seq<T>, counts: seq<nat>, r: nat): (out: seq<T>)
    requires r <= |counts| <= |values|
    ensures |out| == Start(counts, r)
  {
    if r == 0 then [] else Repeat(values, counts, r - 1) + seq(counts[r - 1], _ => values[r - 1])
  }

  lemma {:induction false} RepeatAt<T>(values: seq<T>, counts: seq<nat>, n: nat, r: nat, k: nat)
    requires r < n <= |counts| <= |values| && Start(counts, r) <= k < Start(counts, r + 1)
    ensures k < Start(counts, n) && Repeat(values, counts, n)[k] == values[r]
  {
    StartMono(counts, r + 1, n);
    if r < n - 1 {
      StartMono(counts, r + 1, n - 1);
      RepeatAt(values, counts, n - 1, r, k);
    }
  }

  lemma {:induction false} PerRequestAt(table: (int, nat) -> int, pool: seq<int>, lens: seq<nat>, ratio: nat, n: nat,
                                        r: nat, k: nat)
    requires r < n <= |lens| <= |pool| && ratio > 0 && Start(lens, r) <= k < Start(lens, r + 1)
    ensures k < Start(lens, n)
    ensures PerRequest(table, pool, lens, ratio, n)[k] == SlotAt(table, pool[r], k - Start(lens, r), ratio)
  {
    StartMono(lens, r + 1, n);
    if r < n - 1 {
      StartMono(lens, r + 1, n - 1);
      PerRequestAt(table, pool, lens, ratio, n - 1, r, k);
    }
  }

  /** The j-th slot of request r stands j places after its start and is its token slot at j times the ratio, divided by
      the ratio. */
  ghost predicate SlotIs(table: (int, nat) -> int, pool: seq<int>, lens: seq<nat>, ratio: nat, slots: seq<int>, r: nat,
                         j: nat)
    requires r < |lens| <= |pool| && ratio > 0
  {
    Start(lens, r) + j < |slots| && slots[Start(lens, r) + j] == table(pool[r], j * ratio) / ratio
  }

  lemma SlotOfRequest(table: (int, nat) -> int, pool: seq<int>, lens: seq<nat>, ratio: nat, r: nat, j: nat)
    requires r < |lens| <= |pool| && ratio > 0 && j < lens[r]
    ensures SlotIs(table, pool, lens, ratio, PerRequest(table, pool, lens, ratio, |lens|), r, j)
  {
    var k := Start(lens, r) + j;
    assert Start(lens, r + 1) == Start(lens, r) + lens[r];
    PerRequestAt(table, pool, lens, ratio, |lens|, r, k);
    hide PerRequest, Start;
    assert k - Start(lens, r) == j;
  }

  /** The request a slot belongs to. */
  lemma {:induction false} RequestOf(lens: seq<nat>, n: nat, k: nat) returns (r: nat)
    requires n <= |lens| && k < Start(lens, n)
    ensures r < n && Start(lens, r) <= k < Start(lens, r + 1)
  {
    if Start(lens, n - 1) <= k { r := n - 1; } else { r := RequestOf(lens, n - 1, k); }
  }

  /** One entry of the gather is the entry of the per-request loop. */
  lemma GatherAt(table: (int, nat) -> int, pool: seq<int>, lens: seq<nat>, starts: seq<nat>, ratio: nat, k: nat)
    requires |lens| <= |pool| && ratio > 0 && k < Start(lens, |lens|)
    requires |starts| == |lens| && forall r :: 0 <= r < |lens| ==> starts[r] == Start(lens, r)
    ensures var n := |lens|;
            && Repeat(starts, lens, n)[k] <= k
            && PerRequest(table, pool, lens, ratio, n)[k]
               == SlotAt(table, Repeat(pool[..n], lens, n)[k], k - Repeat(starts, lens, n)[k], ratio)
  {
    var n := |lens|;
    var r := RequestOf(lens, n, k);
    RepeatAt(pool[..n], lens, n, r, k);
    RepeatAt(starts, lens, n, r, k);
    PerRequestAt(table, pool, lens, ratio, n, r, k);
    hide PerRequest, Repeat, Start;
  }

  /**
   * slot_ids_nosync: request r's slots start where the lengths before it end, and its j-th one is its token slot at
   * j times the ratio, divided by the ratio, whatever the request mix, empty requests included; and nothing when
   * there is no slot.
   */
  method SlotIdsNosync(table: (int, nat) -> int, pool: seq<int>, lens: seq<nat>, ratio: nat)
    returns (slots: Option<seq<int>>, starts: seq<nat>)
    requires |lens| <= |pool| && ratio > 0
    ensures |starts| == |lens| && forall r :: 0 <= r < |lens| ==> starts[r] == Start(lens, r)
    ensures slots.None? <==> Start(lens, |lens|) == 0
    ensures slots.Some? ==> |slots.value| == Start(lens, |lens|)
    ensures slots.Some? ==> forall r, j :: 0 <= r < |lens| && 0 <= j < lens[r] ==>
              SlotIs(table, pool, lens, ratio, slots.value, r, j)
  {
    slots, starts := GatherSlots(table, pool, lens, ratio);
    if slots.Some? {
      hide Start, PerRequest, SlotIs;
      forall r, j | 0 <= r < |lens| && 0 <= j < lens[r] ensures SlotIs(table, pool, lens, ratio, slots.value, r, j) {
        SlotOfRequest(table, pool, lens, ratio, r, j);
      }
    }
  }

  /** One gather over repeated indices is the concatenation of the per-request gathers. */
  method GatherSlots(table: (int, nat) -> int, pool: seq<int>, lens: seq<nat>, ratio: nat)
    returns (slots: Option<seq<int>>, starts: seq<nat>)
    requires |lens| <= |pool| && ratio > 0
    ensures |starts| == |lens| && forall r :: 0 <= r < |lens| ==> starts[r] == Start(lens, r)
    ensures slots.None? <==> Start(lens, |lens|) == 0
    ensures slots.Some? ==> slots.value == PerRequest(table, pool, lens, ratio, |lens|)
  {
    starts := [];
    var start := 0;
    for r := 0 to |lens|
      invariant |starts| == r && start == Start(lens, r)
      invariant forall q :: 0 <= q < r ==> starts[q] == Start(lens, q)
    {
      starts := starts + [start];
      start := start + lens[r];
    }
    if start == 0 { return None, starts; }
    var n := |lens|;
    var rows := Repeat(pool[..n], lens, n);
    var firsts := Repeat(starts, lens, n);
    ghost var want := PerRequest(table, pool, lens, ratio, n);
    hide PerRequest, Repeat, Start, SlotAt;
    var out: seq<int> := [];
    for k := 0 to start
      invariant |out| == k && forall q :: 0 <= q < k ==> out[q] == want[q]
    {
      GatherAt(table, pool, lens, starts, ratio, k);
      out := out + [SlotAt(table, rows[k], k - firsts[k], ratio)];
    }
    assert out == want;
    slots := Some(out);
  }
}

module IndexerSelect {
  import opened IndexerSlots

  /**
   * The kernels, one row at a time. A row's logits are a function of the column: exact below the row's
   * length, anything from there on. `K` ids are selected per row.
   */
  datatype Kernels<!S> = Kernels(
    raw: (nat, nat) -> S, neg: S, K: nat,
    topk: (nat -> S, nat, nat) -> seq<int>,
    maskTopk: (nat -> S, seq<int>, nat) -> seq<int>,
    blockMask: (seq<S>, nat) -> seq<bool>,
    blockIds: (seq<S>, nat) -> seq<int>,
    maskOfIds: (seq<int>, nat) -> seq<bool>,
    blocks: nat -> nat)

  function Unselected(K: nat): seq<int> { seq(K, _ => -1) }

  ghost predicate AgreeBelow<S>(f: nat -> S, g: nat -> S, n: nat) { forall j: nat :: j < n ==> f(j) == g(j) }

  /** What is assumed of the serving kernels: top-k looks below the row's length only, and a mask can be rebuilt
      from its block ids. */
  ghost predicate Laws<S(!new)>(k: Kernels<S>) {
    && (forall f: nat -> S, g: nat -> S, n: nat, off: nat :: AgreeBelow(f, g, n) ==>
          k.topk(f, n, off) == k.topk(g, n, off)
          && k.maskTopk(f, k.topk(f, n, off), off) == k.maskTopk(g, k.topk(g, n, off), off))
    && (forall f: nat -> S, off: nat :: k.topk(f, 0, off) == Unselected(k.K))
    && (forall f: nat -> S, off: nat :: k.maskTopk(f, Unselected(k.K), off) == Unselected(k.K))
    && (forall row: seq<S>, n: nat :: |k.blockIds(row, n)| == k.blocks(|row|)
                                      && k.maskOfIds(k.blockIds(row, n), |row|) == k.blockMask(row, n))
  }

  datatype Role = Plain | Source | Consumer

  /** Rows laid out request after request; `len(t)` compressed positions visible to row t. */
  datatype Batch = Batch(widths: seq<nat>, counts: seq<nat>, len: nat -> nat, starts: seq<nat>,
                         allowed: (nat, nat, nat) -> bool, role: Role, publish: seq<nat>, tailOnly: bool)

  /** Row t belongs to request r. */
  predicate InRequest(b: Batch, r: nat, t: nat) {
    r < |b.counts| == |b.widths| == |b.starts| && Start(b.counts, r) <= t < Start(b.counts, r + 1)
  }

  ghost predicate Fits(b: Batch) {
    && |b.widths| == |b.counts| == |b.starts| == |b.publish|
    && forall r: nat, t: nat :: InRequest(b, r, t) ==> b.len(t) <= b.widths[r]
  }

  function Rows(b: Batch): nat { Start(b.counts, |b.counts|) }

  // ------------------------------------------------------------------------------------------
  // row by row
  // ------------------------------------------------------------------------------------------

  /** The logits of row t, with whatever the kernel leaves beyond the row's length. */
  function Logit<S>(k: Kernels<S>, b: Batch, junk: (nat, nat) -> S, t: nat, j: nat): S {
    if j < b.len(t) then k.raw(t, j) else junk(t, j)
  }

  /** Row t of request r after its mask: beyond the length for a source, where not allowed for a consumer. */
  function Masked<S>(k: Kernels<S>, b: Batch, junk: (nat, nat) -> S, r: nat, t: nat): nat -> S
    requires InRequest(b, r, t)
  {
    (j: nat) => MaskedAt(k, b, junk, r, t, j)
  }

  function MaskedAt<S>(k: Kernels<S>, b: Batch, junk: (nat, nat) -> S, r: nat, t: nat, j: nat): S
    requires InRequest(b, r, t)
  {
    if b.role == Source && j < b.widths[r] && j >= b.len(t) then k.neg
    else if b.role == Consumer && j < b.widths[r] && !b.allowed(r, t - Start(b.counts, r), j) then k.neg
    else Logit(k, b, junk, t, j)
  }

  /** The ids selected for a row whose (masked) logits are f. */
  function Pick<S>(k: Kernels<S>, b: Batch, f: nat -> S, n: nat, off: nat): seq<int> {
    var got := k.topk(f, n, off);
    if b.role == Consumer then k.maskTopk(f, got, off) else got
  }

  /** What the selection of row t of request r is made from: the kernel's logits, minus infinity where a consumer's mask
      forbids. */
  function Shown<S>(k: Kernels<S>, b: Batch, r: nat, t: nat): nat -> S
    requires InRequest(b, r, t)
  {
    (j: nat) => if b.role == Consumer && !b.allowed(r, t - Start(b.counts, r), j) then k.neg else k.raw(t, j)
  }

  /** What row t of request r must select. */
  function RowSelected<S>(k: Kernels<S>, b: Batch, r: nat, t: nat): seq<int>
    requires InRequest(b, r, t)
  {
    if b.widths[r] == 0 then Unselected(k.K) else Pick(k, b, Shown(k, b, r, t), b.len(t), b.starts[r])
  }

  function SourceRow<S>(k: Kernels<S>, b: Batch, junk: (nat, nat) -> S, r: nat, t: nat): (row: seq<S>)
    requires InRequest(b, r, t)
    ensures |row| == b.widths[r]
  {
    seq(b.widths[r], j requires 0 <= j => MaskedAt(k, b, junk, r, t, j))
  }

  /** The scores a source's block mask is made from: the kernel's below the row's length, minus infinity beyond. */
  function Scores<S>(k: Kernels<S>, b: Batch, r: nat, t: nat): (row: seq<S>)
    requires InRequest(b, r, t)
    ensures |row| == b.widths[r]
  {
    seq(b.widths[r], j requires 0 <= j => if j < b.len(t) then k.raw(t, j) else k.neg)
  }

  /** How many rows of request r publish a candidate mask. */
  function Published(b: Batch, r: nat): (n: nat)
    requires r < |b.counts| == |b.publish|
    ensures n <= b.counts[r]
  {
    if !b.tailOnly then b.counts[r] else if b.publish[r] <= b.counts[r] then b.publish[r] else b.counts[r]
  }

  function MaskRow<S>(k: Kernels<S>, b: Batch, r: nat, t: nat): seq<bool>
    requires InRequest(b, r, t)
  {
    k.blockMask(Scores(k, b, r, t), b.len(t))
  }

  /** The candidate mask a source publishes for request r: its last rows, each from its own scores. */
  function RequestMask<S>(k: Kernels<S>, b: Batch, r: nat): (mask: seq<seq<bool>>)
    requires Fits(b) && r < |b.widths|
  {
    if b.widths[r] == 0 || b.counts[r] == 0 then
      []
    else
      seq(Published(b, r), q requires 0 <= q < Published(b, r) =>
        MaskRow(k, b, r, Start(b.counts, r + 1) - Published(b, r) + q))
  }

  /** Whatever a kernel leaves beyond the row's length, the row selects the same. */
  lemma JunkIrrelevant<S(!new)>(k: Kernels<S>, b: Batch, junk: (nat, nat) -> S, r: nat, t: nat)
    requires Laws(k) && Fits(b) && InRequest(b, r, t)
    ensures Pick(k, b, Masked(k, b, junk, r, t), b.len(t), b.starts[r]) == RowSelected(k, b, r, t)
    ensures b.role == Source ==> SourceRow(k, b, junk, r, t) == Scores(k, b, r, t)
  {
    var f, g := Masked(k, b, junk, r, t), Shown(k, b, r, t);
    assert b.len(t) <= b.widths[r];
    forall j: nat | j < b.len(t) ensures f(j) == g(j) {}
    assert AgreeBelow(f, g, b.len(t));
    if b.widths[r] == 0 { assert AgreeBelow(f, f, 0); }
  }

  /** Logits that show the selection every permitted column as the kernel left it and every forbidden one as minus
      infinity. */
  ghost predicate Reaches<S>(k: Kernels<S>, b: Batch, r: nat, t: nat, f: nat -> S)
    requires InRequest(b, r, t)
  {
    forall j: nat :: j < b.len(t) ==>
      f(j) == if b.role == Consumer && !b.allowed(r, t - Start(b.counts, r), j) then k.neg else k.raw(t, j)
  }

  /** Row t of request r selected from just such logits, whatever they are beyond its length. */
  ghost predicate SelectsFrom<S(!new)>(k: Kernels<S>, b: Batch, r: nat, t: nat, got: seq<int>)
    requires InRequest(b, r, t)
  {
    && (b.widths[r] == 0 ==> |got| == k.K && forall j :: 0 <= j < k.K ==> got[j] == -1)
    && forall f: nat -> S :: b.widths[r] > 0 && Reaches(k, b, r, t, f) ==>
         var ids := k.topk(f, b.len(t), b.starts[r]);
         got == if b.role == Consumer then k.maskTopk(f, ids, b.starts[r]) else ids
  }

  ghost predicate AllSelect<S(!new)>(k: Kernels<S>, b: Batch, selected: seq<seq<int>>) {
    |selected| == Rows(b) && forall r: nat, t: nat :: InRequest(b, r, t) ==>
      t < |selected| && SelectsFrom(k, b, r, t, selected[t])
  }

  /** A source's mask of request r: nothing for an empty request; otherwise the last rows, as many as asked of a tail,
      each the block mask of its own scores. */
  ghost predicate Publishes<S>(k: Kernels<S>, b: Batch, r: nat, mask: seq<seq<bool>>)
    requires Fits(b) && r < |b.widths|
  {
    && (b.widths[r] == 0 || b.counts[r] == 0 ==> mask == [])
    && (b.widths[r] > 0 && b.counts[r] > 0 ==>
          && |mask| <= b.counts[r]
          && |mask| == (if b.tailOnly && b.publish[r] < b.counts[r] then b.publish[r] else b.counts[r])
          && forall q :: 0 <= q < |mask| ==> MaskOfRow(k, b, r, Start(b.counts, r) + b.counts[r] - |mask| + q, mask[q]))
  }

  ghost predicate MaskOfRow<S>(k: Kernels<S>, b: Batch, r: nat, t: nat, got: seq<bool>)
    requires r < |b.widths|
  {
    got == k.blockMask(seq(b.widths[r], j requires 0 <= j => if j < b.len(t) then k.raw(t, j) else k.neg), b.len(t))
  }

  lemma SelectedSelects<S(!new)>(k: Kernels<S>, b: Batch, r: nat, t: nat)
    requires Laws(k) && Fits(b) && InRequest(b, r, t)
    ensures SelectsFrom(k, b, r, t, RowSelected(k, b, r, t))
  {
    forall f: nat -> S | Reaches(k, b, r, t, f)
      ensures AgreeBelow(Shown(k, b, r, t), f, b.len(t))
    {}
  }

  /** What every request selects and publishes on its own is right for the batch. */
  lemma AllRight<S(!new)>(k: Kernels<S>, b: Batch, selected: seq<seq<int>>, masks: seq<seq<seq<bool>>>)
    requires Laws(k) && Fits(b)
    requires |selected| == Rows(b) && forall r :: 0 <= r < |b.widths| ==> RequestRight(k, b, r, selected)
    requires b.role == Source ==> |masks| == |b.widths| && forall r :: 0 <= r < |b.widths| ==>
               masks[r] == RequestMask(k, b, r)
    ensures AllSelect(k, b, selected)
    ensures b.role == Source ==> forall r :: 0 <= r < |b.widths| ==> Publishes(k, b, r, masks[r])
  {
    hide Laws, SelectsFrom, Publishes, RequestMask, RowSelected;
    forall r: nat, t: nat | InRequest(b, r, t) ensures t < |selected| && SelectsFrom(k, b, r, t, selected[t]) {
      SelectedSelects(k, b, r, t);
      StartMono(b.counts, r + 1, |b.counts|);
      assert RequestRight(k, b, r, selected) && RowRight(k, b, r, t, selected[t]);
    }
    forall r: nat | b.role == Source && r < |b.widths| ensures Publishes(k, b, r, masks[r]) {
      RequestPublishes(k, b, r);
    }
  }

  lemma RequestPublishes<S>(k: Kernels<S>, b: Batch, r: nat)
    requires Fits(b) && r < |b.widths|
    ensures Publishes(k, b, r, RequestMask(k, b, r))
  {
    var mask := RequestMask(k, b, r);
    assert Start(b.counts, r + 1) == Start(b.counts, r) + b.counts[r];
    forall q | 0 <= q < |mask| ensures MaskOfRow(k, b, r, Start(b.counts, r) + b.counts[r] - |mask| + q, mask[q]) {
      var t := Start(b.counts, r) + b.counts[r] - |mask| + q;
      assert InRequest(b, r, t) && mask[q] == MaskRow(k, b, r, t);
      assert Scores(k, b, r, t) == seq(b.widths[r], j requires 0 <= j => if j < b.len(t) then k.raw(t, j) else k.neg);
    }
  }

  /** The forbidden columns do not matter: kernels whose logits agree at every column a consumer is allowed, whatever
      they leave at the others, select the same in every row. */
  lemma ForbiddenIgnored<S(!new)>(k: Kernels<S>, k': Kernels<S>, b: Batch, sel: seq<seq<int>>, sel': seq<seq<int>>)
    requires Fits(b) && b.role == Consumer && k' == k.(raw := k'.raw)
    requires forall r: nat, t: nat, j: nat ::
               InRequest(b, r, t) && j < b.len(t) && b.allowed(r, t - Start(b.counts, r), j) ==>
                 k.raw(t, j) == k'.raw(t, j)
    requires AllSelect(k, b, sel) && AllSelect(k', b, sel')
    ensures sel == sel'
  {
    forall t | 0 <= t < Rows(b) ensures sel[t] == sel'[t] {
      var r := RequestOf(b.counts, |b.counts|, t);
      assert InRequest(b, r, t);
      assert SelectsFrom(k, b, r, t, sel[t]) && SelectsFrom(k', b, r, t, sel'[t]);
      assert Reaches(k, b, r, t, Shown(k, b, r, t)) && Reaches(k', b, r, t, Shown(k, b, r, t));
    }
  }

  // ------------------------------------------------------------------------------------------
  // in row chunks, request by request
  // ------------------------------------------------------------------------------------------

  function CeilAlign(x: nat, a: nat): nat
    requires a > 0
  {
    (x + a - 1) / a * a
  }

  function RowsPerChunk(budget: nat, width: nat): (n: nat)
    requires width > 0
    ensures n >= 1
  {
    var aligned := CeilAlign(width, 4);
    if aligned == 0 || budget / (aligned * 4) < 1 then 1 else budget / (aligned * 4)
  }

  /** Rows lo .. hi - 1 of request r hold what they select on their own. */
  ghost predicate RangeRight<S>(k: Kernels<S>, b: Batch, r: nat, sel: seq<seq<int>>, lo: nat, hi: nat) {
    hi <= |sel| && forall t :: lo <= t < hi ==> RowRight(k, b, r, t, sel[t])
  }

  ghost predicate RowRight<S>(k: Kernels<S>, b: Batch, r: nat, t: nat, got: seq<int>) {
    InRequest(b, r, t) && got == RowSelected(k, b, r, t)
  }

  ghost predicate RequestRight<S>(k: Kernels<S>, b: Batch, r: nat, sel: seq<seq<int>>) {
    r < |b.counts| && RangeRight(k, b, r, sel, Start(b.counts, r), Start(b.counts, r + 1))
  }

  lemma RequestKept<S>(k: Kernels<S>, b: Batch, q: nat, sel: seq<seq<int>>, sel': seq<seq<int>>, from: nat)
    requires RequestRight(k, b, q, sel) && |sel'| == |sel| && Start(b.counts, q + 1) <= from
    requires forall t :: 0 <= t < |sel| && t < from ==> sel'[t] == sel[t]
    ensures RequestRight(k, b, q, sel')
  {
    hide RowRight, Start;
  }

  /**
   * The chunked path: for any logits budget, every row selects what it selects on its own and every source
   * request publishes its mask.
   */
  method ChunkedSelect<S(!new)>(k: Kernels<S>, b: Batch, budget: nat, junk: (nat, nat) -> S)
    returns (selected: seq<seq<int>>, masks: seq<seq<seq<bool>>>)
    requires Laws(k) && Fits(b)
    ensures AllSelect(k, b, selected)
    ensures b.role == Source ==> |masks| == |b.widths| && forall r :: 0 <= r < |b.widths| ==>
              Publishes(k, b, r, masks[r])
  {
    selected, masks := ChunkRequests(k, b, budget, junk);
    AllRight(k, b, selected, masks);
  }

  method ChunkRequests<S(!new)>(k: Kernels<S>, b: Batch, budget: nat, junk: (nat, nat) -> S)
    returns (selected: seq<seq<int>>, masks: seq<seq<seq<bool>>>)
    requires Laws(k) && Fits(b)
    ensures |selected| == Rows(b) && forall r :: 0 <= r < |b.widths| ==> RequestRight(k, b, r, selected)
    ensures b.role == Source ==> |masks| == |b.widths| && forall r :: 0 <= r < |b.widths| ==>
              masks[r] == RequestMask(k, b, r)
  {
    selected := seq(Rows(b), _ => []);
    masks := [];
    for r := 0 to |b.widths|
      invariant |selected| == Rows(b) && forall q :: 0 <= q < r ==> RequestRight(k, b, q, selected)
      invariant b.role == Source ==> |masks| == r && forall q :: 0 <= q < r ==> masks[q] == RequestMask(k, b, q)
    {
      hide Laws, RequestMask, RequestRight, RowRight;
      var mask;
      ghost var before := selected;
      StartMono(b.counts, r + 1, |b.counts|);
      selected, mask := ChunkRequest(k, b, budget, junk, r, selected);
      forall q | 0 <= q < r ensures RequestRight(k, b, q, selected) {
        StartMono(b.counts, q + 1, r);
        RequestKept(k, b, q, before, selected, Start(b.counts, r));
      }
      if b.role == Source { masks := masks + [mask]; }
    }
  }

  /** One request of the chunked path. */
  method ChunkRequest<S(!new)>(k: Kernels<S>, b: Batch, budget: nat, junk: (nat, nat) -> S, r: nat,
                               before: seq<seq<int>>)
    returns (selected: seq<seq<int>>, mask: seq<seq<bool>>)
    requires Laws(k) && Fits(b) && r < |b.widths| && |before| == Rows(b) && Start(b.counts, r + 1) <= Rows(b)
    ensures |selected| == |before| && RequestRight(k, b, r, selected)
    ensures forall t :: 0 <= t < |before| && t < Start(b.counts, r) ==> selected[t] == before[t]
    ensures b.role == Source ==> mask == RequestMask(k, b, r)
  {
    var first, count, width := Start(b.counts, r), b.counts[r], b.widths[r];
    assert Start(b.counts, r + 1) == first + count;
    if width == 0 || count == 0 {
      selected := EmptyRequest(k, b, r, before);
      mask := [];
      return;
    }
    selected, mask := before, [];
    var step := RowsPerChunk(budget, width);
    var firstPub := count - Published(b, r);
    hide Laws, RowRight, MaskRowRight, RowsPerChunk, Fits, Start;
    var c0 := 0;
    while c0 < count
      invariant c0 <= count && |selected| == |before|
      invariant RangeRight(k, b, r, selected, first, first + c0)
      invariant forall q :: 0 <= q < first ==> selected[q] == before[q]
      invariant b.role == Source ==> MaskSoFar(k, b, r, firstPub, c0, mask)
    {
      var c1 := if c0 + step < count then c0 + step else count;
      selected, mask := ChunkRows(k, b, junk, r, c0, c1, firstPub, selected, mask);
      c0 := c1;
    }
    if b.role == Source { MaskDone(k, b, r, mask); }
  }

  /** Rows [c0, c1) of a request. */
  method ChunkRows<S(!new)>(k: Kernels<S>, b: Batch, junk: (nat, nat) -> S, r: nat, c0: nat, c1: nat, firstPub: nat,
                            before: seq<seq<int>>, mask0: seq<seq<bool>>)
    returns (selected: seq<seq<int>>, mask: seq<seq<bool>>)
    requires Laws(k) && Fits(b) && r < |b.widths| && b.widths[r] > 0 && |before| == Rows(b)
    requires Start(b.counts, r + 1) <= Rows(b) && c0 <= c1 <= b.counts[r]
    requires RangeRight(k, b, r, before, Start(b.counts, r), Start(b.counts, r) + c0)
    requires b.role == Source ==> MaskSoFar(k, b, r, firstPub, c0, mask0)
    ensures |selected| == |before|
    ensures RangeRight(k, b, r, selected, Start(b.counts, r), Start(b.counts, r) + c1)
    ensures forall q :: 0 <= q < Start(b.counts, r) ==> selected[q] == before[q]
    ensures b.role == Source ==> MaskSoFar(k, b, r, firstPub, c1, mask)
  {
    var first := Start(b.counts, r);
    assert Start(b.counts, r + 1) == first + b.counts[r];
    selected, mask := before, mask0;
    hide Laws, RowRight, MaskRowRight, Fits, Start;
    for c := c0 to c1
      invariant |selected| == |before| && RangeRight(k, b, r, selected, first, first + c)
      invariant forall q :: 0 <= q < first ==> selected[q] == before[q]
      invariant b.role == Source ==> MaskSoFar(k, b, r, firstPub, c, mask)
    {
      assert InRequest(b, r, first + c);
      var ids;
      ids, mask := ChunkRow(k, b, junk, r, c, first + c, firstPub, mask);
      selected := selected[first + c := ids];
    }
  }

  /** A request with no visible position selects nothing. */
  method EmptyRequest<S(!new)>(k: Kernels<S>, b: Batch, r: nat, before: seq<seq<int>>) returns (selected: seq<seq<int>>)
    requires Fits(b) && r < |b.widths| && |before| == Rows(b) && Start(b.counts, r + 1) <= Rows(b)
    requires b.widths[r] == 0 || b.counts[r] == 0
    ensures |selected| == |before| && RequestRight(k, b, r, selected)
    ensures forall t :: 0 <= t < |before| && t < Start(b.counts, r) ==> selected[t] == before[t]
  {
    var first, count := Start(b.counts, r), b.counts[r];
    assert Start(b.counts, r + 1) == first + count;
    hide Fits;
    selected := before;
    for t := first to first + count
      invariant |selected| == |before| && RangeRight(k, b, r, selected, first, t)
      invariant forall q :: 0 <= q < first ==> selected[q] == before[q]
    {
      assert InRequest(b, r, t);
      selected := selected[t := Unselected(k.K)];
    }
  }

  /** One row: select, and publish if it is among the rows that do. */
  method ChunkRow<S(!new)>(k: Kernels<S>, b: Batch, junk: (nat, nat) -> S, r: nat, c: nat, t: nat, firstPub: nat,
                           mask: seq<seq<bool>>) returns (ids: seq<int>, out: seq<seq<bool>>)
    requires Laws(k) && Fits(b) && InRequest(b, r, t) && t == Start(b.counts, r) + c
    requires b.role == Source ==> MaskSoFar(k, b, r, firstPub, c, mask)
    ensures RowRight(k, b, r, t, ids)
    ensures b.role == Source ==> MaskSoFar(k, b, r, firstPub, c + 1, out)
  {
    JunkIrrelevant(k, b, junk, r, t);
    if b.role == Source { MaskGrows(k, b, junk, r, c, t, firstPub, mask); }
    hide Laws, RowSelected, Masked, Pick, SourceRow, Fits, Start, MaskSoFar;
    out := mask;
    if b.role == Source && c >= firstPub {
      out := mask + [k.blockMask(SourceRow(k, b, junk, r, t), b.len(t))];
    }
    ids := Pick(k, b, Masked(k, b, junk, r, t), b.len(t), b.starts[r]);
  }

  /** The row's block mask is the next row of the published mask, once publishing has begun. */
  lemma MaskGrows<S(!new)>(k: Kernels<S>, b: Batch, junk: (nat, nat) -> S, r: nat, c: nat, t: nat, firstPub: nat,
                           mask: seq<seq<bool>>)
    requires InRequest(b, r, t) && t == Start(b.counts, r) + c && MaskSoFar(k, b, r, firstPub, c, mask)
    requires SourceRow(k, b, junk, r, t) == Scores(k, b, r, t)
    ensures c < firstPub ==> MaskSoFar(k, b, r, firstPub, c + 1, mask)
    ensures c >= firstPub ==>
              MaskSoFar(k, b, r, firstPub, c + 1, mask + [k.blockMask(SourceRow(k, b, junk, r, t), b.len(t))])
  {
    hide SourceRow, Start;
    if c >= firstPub {
      var row := k.blockMask(SourceRow(k, b, junk, r, t), b.len(t));
      assert MaskRowRight(k, b, r, c, row);
    }
  }

  ghost predicate MaskSoFar<S>(k: Kernels<S>, b: Batch, r: nat, firstPub: nat, c: nat, mask: seq<seq<bool>>)
    requires r < |b.widths| == |b.counts| == |b.starts|
  {
    |mask| == (if c > firstPub then c - firstPub else 0)
    && forall q :: 0 <= q < |mask| ==> MaskRowRight(k, b, r, firstPub + q, mask[q])
  }

  ghost predicate MaskRowRight<S>(k: Kernels<S>, b: Batch, r: nat, row: nat, got: seq<bool>)
    requires r < |b.widths| == |b.counts| == |b.starts|
  {
    InRequest(b, r, Start(b.counts, r) + row) && got == MaskRow(k, b, r, Start(b.counts, r) + row)
  }

  lemma MaskDone<S>(k: Kernels<S>, b: Batch, r: nat, mask: seq<seq<bool>>)
    requires Fits(b) && r < |b.widths| && b.widths[r] > 0 && b.counts[r] > 0
    requires MaskSoFar(k, b, r, b.counts[r] - Published(b, r), b.counts[r], mask)
    ensures mask == RequestMask(k, b, r)
  {
    hide MaskRow;
    var want := RequestMask(k, b, r);
    assert |mask| == |want|;
    forall q | 0 <= q < |mask| ensures mask[q] == want[q] {
      assert MaskRowRight(k, b, r, b.counts[r] - Published(b, r) + q, mask[q]);
    }
  }

  // ------------------------------------------------------------------------------------------
  // split over ranks
  // ------------------------------------------------------------------------------------------

  const TILE := 128

  /** partition: every rank's slice of the rows, `extent` rows wide. */
  function Extent(rows: nat, world: nat): nat
    requires world >= 1
  {
    (rows + world * TILE - 1) / (world * TILE) * TILE
  }

  lemma ExtentCovers(rows: nat, world: nat)
    requires world >= 1
    ensures world * Extent(rows, world) >= rows
  {
    var unit := world * TILE;
    var n := (rows + unit - 1) / unit;
    assert rows + unit - 1 == n * unit + (rows + unit - 1) % unit;
    assert world * (n * TILE) == n * unit;
  }

  /** One row of a rank's packed tensor: top-k ids, then candidate block ids. */
  datatype Packed = Packed(ids: seq<int>, blocks: seq<int>)

  /** The packed row is the row's own selection and, for a source, its block ids, before the padding. */
  ghost predicate PackedRight<S>(k: Kernels<S>, b: Batch, r: nat, t: nat, got: Packed) {
    && RowRight(k, b, r, t, got.ids)
    && (b.role == Source && b.widths[r] > 0 ==>
          k.blocks(b.widths[r]) <= |got.blocks|
          && got.blocks[..k.blocks(b.widths[r])] == k.blockIds(Scores(k, b, r, t), b.len(t)))
  }

  ghost predicate SomePacked<S>(k: Kernels<S>, b: Batch, t: nat, got: Packed) {
    exists r :: PackedRight(k, b, r, t, got)
  }

  /** Every row of the batch belongs to a request; this finds it as the source's boundary loop does. */
  method RequestAt(b: Batch, t: nat) returns (r: nat)
    requires Fits(b) && t < Rows(b)
    ensures InRequest(b, r, t)
  {
    r := 0;
    while t >= Start(b.counts, r + 1)
      invariant r < |b.counts| && Start(b.counts, r) <= t
      decreases |b.counts| - r
    {
      if r + 1 == |b.counts| { assert false; }
      r := r + 1;
    }
  }

  /** The first n rows of a slice that starts at row `start`, as far as they are rows of the batch. */
  ghost predicate SlicePacked<S>(k: Kernels<S>, b: Batch, start: nat, packed: seq<Packed>, n: int) {
    forall q :: 0 <= q < n && q < |packed| && start + q < Rows(b) ==> SomePacked(k, b, start + q, packed[q])
  }

  /** _split_local: one rank's packed rows, in row chunks. */
  method SplitLocal<S(!new)>(k: Kernels<S>, b: Batch, world: nat, rank: nat, budget: nat, maxWidth: nat, maxBlocks: nat,
                             junk: (nat, nat) -> S) returns (packed: seq<Packed>)
    requires Laws(k) && Fits(b) && rank < world && maxWidth > 0
    requires forall r :: 0 <= r < |b.widths| ==> k.blocks(b.widths[r]) <= maxBlocks
    ensures |packed| == Extent(Rows(b), world)
    ensures SlicePacked(k, b, rank * |packed|, packed, |packed|)
  {
    packed := SplitSlice(k, b, rank * Extent(Rows(b), world), Extent(Rows(b), world), budget, maxWidth, maxBlocks,
                         junk);
  }

  method SplitSlice<S(!new)>(k: Kernels<S>, b: Batch, start: nat, extent: nat, budget: nat, maxWidth: nat,
                             maxBlocks: nat,
                             junk: (nat, nat) -> S) returns (packed: seq<Packed>)
    requires Laws(k) && Fits(b) && maxWidth > 0
    requires forall r :: 0 <= r < |b.widths| ==> k.blocks(b.widths[r]) <= maxBlocks
    ensures |packed| == extent && SlicePacked(k, b, start, packed, |packed|)
  {
    var rows := Rows(b);
    var end := if start + extent < rows then start + extent else rows;
    packed := seq(extent, _ => Packed(Unselected(k.K), seq(maxBlocks, _ => -1)));
    hide Laws, Fits, SomePacked;
    var step := RowsPerChunk(budget, maxWidth);
    hide RowsPerChunk;
    var c0 := start;
    while c0 < end
      invariant start <= c0 && (c0 <= end || end <= start) && |packed| == extent
      invariant SlicePacked(k, b, start, packed, c0 - start)
    {
      var c1 := if c0 + step < end then c0 + step else end;
      for c := c0 to c1
        invariant |packed| == extent && SlicePacked(k, b, start, packed, c - start)
      {
        var got := SplitRow(k, b, c, maxBlocks, junk);
        packed := packed[c - start := got];
      }
      c0 := c1;
    }
  }

  method SplitRow<S(!new)>(k: Kernels<S>, b: Batch, t: nat, maxBlocks: nat, junk: (nat, nat) -> S) returns (got: Packed)
    requires Laws(k) && Fits(b) && t < Rows(b)
    requires forall r :: 0 <= r < |b.widths| ==> k.blocks(b.widths[r]) <= maxBlocks
    ensures SomePacked(k, b, t, got)
  {
    var r := RequestAt(b, t);
    JunkIrrelevant(k, b, junk, r, t);
    var blocks := seq(maxBlocks, _ => -1);
    if b.role == Source && b.widths[r] > 0 {
      var ids := k.blockIds(SourceRow(k, b, junk, r, t), b.len(t));
      blocks := ids + blocks[|ids|..];
      assert blocks[..|ids|] == ids;
    }
    got := Packed(Pick(k, b, Masked(k, b, junk, r, t), b.len(t), b.starts[r]), blocks);
    assert PackedRight(k, b, r, t, got);
  }

  lemma OneRequest(b: Batch, r: nat, r': nat, t: nat)
    requires InRequest(b, r, t) && InRequest(b, r', t)
    ensures r == r'
  {
    if r < r' { StartMono(b.counts, r + 1, r'); }
    if r' < r { StartMono(b.counts, r' + 1, r); }
  }

  /**
   * _split_select: for any number of ranks and any budget, the gathered slices are the row-by-row
   * selection, and the masks rebuilt from the gathered block ids are the ones a source publishes.
   */
  method SplitSelect<S(!new)>(k: Kernels<S>, b: Batch, world: nat, budget: nat, maxWidth: nat, maxBlocks: nat,
                              junk: (nat, nat) -> S)
    returns (selected: seq<seq<int>>, masks: seq<seq<seq<bool>>>)
    requires Laws(k) && Fits(b) && world >= 1 && maxWidth > 0
    requires forall r :: 0 <= r < |b.widths| ==> k.blocks(b.widths[r]) <= maxBlocks
    ensures AllSelect(k, b, selected)
    ensures b.role == Source ==> |masks| == |b.widths| && forall r :: 0 <= r < |b.widths| ==>
              Publishes(k, b, r, masks[r])
  {
    selected, masks := SplitRequests(k, b, world, budget, maxWidth, maxBlocks, junk);
    AllRight(k, b, selected, masks);
  }

  method SplitRequests<S(!new)>(k: Kernels<S>, b: Batch, world: nat, budget: nat, maxWidth: nat, maxBlocks: nat,
                                junk: (nat, nat) -> S)
    returns (selected: seq<seq<int>>, masks: seq<seq<seq<bool>>>)
    requires Laws(k) && Fits(b) && world >= 1 && maxWidth > 0
    requires forall r :: 0 <= r < |b.widths| ==> k.blocks(b.widths[r]) <= maxBlocks
    ensures |selected| == Rows(b) && forall r :: 0 <= r < |b.widths| ==> RequestRight(k, b, r, selected)
    ensures b.role == Source ==> |masks| == |b.widths| && forall r :: 0 <= r < |b.widths| ==>
              masks[r] == RequestMask(k, b, r)
  {
    var gathered := GatherSlices(k, b, world, budget, maxWidth, maxBlocks, junk);
    selected := seq(|gathered|, t requires 0 <= t < |gathered| => gathered[t].ids);
    forall r | 0 <= r < |b.widths| ensures RequestRight(k, b, r, selected) {
      SelectedByRequest(k, b, gathered, selected, r);
    }
    masks := [];
    if b.role == Source {
      for r := 0 to |b.widths|
        invariant |masks| == r && forall q :: 0 <= q < r ==> masks[q] == RequestMask(k, b, q)
      {
        var mask := RebuildMask(k, b, gathered, r);
        masks := masks + [mask];
      }
    }
  }

  ghost predicate AllPacked<S>(k: Kernels<S>, b: Batch, gathered: seq<Packed>) {
    |gathered| == Rows(b) && forall t :: 0 <= t < |gathered| ==> SomePacked(k, b, t, gathered[t])
  }

  /** The all-gather of the ranks' packed slices, cut to the rows of the batch. */
  method GatherSlices<S(!new)>(k: Kernels<S>, b: Batch, world: nat, budget: nat, maxWidth: nat, maxBlocks: nat,
                               junk: (nat, nat) -> S) returns (gathered: seq<Packed>)
    requires Laws(k) && Fits(b) && world >= 1 && maxWidth > 0
    requires forall r :: 0 <= r < |b.widths| ==> k.blocks(b.widths[r]) <= maxBlocks
    ensures AllPacked(k, b, gathered)
  {
    var rows, extent := Rows(b), Extent(Rows(b), world);
    ExtentCovers(rows, world);
    hide Laws, Fits, SomePacked, Extent;
    gathered := [];
    for rank := 0 to world
      invariant |gathered| == rank * extent
      invariant forall t :: 0 <= t < |gathered| && t < rows ==> SomePacked(k, b, t, gathered[t])
    {
      var packed := SplitLocal(k, b, world, rank, budget, maxWidth, maxBlocks, junk);
      var before := gathered;
      gathered := before + packed;
      assert (rank + 1) * extent == rank * extent + extent;
      forall t | 0 <= t < |gathered| && t < rows ensures SomePacked(k, b, t, gathered[t]) {
        if t >= |before| { assert gathered[t] == packed[t - |before|]; } else { assert gathered[t] == before[t]; }
      }
    }
    gathered := gathered[..rows];
  }

  lemma SelectedByRequest<S>(k: Kernels<S>, b: Batch, gathered: seq<Packed>, selected: seq<seq<int>>, r: nat)
    requires Fits(b) && AllPacked(k, b, gathered) && r < |b.widths|
    requires |selected| == |gathered| && forall t :: 0 <= t < |gathered| ==> selected[t] == gathered[t].ids
    ensures RequestRight(k, b, r, selected)
  {
    hide RowSelected, SourceRow;
    StartMono(b.counts, r + 1, |b.counts|);
    forall t | Start(b.counts, r) <= t < Start(b.counts, r + 1) ensures RowRight(k, b, r, t, selected[t]) {
      var q :| PackedRight(k, b, q, t, gathered[t]);
      OneRequest(b, q, r, t);
    }
  }

  /** A source request's mask from the gathered block ids of its publishing rows. */
  method RebuildMask<S(!new)>(k: Kernels<S>, b: Batch, gathered: seq<Packed>, r: nat) returns (mask: seq<seq<bool>>)
    requires Laws(k) && Fits(b) && AllPacked(k, b, gathered) && r < |b.widths| && b.role == Source
    ensures mask == RequestMask(k, b, r)
  {
    if b.widths[r] == 0 || b.counts[r] == 0 { return []; }
    var pub := Published(b, r);
    PublishedRows(b, r);
    var first := Start(b.counts, r + 1) - pub;
    hide Laws, AllPacked, MaskRow, Fits, Start, Published;
    mask := RebuildRows(k, b, gathered, r, first, pub);
    MaskIs(k, b, r, mask);
  }

  /** The publishing rows are the last of the request's. */
  lemma PublishedRows(b: Batch, r: nat)
    requires r < |b.widths| == |b.counts| == |b.publish|
    ensures Start(b.counts, r) <= Start(b.counts, r + 1) - Published(b, r) <= Start(b.counts, r + 1) <= Rows(b)
  {
    StartMono(b.counts, r + 1, |b.counts|);
    assert Start(b.counts, r + 1) == Start(b.counts, r) + b.counts[r];
  }

  lemma MaskIs<S>(k: Kernels<S>, b: Batch, r: nat, mask: seq<seq<bool>>)
    requires Fits(b) && r < |b.widths| && b.widths[r] > 0 && b.counts[r] > 0 && |mask| == Published(b, r)
    requires Published(b, r) <= Start(b.counts, r + 1)
    requires forall j :: 0 <= j < |mask| ==>
               InRequest(b, r, Start(b.counts, r + 1) - Published(b, r) + j)
               && mask[j] == MaskRow(k, b, r, Start(b.counts, r + 1) - Published(b, r) + j)
    ensures mask == RequestMask(k, b, r)
  {
    hide MaskRow, Start, Published, Fits;
  }

  method RebuildRows<S(!new)>(k: Kernels<S>, b: Batch, gathered: seq<Packed>, r: nat, first: nat, pub: nat)
    returns (mask: seq<seq<bool>>)
    requires Laws(k) && Fits(b) && AllPacked(k, b, gathered) && r < |b.widths| && b.role == Source && b.widths[r] > 0
    requires Start(b.counts, r) <= first && first + pub <= Start(b.counts, r + 1) <= |gathered|
    ensures |mask| == pub
    ensures forall j :: 0 <= j < pub ==> InRequest(b, r, first + j) && mask[j] == MaskRow(k, b, r, first + j)
  {
    assert forall t :: first <= t < first + pub ==> InRequest(b, r, t);
    hide Laws, AllPacked, MaskRow, Fits, InRequest, Start;
    mask := [];
    for q := 0 to pub
      invariant |mask| == q && forall j :: 0 <= j < q ==> mask[j] == MaskRow(k, b, r, first + j)
    {
      assert InRequest(b, r, first + q);
      var row := RebuildRow(k, b, gathered, r, first + q);
      mask := mask + [row];
    }
  }

  method RebuildRow<S(!new)>(k: Kernels<S>, b: Batch, gathered: seq<Packed>, r: nat, t: nat) returns (row: seq<bool>)
    requires Laws(k) && Fits(b) && AllPacked(k, b, gathered) && InRequest(b, r, t) && t < |gathered|
    requires b.role == Source && b.widths[r] > 0
    ensures row == MaskRow(k, b, r, t)
  {
    ghost var q :| PackedRight(k, b, q, t, gathered[t]);
    OneRequest(b, q, r, t);
    var nblocks := k.blocks(b.widths[r]);
    row := k.maskOfIds(gathered[t].blocks[..nblocks], b.widths[r]);
  }
}
