/**
 * Prefill sequence parallelism (adapter/prefill_sp.py): the layer loop with the residual split by rows over
 * W ranks, and the unsharded loop it must reproduce. Attention, experts and the Engram lookup are per-rank
 * functions of all rows; the hyper-connection operations act on one row at a time but choose their kernel
 * by a row count; collectives are functions of what every rank passes in.
 */
module SpRows {

  /** A chunk of `rows` rows over `world` ranks. */
  datatype Plan = Plan(rows: nat, world: nat, exact: bool)

  predicate Eligible(p: Plan) { p.world > 1 && p.rows % p.world == 0 && p.rows >= p.world }

  function ShardRows(p: Plan): nat
    requires p.world > 0
  {
    p.rows / p.world
  }

  lemma Shards(p: Plan)
    requires Eligible(p)
    ensures ShardRows(p) >= 1 && p.world * ShardRows(p) == p.rows && ShardRows(p) < p.rows
  {
    assert p.rows == p.world * (p.rows / p.world) + p.rows % p.world;
    MulMono(2, p.world, p.rows / p.world);
  }

  lemma MulMono(a: nat, b: nat, s: nat)
    ensures a <= b ==> a * s <= b * s
    ensures 0 * s == 0 && 1 * s == s && 2 * s == s + s
  {
    if a <= b { assert (b - a) * s >= 0; }
  }

  function Lo(s: nat, r: nat): nat { r * s }

  lemma LoFits(world: nat, s: nat, r: nat)
    requires r < world
    ensures Lo(s, r) + s <= world * s
  {
    assert (world - r - 1) * s >= 0;
  }

  /** Rank r's rows of a full tensor. */
  function Slice<A>(s: nat, r: nat, xs: seq<A>): (ys: seq<A>)
    requires Lo(s, r) + s <= |xs|
    ensures |ys| == s
  {
    xs[Lo(s, r)..Lo(s, r) + s]
  }

  /** Every rank holds its own rows of `full`. */
  ghost predicate Sharded<A>(world: nat, s: nat, shards: seq<seq<A>>, full: seq<A>) {
    |shards| == world && |full| == world * s
    && forall r :: 0 <= r < world ==> Lo(s, r) + s <= |full| && shards[r] == Slice(s, r, full)
  }

  /** all_gather_into_tensor: row k comes from rank k / s. */
  method Gather<A>(world: nat, s: nat, shards: seq<seq<A>>, ghost full: seq<A>) returns (out: seq<A>)
    requires s >= 1 && Sharded(world, s, shards, full)
    ensures out == full
  {
    out := [];
    for r := 0 to world
      invariant out == full[..r * s] && r * s <= |full|
    {
      LoFits(world, s, r);
      assert full[..r * s] + full[r * s..r * s + s] == full[..r * s + s];
      assert (r + 1) * s == r * s + s;
      out := out + shards[r];
    }
    assert full[..world * s] == full;
  }

  /** The row of a full tensor a rank owns, and where. */
  lemma OwnerOf(world: nat, s: nat, k: nat)
    requires s >= 1 && k < world * s
    ensures k / s < world && k == Lo(s, k / s) + k % s && k % s < s
  {
    assert k == (k / s) * s + k % s;
    MulMono(world, k / s, s);
  }

  // ------------------------------------------------------------------------------------------
  // tail rows
  // ------------------------------------------------------------------------------------------

  datatype Tail = Contiguous(start: nat, pad: nat) | Indexed(idx: seq<nat>, pad: nat)

  predicate TailFits(t: Tail, rows: nat) {
    match t
    case Contiguous(start, _) => start <= rows
    case Indexed(idx, _) => forall k :: 0 <= k < |idx| ==> idx[k] < rows
  }

  /** The token indices of the tail's real rows. */
  function TailIdx(t: Tail, rows: nat): (idx: seq<nat>)
    requires TailFits(t, rows)
    ensures forall k :: 0 <= k < |idx| ==> idx[k] < rows
  {
    match t
    case Contiguous(start, _) => seq(rows - start, k requires 0 <= k => start + k)
    case Indexed(idx, _) => idx
  }

  /** tail.rows of a full tensor: the tail's rows, padded with zero rows. */
  function TailRows<A>(t: Tail, zero: A, xs: seq<A>): (ys: seq<A>)
    requires TailFits(t, |xs|)
  {
    var idx := TailIdx(t, |xs|);
    seq(|idx|, k requires 0 <= k < |idx| => xs[idx[k]]) + seq(t.pad, _ => zero)
  }

  /** The rows from a start on, or the indexed ones, and then zero rows. */
  ghost predicate TailOf<A>(t: Tail, zero: A, xs: seq<A>, ys: seq<A>) {
    match t
    case Contiguous(start, pad) =>
      && start <= |xs| && |ys| == |xs| - start + pad
      && (forall k :: 0 <= k < |xs| - start ==> ys[k] == xs[start + k])
      && forall k :: |xs| - start <= k < |ys| ==> ys[k] == zero
    case Indexed(idx, pad) =>
      && |ys| == |idx| + pad
      && (forall k :: 0 <= k < |idx| ==> idx[k] < |xs| && ys[k] == xs[idx[k]])
      && forall k :: |idx| <= k < |ys| ==> ys[k] == zero
  }

  predicate FullPlan(rows: nat, world: nat, tailLen: nat) { world * tailLen >= rows }

  function Clamp(x: int, hi: nat): nat { if x < 0 then 0 else if x > hi then hi else x }

  /**
   * _tail_rows on every rank's shard: gathering everything, or only the rows each rank owns, gives exactly
   * tail.rows of the unsharded tensor.
   */
  method GatherTail<A(0)>(world: nat, s: nat, t: Tail, zero: A, shards: seq<seq<A>>, ghost full: seq<A>)
    returns (out: seq<A>)
    requires s >= 1 && Sharded(world, s, shards, full) && TailFits(t, |full|)
    ensures out == TailRows(t, zero, full) && TailOf(t, zero, full, out)
  {
    var rows := world * s;
    var idx := TailIdx(t, rows);
    var n := |idx|;
    var kept: seq<A>;
    if FullPlan(rows, world, n) || n == 0 {
      var all := Gather(world, s, shards, full);
      kept := if t.Contiguous? then all[t.start..] else seq(n, k requires 0 <= k < n => all[idx[k]]);
    } else {
      kept := GatherOwners(world, s, idx, shards, full);
    }
    assert kept == seq(n, k requires 0 <= k < n => full[idx[k]]);
    out := kept + seq(t.pad, _ => zero);
  }

  /** The owners plan: every rank offers its guess for each tail row, and the owner's one is kept. */
  method GatherOwners<A>(world: nat, s: nat, idx: seq<nat>, shards: seq<seq<A>>, ghost full: seq<A>)
    returns (out: seq<A>)
    requires s >= 1 && Sharded(world, s, shards, full)
    requires forall k :: 0 <= k < |idx| ==> idx[k] < |full|
    ensures |out| == |idx| && forall k :: 0 <= k < |idx| ==> out[k] == full[idx[k]]
  {
    var buf: seq<seq<A>> := [];
    for r := 0 to world
      invariant |buf| == r
      invariant forall q :: 0 <= q < r ==> |buf[q]| == |idx|
      invariant forall q, k :: 0 <= q < r && 0 <= k < |idx| ==>
                buf[q][k] == shards[q][Clamp(idx[k] - idx[k] / s * s, s - 1)]
    {
      var mine := seq(|idx|, k requires 0 <= k < |idx| => shards[r][Clamp(idx[k] - idx[k] / s * s, s - 1)]);
      buf := buf + [mine];
    }
    out := [];
    for k := 0 to |idx|
      invariant |out| == k && forall j :: 0 <= j < k ==> out[j] == full[idx[j]]
    {
      OwnerOf(world, s, idx[k]);
      var owner := idx[k] / s;
      assert Lo(s, owner) == owner * s;
      assert Clamp(idx[k] - owner * s, s - 1) == idx[k] % s;
      assert shards[owner] == Slice(s, owner, full);
      out := out + [buf[owner][k]];
    }
  }
}

/** Kernel choices keyed on a row count, on the full chunk and on a shard of it. */
module SpGates {
  import opened SpRows

  /** What the gates read besides the row count. */
  datatype Platform = Platform(
    fusable: bool,      // every row-independent condition of the fused combine
    v41: bool,
    splittable: bool,   // every row-independent condition of split-h (Blackwell included)
    sm90: bool, flashinfer: bool, tilelang: bool,
    mixable: bool,      // every row-independent condition of the one-walk mix statistics
    mixMin: nat)        // and its least row count

  datatype CombineKernel = Small | Prefill | Plain

  datatype PostKernel = SplitH | FlashInfer | Mhc | Other | Refused

  predicate Fused(c: Platform, m: nat) { c.fusable && (0 < m <= 8 || (c.v41 && 4096 <= m <= 65536)) }

  /** The engine's own choice at m rows. */
  function EngineCombine(c: Platform, m: nat): CombineKernel {
    if !Fused(c, m) then Plain else if m <= 8 then Small else Prefill
  }

  /** _sp_combine on a shard of a chunk of `rows` rows. */
  function SpCombine(c: Platform, rows: nat, shard: nat): CombineKernel {
    if Fused(c, rows) == Fused(c, shard) then EngineCombine(c, shard)
    else if Fused(c, rows) then Prefill
    else Plain
  }

  /** The shard runs the chunk's kernel unless both are fused by different kernels: a tiny shard of a long chunk. */
  predicate CombineSafe(c: Platform, rows: nat, shard: nat) {
    !(c.fusable && c.v41 && shard <= 8 && 4096 <= rows <= 65536)
  }

  lemma CombineExactly(c: Platform, rows: nat, shard: nat)
    requires 1 <= shard < rows
    ensures SpCombine(c, rows, shard) == EngineCombine(c, rows) <==> CombineSafe(c, rows, shard)
  {}

  predicate Split(c: Platform, m: nat) { c.splittable && m <= 384 }

  /** The rest of the CUDA chain, once split-h is out. */
  function PostChain(c: Platform, m: nat): PostKernel {
    if c.flashinfer then FlashInfer
    else if c.tilelang then (if c.sm90 && 1 <= m <= 64 then SplitH else Mhc)
    else Other
  }

  function EnginePost(c: Platform, m: nat): PostKernel { if Split(c, m) then SplitH else PostChain(c, m) }

  /** _sp_post: the engine's own call when the gate agrees, else the chain at the chunk's row count. */
  function SpPost(c: Platform, rows: nat, shard: nat): PostKernel {
    if Split(c, rows) == Split(c, shard) then EnginePost(c, shard)
    else if Split(c, rows) then SplitH
    else if PostChain(c, rows) == Other then Refused else PostChain(c, rows)
  }

  /**
   * The shard runs the chunk's kernel unless the engine's own call reads the shard's row count in the
   * tile-lang branch, or a shard under 384 rows of a longer chunk has no wired chain to fall back to.
   */
  predicate PostSafe(c: Platform, rows: nat, shard: nat) {
    && !(!Split(c, rows) && !Split(c, shard) && !c.flashinfer && c.tilelang && c.sm90 && shard <= 64 < rows)
    && !(c.splittable && shard <= 384 < rows && !c.flashinfer && !c.tilelang)
  }

  lemma PostExactly(c: Platform, rows: nat, shard: nat)
    requires 1 <= shard < rows
    ensures SpPost(c, rows, shard) == EnginePost(c, rows) <==> PostSafe(c, rows, shard)
  {}

  // --- the mix statistics, whose gate asks for the logical row count

  datatype MixKernel = FullK | SplitK

  function EngineMix(c: Platform, m: nat): MixKernel { if c.mixable && m >= c.mixMin then FullK else SplitK }

  /** sp_logical_rows for n rows: the chunk's count for a shard of it inside the region, the tensor's own elsewhere. */
  function LogicalRows(p: Plan, planned: bool, inner: bool, sharded: bool, n: nat): nat
    requires p.world > 0
  {
    if !planned || inner || !sharded then n else if n == ShardRows(p) then p.rows else n
  }

  /** The kernel a rank runs the mix statistics of n rows with. */
  function SpMix(c: Platform, p: Plan, inner: bool, n: nat): MixKernel
    requires p.world > 0
  {
    EngineMix(c, LogicalRows(p, true, inner, true, n))
  }

  /** Asking for the logical rows makes the shard run the chunk's kernel and a gathered tensor its own; keyed on the
      shard's own rows the choice would be another one exactly when the least count falls between the two. */
  lemma MixExactly(c: Platform, p: Plan)
    requires Eligible(p)
    ensures SpMix(c, p, false, ShardRows(p)) == EngineMix(c, p.rows)
    ensures SpMix(c, p, true, p.rows) == SpMix(c, p, false, p.rows) == EngineMix(c, p.rows)
    ensures EngineMix(c, ShardRows(p)) != EngineMix(c, p.rows) <==> c.mixable && ShardRows(p) < c.mixMin <= p.rows
  {
    Shards(p);
    hide ShardRows;
  }

  /** With the shipped minimum of 2048 rows and at most 31 ranks every gate is safe where a chain is wired. */
  lemma DefaultsSafe(c: Platform, rows: nat, world: nat)
    requires rows >= 2048 && 1 < world <= 31 && rows % world == 0
    requires c.flashinfer || c.tilelang || !c.splittable
    ensures CombineSafe(c, rows, rows / world) && PostSafe(c, rows, rows / world)
  {
    assert rows == world * (rows / world);
    if rows / world <= 64 { assert world * (rows / world) <= 31 * 64 by { Product(world, rows / world); } }
  }

  lemma Product(a: nat, b: nat)
    requires a <= 31 && b <= 64
    ensures a * b <= 31 * 64
  {
    assert a * b <= 31 * b;
  }
}

/** The layer loop, unsharded and on W ranks. */
module SpLoop {
  import opened SpRows
  import opened SpGates

  /** The engine and the collectives as functions of whole tensors; A is one row of any of them, K a rank's KV state. */
  datatype Engine<!A, !K> = Engine(
    combine: (CombineKernel, nat, nat, A, A) -> A,
    attend: (bool, nat, nat, seq<A>, K) -> seq<A>,
    attendKv: (bool, nat, nat, seq<A>, K) -> K,
    experts: (bool, nat, nat, seq<A>) -> seq<A>,
    post: (PostKernel, MixKernel, nat, nat, A, A) -> A,
    postPre: (PostKernel, MixKernel, nat, nat, A, A) -> A,
    lookupShared: nat -> bool,
    lookup: (nat, nat, seq<nat>) -> seq<A>,
    wkv: (nat, seq<A>) -> seq<A>,
    gate: (nat, A, A) -> A,
    writeSourceKv: (nat, nat, seq<A>, seq<A>, K) -> K,
    allReduce: seq<seq<A>> -> seq<A>,
    reduceScatter: (seq<seq<A>>, nat) -> seq<A>,
    zero: A, noPre: A)

  datatype Layer = Layer(engram: bool, capture: bool)

  /** What a forward is given besides the rows. */
  datatype Config = Config(
    platform: Platform, layers: seq<Layer>, late: nat, tail: Tail, hasTail: bool, writesSourceKv: bool,
    vision: bool, image: nat, ids: seq<nat>, hash: nat -> seq<nat>, shardWkv: bool)

  /** Shapes: functions of n rows return n rows, and the collectives keep the row count. */
  ghost predicate Shaped<A(!new), K(!new)>(e: Engine<A, K>, world: nat, s: nat) {
    && (forall t: bool, r: nat, i: nat, x: seq<A>, kv: K :: |e.attend(t, r, i, x, kv)| == |x|)
    && (forall t: bool, r: nat, i: nat, x: seq<A> :: |e.experts(t, r, i, x)| == |x|)
    && (forall r: nat, i: nat, ids: seq<nat> :: |e.lookup(r, i, ids)| == |ids|)
    && (forall i: nat, x: seq<A> :: |e.wkv(i, x)| == |x|)
    && (forall parts: seq<seq<A>> :: |parts| > 0 ==> |e.allReduce(parts)| == |parts[0]|)
    && (forall parts: seq<seq<A>>, r: nat :: r < world && |parts| == world && |parts[0]| == world * s ==>
          |e.reduceScatter(parts, r)| == s)
  }

  // ------------------------------------------------------------------------------------------
  // row-local operations
  // ------------------------------------------------------------------------------------------

  function Zip<A>(f: (A, A) -> A, xs: seq<A>, ys: seq<A>): (zs: seq<A>)
    requires |xs| == |ys|
    ensures |zs| == |xs|
  {
    seq(|xs|, k requires 0 <= k < |xs| => f(xs[k], ys[k]))
  }

  lemma ZipSlice<A>(f: (A, A) -> A, s: nat, r: nat, xs: seq<A>, ys: seq<A>)
    requires |xs| == |ys| && Lo(s, r) + s <= |xs|
    ensures Zip(f, Slice(s, r, xs), Slice(s, r, ys)) == Slice(s, r, Zip(f, xs, ys))
  {
    hide Lo;
  }

  /** A row-local operation on every rank's shard is the same operation on all rows. */
  method ZipShards<A>(f: (A, A) -> A, world: nat, s: nat, xs: seq<seq<A>>, ys: seq<seq<A>>,
                      ghost fullX: seq<A>, ghost fullY: seq<A>) returns (zs: seq<seq<A>>)
    requires Sharded(world, s, xs, fullX) && Sharded(world, s, ys, fullY)
    ensures Sharded(world, s, zs, Zip(f, fullX, fullY))
  {
    zs := [];
    for r := 0 to world
      invariant |zs| == r
      invariant forall q :: 0 <= q < r ==> Lo(s, q) + s <= |fullX| && zs[q] == Slice(s, q, Zip(f, fullX, fullY))
    {
      LoFits(world, s, r);
      ZipSlice(f, s, r, fullX, fullY);
      assert xs[r] == Slice(s, r, fullX) && ys[r] == Slice(s, r, fullY);
      zs := zs + [Zip(f, xs[r], ys[r])];
    }
  }

  // ------------------------------------------------------------------------------------------
  // reduction sites
  // ------------------------------------------------------------------------------------------

  /** All rows of a reduction site: the all-reduce, or the reduce-scattered shards put together. */
  ghost function Reduced<A, K>(e: Engine<A, K>, world: nat, exact: bool, parts: seq<seq<A>>): seq<A> {
    if exact then e.allReduce(parts) else Joined(e, world, parts)
  }

  ghost function Joined<A, K>(e: Engine<A, K>, n: nat, parts: seq<seq<A>>): seq<A> {
    if n == 0 then [] else Joined(e, n - 1, parts) + e.reduceScatter(parts, n - 1)
  }

  lemma {:induction false} JoinedSlices<A(!new), K(!new)>(e: Engine<A, K>, world: nat, s: nat, parts: seq<seq<A>>,
                                                          n: nat)
    requires Shaped(e, world, s) && n <= world == |parts| && world > 0 && |parts[0]| == world * s
    ensures |Joined(e, n, parts)| == n * s
    ensures forall r :: 0 <= r < n ==>
              Lo(s, r) + s <= n * s && Slice(s, r, Joined(e, n, parts)) == e.reduceScatter(parts, r)
  {
    if n > 0 {
      JoinedSlices(e, world, s, parts, n - 1);
      var head, all := Joined(e, n - 1, parts), Joined(e, n, parts);
      assert |e.reduceScatter(parts, n - 1)| == s;
      assert n * s == (n - 1) * s + s;
      forall r | 0 <= r < n ensures Lo(s, r) + s <= n * s && Slice(s, r, all) == e.reduceScatter(parts, r) {
        LoFits(n, s, r);
        if r < n - 1 {
          LoFits(n - 1, s, r);
          assert Slice(s, r, all) == Slice(s, r, head);
        }
      }
    }
  }

  /** _reduce_rows on every rank: each gets its own rows of the site. */
  method ReduceRows<A(!new), K(!new)>(e: Engine<A, K>, world: nat, s: nat, exact: bool, parts: seq<seq<A>>)
    returns (shards: seq<seq<A>>)
    requires Shaped(e, world, s) && |parts| == world > 0 && |parts[0]| == world * s
    ensures Sharded(world, s, shards, Reduced(e, world, exact, parts))
    ensures exact ==> Sharded(world, s, shards, e.allReduce(parts))
    ensures !exact ==> forall r :: 0 <= r < world ==> shards[r] == e.reduceScatter(parts, r)
  {
    JoinedSlices(e, world, s, parts, world);
    hide Joined;
    shards := [];
    for r := 0 to world
      invariant |shards| == r
      invariant forall q :: 0 <= q < r ==>
                Lo(s, q) + s <= world * s && shards[q] == Slice(s, q, Reduced(e, world, exact, parts))
      invariant !exact ==> forall q :: 0 <= q < r ==> shards[q] == e.reduceScatter(parts, q)
    {
      LoFits(world, s, r);
      if exact {
        var full := e.allReduce(parts);
        shards := shards + [full[Lo(s, r)..Lo(s, r) + s]];
      } else {
        shards := shards + [e.reduceScatter(parts, r)];
      }
    }
  }

  // ------------------------------------------------------------------------------------------
  // the unsharded loop
  // ------------------------------------------------------------------------------------------

  datatype State<!A, !K> = State(R: seq<A>, pre: seq<A>, kv: seq<K>, aux: seq<seq<A>>)

  function CombineFn<A, K>(e: Engine<A, K>, k: CombineKernel, i: nat, sub: nat): (A, A) -> A {
    (r: A, p: A) => e.combine(k, i, sub, r, p)
  }

  function PostFn<A, K>(e: Engine<A, K>, k: PostKernel, mix: MixKernel, i: nat, sub: nat): (A, A) -> A {
    (r: A, y: A) => e.post(k, mix, i, sub, r, y)
  }

  function PostPreFn<A, K>(e: Engine<A, K>, k: PostKernel, mix: MixKernel, i: nat, sub: nat): (A, A) -> A {
    (r: A, y: A) => e.postPre(k, mix, i, sub, r, y)
  }

  function GateFn<A, K>(e: Engine<A, K>, i: nat): (A, A) -> A { (r: A, v: A) => e.gate(i, r, v) }

  function AttendParts<A, K>(e: Engine<A, K>, tail: bool, i: nat, x: seq<A>, kv: seq<K>): (parts: seq<seq<A>>)
    ensures |parts| == |kv|
  {
    seq(|kv|, r requires 0 <= r < |kv| => e.attend(tail, r, i, x, kv[r]))
  }

  function AttendKv<A, K>(e: Engine<A, K>, tail: bool, i: nat, x: seq<A>, kv: seq<K>): (out: seq<K>)
    ensures |out| == |kv|
  {
    seq(|kv|, r requires 0 <= r < |kv| => e.attendKv(tail, r, i, x, kv[r]))
  }

  function ExpertParts<A, K>(e: Engine<A, K>, tail: bool, i: nat, x: seq<A>, world: nat): (parts: seq<seq<A>>)
    ensures |parts| == world
  {
    seq(world, r requires 0 <= r < world => e.experts(tail, r, i, x))
  }

  function LookupParts<A, K>(e: Engine<A, K>, i: nat, ids: seq<nat>, world: nat): (parts: seq<seq<A>>)
    ensures |parts| == world
  {
    seq(world, r requires 0 <= r < world => e.lookup(r, i, ids))
  }

  /** The Engram rows of a layer: a host-shared table answers alone, a split one through a reduction. */
  ghost function Embedded<A, K>(e: Engine<A, K>, world: nat, exact: bool, i: nat, ids: seq<nat>): seq<A> {
    if e.lookupShared(i) then e.lookup(0, i, ids) else Reduced(e, world, exact, LookupParts(e, i, ids, world))
  }

  /** Image rows keep the residual they had. */
  function KeepImages<A>(on: bool, image: nat, ids: seq<nat>, before: seq<A>, after: seq<A>): (out: seq<A>)
    requires |ids| == |before| == |after|
    ensures |out| == |before|
  {
    seq(|before|, k requires 0 <= k < |before| => if on && ids[k] == image then before[k] else after[k])
  }

  ghost function EngramRows<A, K>(e: Engine<A, K>, c: Config, world: nat, exact: bool, i: nat, ids: seq<nat>,
                                  hash: seq<nat>,
                                  R: seq<A>): seq<A>
  {
    Gated(e, c, i, ids, e.wkv(i, Embedded(e, world, exact, i, hash)), R)
  }

  function Gated<A, K>(e: Engine<A, K>, c: Config, i: nat, ids: seq<nat>, kv: seq<A>, R: seq<A>): seq<A> {
    if |kv| == |R| == |ids| then KeepImages(c.vision, c.image, ids, R, Zip(GateFn(e, i), R, kv)) else R
  }

  /** One sublayer's output rows, and the hyper-connection update they feed. */
  function Sublayer<A, K>(e: Engine<A, K>, p: Platform, i: nat, sub: nat, R: seq<A>, y: seq<A>): (seq<A>, seq<A>) {
    var k, mix := EnginePost(p, |R|), EngineMix(p, |R|);
    if |R| == |y| then (Zip(PostFn(e, k, mix, i, sub), R, y), Zip(PostPreFn(e, k, mix, i, sub), R, y)) else (R, R)
  }

  function Input<A, K>(e: Engine<A, K>, p: Platform, i: nat, sub: nat, R: seq<A>, pre: seq<A>): seq<A> {
    if |R| == |pre| then Zip(CombineFn(e, EngineCombine(p, |R|), i, sub), R, pre) else R
  }

  /** One layer on all rows. */
  ghost function LayerStep<A, K>(e: Engine<A, K>, c: Config, world: nat, exact: bool, tail: bool, i: nat,
                                 ids: seq<nat>, hash: seq<nat>, st: State<A, K>): State<A, K>
    requires i < |c.layers|
  {
    var R0 := if c.layers[i].engram then EngramRows(e, c, world, exact, i, ids, hash, st.R) else st.R;
    var x := Input(e, c.platform, i, 0, R0, st.pre);
    var (R1, pre1) := Sublayer(e, c.platform, i, 0, R0, Reduced(e, world, exact, AttendParts(e, tail, i, x, st.kv)));
    var x2 := Input(e, c.platform, i, 1, R1, pre1);
    var (R2, pre2) := Sublayer(e, c.platform, i, 1, R1, Reduced(e, world, exact, ExpertParts(e, tail, i, x2, world)));
    var aux := if !c.layers[i].capture then st.aux
               else st.aux + [if !tail && c.hasTail && TailFits(c.tail, |R0|)
                              then TailRows(c.tail, e.zero, R0) else R0];
    State(R2, pre2, AttendKv(e, tail, i, x, st.kv), aux)
  }

  ghost function Start<A, K>(e: Engine<A, K>, R: seq<A>, kv: seq<K>): State<A, K> {
    State(R, seq(|R|, _ => e.noPre), kv, [])
  }

  /** The first n layers on all rows. */
  ghost function Region<A, K>(e: Engine<A, K>, c: Config, world: nat, exact: bool, R: seq<A>, kv: seq<K>,
                              n: nat): State<A, K>
    requires n <= |c.layers|
  {
    if n == 0 then Start(e, R, kv)
    else LayerStep(e, c, world, exact, false, n - 1, c.ids, c.hash(n - 1), Region(e, c, world, exact, R, kv, n - 1))
  }

  /** Entering the tail: the last source layer's KV write on all rows, then the tail's rows of everything. */
  ghost function EnterTail<A, K>(e: Engine<A, K>, c: Config, st: State<A, K>): State<A, K>
    requires TailFits(c.tail, |st.R|) && |st.R| == |st.pre|
  {
    var kv := if c.writesSourceKv
              then seq(|st.kv|, r requires 0 <= r < |st.kv| => e.writeSourceKv(r, c.late, st.R, st.pre, st.kv[r]))
              else st.kv;
    State(TailRows(c.tail, e.zero, st.R), TailRows(c.tail, e.zero, st.pre), kv, st.aux)
  }

  /** Layers late .. n - 1 on the tail's rows, on the stock path. */
  ghost function Late<A, K>(e: Engine<A, K>, c: Config, world: nat, st: State<A, K>, n: nat): State<A, K>
    requires c.late <= n <= |c.layers| && TailFits(c.tail, |c.ids|)
    requires forall i :: 0 <= i < |c.layers| ==> TailFits(c.tail, |c.hash(i)|)
    decreases n
  {
    if n == c.late then st
    else LayerStep(e, c, world, true, true, n - 1, TailRows(c.tail, 0, c.ids), TailRows(c.tail, 0, c.hash(n - 1)),
                   Late(e, c, world, st, n - 1))
  }

  /** The whole unsharded forward. */
  ghost function Forward<A, K>(e: Engine<A, K>, c: Config, world: nat, exact: bool, R: seq<A>, kv: seq<K>): State<A, K>
    requires c.late <= |c.layers| && TailFits(c.tail, |c.ids|) && |c.ids| == |R|
    requires forall i :: 0 <= i < |c.layers| ==> |c.hash(i)| == |c.ids|
  {
    if !c.hasTail || c.late == |c.layers| then Region(e, c, world, exact, R, kv, |c.layers|)
    else
      var st := Region(e, c, world, exact, R, kv, c.late);
      if |st.R| == |st.pre| == |R| then Late(e, c, world, EnterTail(e, c, st), |c.layers|) else st
  }

  // ------------------------------------------------------------------------------------------
  // the same, row by row
  // ------------------------------------------------------------------------------------------

  /** What the ranks hand to a site, and what comes back on all rows. */
  ghost predicate SiteIs<A(!new), K(!new)>(e: Engine<A, K>, world: nat, exact: bool, parts: seq<seq<A>>, y: seq<A>) {
    if exact then y == e.allReduce(parts)
    else
      forall s: nat, r: nat :: r < world && world * s == |y| ==>
        Lo(s, r) + s <= |y| && y[Lo(s, r)..Lo(s, r) + s] == e.reduceScatter(parts, r)
  }

  /** An Engram layer's rows: an image token keeps its residual, every other row is gated with the product of its looked
      up row. */
  ghost predicate EngramIs<A(!new), K(!new)>(e: Engine<A, K>, c: Config, world: nat, exact: bool, i: nat, ids: seq<nat>,
                                             hash: seq<nat>, R: seq<A>, R0: seq<A>)
  {
    exists emb: seq<A> :: EmbeddedIs(e, world, exact, i, hash, emb) && GatedIs(e, c, i, ids, R, emb, R0)
  }

  ghost predicate EmbeddedIs<A(!new), K(!new)>(e: Engine<A, K>, world: nat, exact: bool, i: nat, hash: seq<nat>,
                                               emb: seq<A>)
  {
    if e.lookupShared(i) then emb == e.lookup(0, i, hash)
    else SiteIs(e, world, exact, seq(world, r requires 0 <= r < world => e.lookup(r, i, hash)), emb)
  }

  ghost predicate GatedIs<A, K>(e: Engine<A, K>, c: Config, i: nat, ids: seq<nat>, R: seq<A>, emb: seq<A>, R0: seq<A>) {
    && |R0| == |R| == |ids| == |e.wkv(i, emb)|
    && forall k :: 0 <= k < |R| ==>
         R0[k] == if c.vision && ids[k] == c.image then R[k] else e.gate(i, R[k], e.wkv(i, emb)[k])
  }

  /** A sublayer: its input row by row, what the ranks make of it, and the update row by row. */
  ghost predicate SublayerIs<A(!new), K(!new)>(e: Engine<A, K>, p: Platform, world: nat, exact: bool, i: nat, sub: nat,
                                               R: seq<A>, pre: seq<A>, x: seq<A>, parts: seq<seq<A>>, R': seq<A>,
                                               pre': seq<A>)
  {
    var n := |R|;
    && |pre| == |x| == |R'| == |pre'| == n
    && (forall k :: 0 <= k < n ==> x[k] == e.combine(EngineCombine(p, n), i, sub, R[k], pre[k]))
    && exists y: seq<A> :: SiteIs(e, world, exact, parts, y) && |y| == n
         && (forall k :: 0 <= k < n ==> R'[k] == e.post(EnginePost(p, n), EngineMix(p, n), i, sub, R[k], y[k]))
         && forall k :: 0 <= k < n ==> pre'[k] == e.postPre(EnginePost(p, n), EngineMix(p, n), i, sub, R[k], y[k])
  }

  /** A layer's rows on the way: after the Engram, into attention, what each rank's heads give, between the sublayers,
      into the experts, and what each rank's experts give. */
  datatype Mid<!A> = Mid(R0: seq<A>, x: seq<A>, heads: seq<seq<A>>, R1: seq<A>, pre1: seq<A>, x2: seq<A>,
                         experts: seq<seq<A>>)

  /** One layer from a state to the next. */
  ghost predicate LayerIs<A(!new), K(!new)>(e: Engine<A, K>, c: Config, world: nat, exact: bool, tail: bool, i: nat,
                                            ids: seq<nat>, hash: seq<nat>, st: State<A, K>, out: State<A, K>)
    requires i < |c.layers|
  {
    exists m: Mid<A> :: Through(e, c, world, exact, tail, i, ids, hash, st, out, m)
  }

  ghost predicate Through<A(!new), K(!new)>(e: Engine<A, K>, c: Config, world: nat, exact: bool, tail: bool, i: nat,
                                            ids: seq<nat>, hash: seq<nat>, st: State<A, K>, out: State<A, K>, m: Mid<A>)
    requires i < |c.layers|
  {
    && (if c.layers[i].engram then EngramIs(e, c, world, exact, i, ids, hash, st.R, m.R0) else m.R0 == st.R)
    && |st.kv| == |out.kv| == |m.heads| == |m.experts| == world
    && (forall r :: 0 <= r < world ==> m.heads[r] == e.attend(tail, r, i, m.x, st.kv[r]))
    && SublayerIs(e, c.platform, world, exact, i, 0, m.R0, st.pre, m.x, m.heads, m.R1, m.pre1)
    && (forall r :: 0 <= r < world ==> m.experts[r] == e.experts(tail, r, i, m.x2))
    && SublayerIs(e, c.platform, world, exact, i, 1, m.R1, m.pre1, m.x2, m.experts, out.R, out.pre)
    && (forall r :: 0 <= r < world ==> out.kv[r] == e.attendKv(tail, r, i, m.x, st.kv[r]))
    && CapturedIs(e, c, tail, i, m.R0, st.aux, out.aux)
  }

  /** A captured layer adds its rows: before the tail, those of the tail only. */
  ghost predicate CapturedIs<A, K>(e: Engine<A, K>, c: Config, tail: bool, i: nat, R0: seq<A>, aux: seq<seq<A>>,
                                   aux': seq<seq<A>>)
    requires i < |c.layers|
  {
    if !c.layers[i].capture then aux' == aux
    else
      && |aux'| == |aux| + 1 && aux'[..|aux|] == aux
      && (!tail && c.hasTail ==> TailOf(c.tail, e.zero, R0, aux'[|aux|]))
      && (tail || !c.hasTail ==> aux'[|aux|] == R0)
  }

  lemma ReducedIs<A(!new), K(!new)>(e: Engine<A, K>, world: nat, s: nat, exact: bool, parts: seq<seq<A>>)
    requires Shaped(e, world, s) && |parts| == world > 0 && (exact || |parts[0]| == world * s)
    ensures SiteIs(e, world, exact, parts, Reduced(e, world, exact, parts))
    ensures |Reduced(e, world, exact, parts)| == |parts[0]|
  {
    if !exact {
      JoinedSlices(e, world, s, parts, world);
      hide Joined, Shaped;
      var y := Reduced(e, world, exact, parts);
      forall s': nat, r: nat | r < world && world * s' == |y|
        ensures Lo(s', r) + s' <= |y| && y[Lo(s', r)..Lo(s', r) + s'] == e.reduceScatter(parts, r)
      {
        SameFactor(world, s, s');
        assert Slice(s, r, y) == e.reduceScatter(parts, r);
      }
    }
  }

  lemma SameFactor(world: nat, a: nat, b: nat)
    requires world > 0 && world * a == world * b
    ensures a == b
  {
    MulMono(a + 1, b, world);
    MulMono(b + 1, a, world);
  }

  /** The shapes of one layer's arguments. */
  ghost predicate Fed<A, K>(world: nat, s: nat, exact: bool, ids: seq<nat>, hash: seq<nat>, st: State<A, K>) {
    |st.R| == |st.pre| == |ids| == |hash| && |st.kv| == world > 0 && (exact || |st.R| == world * s)
  }

  lemma EngramRowsAre<A(!new), K(!new)>(e: Engine<A, K>, c: Config, world: nat, s: nat, exact: bool, i: nat,
                                        ids: seq<nat>, hash: seq<nat>, R: seq<A>)
    requires Shaped(e, world, s) && |R| == |ids| == |hash| && world > 0 && (exact || |R| == world * s)
    ensures EngramIs(e, c, world, exact, i, ids, hash, R, EngramRows(e, c, world, exact, i, ids, hash, R))
  {
    var parts := LookupParts(e, i, hash, world);
    assert parts == seq(world, r requires 0 <= r < world => e.lookup(r, i, hash));
    if !e.lookupShared(i) { ReducedIs(e, world, s, exact, parts); }
    hide SiteIs, Reduced;
    var emb := Embedded(e, world, exact, i, hash);
    assert |e.wkv(i, emb)| == |emb| == |R|;
    assert EmbeddedIs(e, world, exact, i, hash, emb);
    hide EmbeddedIs, Embedded;
    assert GatedIs(e, c, i, ids, R, emb, EngramRows(e, c, world, exact, i, ids, hash, R));
  }

  lemma SublayerRows<A(!new), K(!new)>(e: Engine<A, K>, p: Platform, world: nat, s: nat, exact: bool, i: nat, sub: nat,
                                       R: seq<A>, pre: seq<A>, parts: seq<seq<A>>)
    requires Shaped(e, world, s) && |R| == |pre| && |parts| == world > 0 && |parts[0]| == |R|
    requires exact || |R| == world * s
    ensures var y := Reduced(e, world, exact, parts);
            SublayerIs(e, p, world, exact, i, sub, R, pre, Input(e, p, i, sub, R, pre), parts,
                       Sublayer(e, p, i, sub, R, y).0, Sublayer(e, p, i, sub, R, y).1)
  {
    ReducedIs(e, world, s, exact, parts);
    hide SiteIs, Reduced, Shaped, EngineCombine, EnginePost, EngineMix;
  }

  /** The rows on the way through LayerStep. */
  ghost function MidOf<A, K>(e: Engine<A, K>, c: Config, world: nat, exact: bool, tail: bool, i: nat, ids: seq<nat>,
                             hash: seq<nat>, st: State<A, K>): Mid<A>
    requires i < |c.layers|
  {
    var R0 := if c.layers[i].engram then EngramRows(e, c, world, exact, i, ids, hash, st.R) else st.R;
    var x := Input(e, c.platform, i, 0, R0, st.pre);
    var heads := AttendParts(e, tail, i, x, st.kv);
    var (R1, pre1) := Sublayer(e, c.platform, i, 0, R0, Reduced(e, world, exact, heads));
    var x2 := Input(e, c.platform, i, 1, R1, pre1);
    Mid(R0, x, heads, R1, pre1, x2, ExpertParts(e, tail, i, x2, world))
  }

  lemma StepMid<A(!new), K(!new)>(e: Engine<A, K>, c: Config, world: nat, exact: bool, tail: bool, i: nat,
                                  ids: seq<nat>, hash: seq<nat>, st: State<A, K>)
    requires i < |c.layers| && |st.kv| == world
    ensures var m, out := MidOf(e, c, world, exact, tail, i, ids, hash, st),
                          LayerStep(e, c, world, exact, tail, i, ids, hash, st);
            && (out.R, out.pre)
               == Sublayer(e, c.platform, i, 1, m.R1, Reduced(e, world, exact, m.experts))
            && m.experts == ExpertParts(e, tail, i, m.x2, world)
            && out.kv == AttendKv(e, tail, i, m.x, st.kv)
            && (TailFits(c.tail, |m.R0|) || tail || !c.hasTail ==> CapturedIs(e, c, tail, i, m.R0, st.aux, out.aux))
  {
    hide EngramRows, Input, Sublayer, Reduced, AttendParts, ExpertParts, AttendKv;
    var m := MidOf(e, c, world, exact, tail, i, ids, hash, st);
    var rows := if !tail && c.hasTail && TailFits(c.tail, |m.R0|) then TailRows(c.tail, e.zero, m.R0) else m.R0;
    assert (st.aux + [rows])[..|st.aux|] == st.aux;
  }

  lemma MidSizes<A(!new), K(!new)>(e: Engine<A, K>, c: Config, world: nat, s: nat, exact: bool, tail: bool, i: nat,
                                   ids: seq<nat>, hash: seq<nat>, st: State<A, K>)
    requires i < |c.layers| && Shaped(e, world, s) && Fed(world, s, exact, ids, hash, st)
    ensures var m := MidOf(e, c, world, exact, tail, i, ids, hash, st);
            && |m.R0| == |st.R|
            && (if c.layers[i].engram then EngramIs(e, c, world, exact, i, ids, hash, st.R, m.R0) else m.R0 == st.R)
            && SublayerIs(e, c.platform, world, exact, i, 0, m.R0, st.pre, m.x, m.heads, m.R1, m.pre1)
            && m.heads == AttendParts(e, tail, i, m.x, st.kv)
  {
    if c.layers[i].engram { EngramRowsAre(e, c, world, s, exact, i, ids, hash, st.R); }
    var m := MidOf(e, c, world, exact, tail, i, ids, hash, st);
    assert |m.R0| == |st.R| by { hide Input, Sublayer, Reduced, SublayerIs; }
    var parts := m.heads;
    assert |m.x| == |st.R| by { hide EngramRows, EngramIs, Reduced, Sublayer, SublayerIs; }
    assert |parts[0]| == |m.x|;
    SublayerRows(e, c.platform, world, s, exact, i, 0, m.R0, st.pre, parts);
    hide EngramRows, Input, Sublayer, Reduced, SublayerIs, EngramIs, Shaped;
  }

  /** The layer on whole tensors is the layer row by row. */
  lemma StepIsLayer<A(!new), K(!new)>(e: Engine<A, K>, c: Config, world: nat, s: nat, exact: bool, tail: bool, i: nat,
                                      ids: seq<nat>, hash: seq<nat>, st: State<A, K>)
    requires i < |c.layers| && Shaped(e, world, s) && Fed(world, s, exact, ids, hash, st)
    requires TailFits(c.tail, |st.R|) || tail || !c.hasTail
    ensures LayerIs(e, c, world, exact, tail, i, ids, hash, st,
                    LayerStep(e, c, world, exact, tail, i, ids, hash, st))
    ensures var out := LayerStep(e, c, world, exact, tail, i, ids, hash, st);
            |out.R| == |out.pre| == |st.R| && |out.kv| == world
  {
    hide MidOf, LayerStep, SublayerIs, EngramIs, Shaped, Reduced, Sublayer, CapturedIs;
    StepMid(e, c, world, exact, tail, i, ids, hash, st);
    MidSizes(e, c, world, s, exact, tail, i, ids, hash, st);
    var m := MidOf(e, c, world, exact, tail, i, ids, hash, st);
    SecondSublayer(e, c, world, s, exact, tail, i, ids, hash, st);
    var out := LayerStep(e, c, world, exact, tail, i, ids, hash, st);
    assert Through(e, c, world, exact, tail, i, ids, hash, st, out, m);
  }

  lemma SecondSublayer<A(!new), K(!new)>(e: Engine<A, K>, c: Config, world: nat, s: nat, exact: bool, tail: bool,
                                         i: nat, ids: seq<nat>, hash: seq<nat>, st: State<A, K>)
    requires i < |c.layers| && Shaped(e, world, s) && Fed(world, s, exact, ids, hash, st)
    ensures var m, out := MidOf(e, c, world, exact, tail, i, ids, hash, st),
                          LayerStep(e, c, world, exact, tail, i, ids, hash, st);
            && SublayerIs(e, c.platform, world, exact, i, 1, m.R1, m.pre1, m.x2, m.experts, out.R, out.pre)
            && |out.R| == |out.pre| == |st.R|
  {
    hide LayerStep, EngramIs, CapturedIs, Reduced;
    MidSizes(e, c, world, s, exact, tail, i, ids, hash, st);
    StepMid(e, c, world, exact, tail, i, ids, hash, st);
    var m := MidOf(e, c, world, exact, tail, i, ids, hash, st);
    assert |m.R1| == |m.pre1| == |st.R|;
    assert m.x2 == Input(e, c.platform, i, 1, m.R1, m.pre1);
    hide MidOf, Sublayer, SublayerIs;
    var parts := ExpertParts(e, tail, i, m.x2, world);
    assert |m.x2| == |m.R1|;
    assert |parts[0]| == |m.x2|;
    SublayerRows(e, c.platform, world, s, exact, i, 1, m.R1, m.pre1, parts);
  }

  // --- the whole forward, layer after layer

  /** Layer i on all rows, or on the tail's: of the tokens and their hashes too. */
  ghost predicate Next<A(!new), K(!new)>(e: Engine<A, K>, c: Config, world: nat, exact: bool, tail: bool, i: nat,
                                         st: State<A, K>, out: State<A, K>)
  {
    && i < |c.layers|
    && (!tail ==> LayerIs(e, c, world, exact, false, i, c.ids, c.hash(i), st, out))
    && (tail ==> exists ids: seq<nat>, hash: seq<nat> ::
          && TailOf(c.tail, 0, c.ids, ids) && TailOf(c.tail, 0, c.hash(i), hash)
          && LayerIs(e, c, world, true, true, i, ids, hash, st, out))
  }

  /** Layers from .. to - 1 lead from one state to the other. */
  ghost predicate Runs<A(!new), K(!new)>(e: Engine<A, K>, c: Config, world: nat, exact: bool, tail: bool, from: nat,
                                         to: nat, a: State<A, K>, b: State<A, K>)
  {
    exists states: seq<State<A, K>> :: Path(e, c, world, exact, tail, from, to, states)
      && states[0] == a && states[to - from] == b
  }

  ghost predicate Path<A(!new), K(!new)>(e: Engine<A, K>, c: Config, world: nat, exact: bool, tail: bool, from: nat,
                                         to: nat, states: seq<State<A, K>>)
  {
    && from <= to && |states| == to - from + 1
    && forall k :: 0 <= k < to - from ==> Follows(e, c, world, exact, tail, from, states, k)
  }

  ghost predicate Follows<A(!new), K(!new)>(e: Engine<A, K>, c: Config, world: nat, exact: bool, tail: bool,
                                            from: nat, states: seq<State<A, K>>, k: nat)
  {
    k + 1 < |states| && Next(e, c, world, exact, tail, from + k, states[k], states[k + 1])
  }

  ghost predicate StartIs<A, K>(e: Engine<A, K>, R: seq<A>, kv: seq<K>, st: State<A, K>) {
    st.R == R && |st.pre| == |R| && (forall k :: 0 <= k < |R| ==> st.pre[k] == e.noPre) && st.kv == kv && st.aux == []
  }

  /** At the tail every rank's KV takes the source layer's write of all rows, and the rows become the tail's. */
  ghost predicate Enters<A, K>(e: Engine<A, K>, c: Config, st: State<A, K>, out: State<A, K>) {
    && TailOf(c.tail, e.zero, st.R, out.R) && TailOf(c.tail, e.zero, st.pre, out.pre) && out.aux == st.aux
    && |out.kv| == |st.kv|
    && forall r :: 0 <= r < |st.kv| ==>
         out.kv[r] == if c.writesSourceKv then e.writeSourceKv(r, c.late, st.R, st.pre, st.kv[r]) else st.kv[r]
  }

  /** The unsharded forward: every layer, or the layers before the tail, the entry, and the layers of the tail. */
  ghost predicate ForwardIs<A(!new), K(!new)>(e: Engine<A, K>, c: Config, world: nat, exact: bool, R: seq<A>,
                                              kv: seq<K>, out: State<A, K>)
  {
    exists a: State<A, K>, b: State<A, K>, d: State<A, K> :: Stages(e, c, world, exact, R, kv, a, b, d, out)
  }

  ghost predicate Stages<A(!new), K(!new)>(e: Engine<A, K>, c: Config, world: nat, exact: bool, R: seq<A>, kv: seq<K>,
                                           a: State<A, K>, b: State<A, K>, d: State<A, K>, out: State<A, K>)
  {
    && StartIs(e, R, kv, a)
    && (!c.hasTail || c.late == |c.layers| ==> Runs(e, c, world, exact, false, 0, |c.layers|, a, out))
    && (c.hasTail && c.late < |c.layers| ==>
          && Runs(e, c, world, exact, false, 0, c.late, a, b)
          && Enters(e, c, b, d)
          && Runs(e, c, world, exact, true, c.late, |c.layers|, d, out))
  }

  lemma TailIs<A>(t: Tail, zero: A, xs: seq<A>)
    requires TailFits(t, |xs|)
    ensures TailOf(t, zero, xs, TailRows(t, zero, xs))
  {}

  lemma RunsOn<A(!new), K(!new)>(e: Engine<A, K>, c: Config, world: nat, exact: bool, tail: bool, from: nat, to: nat,
                                 a: State<A, K>, b: State<A, K>, d: State<A, K>)
    requires Runs(e, c, world, exact, tail, from, to, a, b) && Next(e, c, world, exact, tail, to, b, d)
    ensures Runs(e, c, world, exact, tail, from, to + 1, a, d)
  {
    hide Next;
    var states :| Path(e, c, world, exact, tail, from, to, states) && states[0] == a && states[to - from] == b;
    var more := states + [d];
    forall k | 0 <= k < to + 1 - from ensures Follows(e, c, world, exact, tail, from, more, k) {
      if k < to - from { assert Follows(e, c, world, exact, tail, from, states, k); }
    }
    assert Path(e, c, world, exact, tail, from, to + 1, more);
  }

  lemma RunsNone<A(!new), K(!new)>(e: Engine<A, K>, c: Config, world: nat, exact: bool, tail: bool, from: nat,
                                   a: State<A, K>)
    ensures Runs(e, c, world, exact, tail, from, from, a, a)
  {
    assert Path(e, c, world, exact, tail, from, from, [a]);
  }

  lemma {:induction false} RegionRuns<A(!new), K(!new)>(e: Engine<A, K>, c: Config, world: nat, s: nat, exact: bool,
                                                        R: seq<A>, kv: seq<K>, n: nat)
    requires Shaped(e, world, s) && |R| == |c.ids| == world * s && |kv| == world > 0 && n <= |c.layers|
    requires TailFits(c.tail, |R|) && forall i :: 0 <= i < |c.layers| ==> |c.hash(i)| == |R|
    ensures Runs(e, c, world, exact, false, 0, n, Start(e, R, kv), Region(e, c, world, exact, R, kv, n))
    ensures var st := Region(e, c, world, exact, R, kv, n); |st.R| == |st.pre| == |R| && |st.kv| == world
  {
    hide LayerStep, LayerIs, Shaped, Runs;
    if n == 0 {
      RunsNone(e, c, world, exact, false, 0, Start(e, R, kv));
    } else {
      RegionRuns(e, c, world, s, exact, R, kv, n - 1);
      var st := Region(e, c, world, exact, R, kv, n - 1);
      StepIsLayer(e, c, world, s, exact, false, n - 1, c.ids, c.hash(n - 1), st);
      RunsOn(e, c, world, exact, false, 0, n - 1, Start(e, R, kv), st, Region(e, c, world, exact, R, kv, n));
    }
  }

  lemma TailLength<A, B>(t: Tail, za: A, zb: B, xs: seq<A>, ys: seq<B>)
    requires |xs| == |ys| && TailFits(t, |xs|)
    ensures |TailRows(t, za, xs)| == |TailRows(t, zb, ys)|
  {}

  lemma LateNext<A(!new), K(!new)>(e: Engine<A, K>, c: Config, world: nat, s: nat, st: State<A, K>, i: nat)
    requires Shaped(e, world, s) && i < |c.layers| && TailFits(c.tail, |c.ids|) && |c.hash(i)| == |c.ids|
    requires |st.R| == |st.pre| == |TailRows(c.tail, 0, c.ids)| && |st.kv| == world > 0
    ensures var ids, hash := TailRows(c.tail, 0, c.ids), TailRows(c.tail, 0, c.hash(i));
            var out := LayerStep(e, c, world, true, true, i, ids, hash, st);
            Next(e, c, world, true, true, i, st, out) && |out.R| == |out.pre| == |st.R| && |out.kv| == world
  {
    var ids, hash := TailRows(c.tail, 0, c.ids), TailRows(c.tail, 0, c.hash(i));
    TailIs(c.tail, 0, c.ids);
    TailIs(c.tail, 0, c.hash(i));
    TailLength(c.tail, 0, 0, c.ids, c.hash(i));
    hide TailRows, TailOf;
    StepIsLayer(e, c, world, s, true, true, i, ids, hash, st);
    hide LayerStep, LayerIs, Shaped;
  }

  lemma {:induction false} LateRuns<A(!new), K(!new)>(e: Engine<A, K>, c: Config, world: nat, s: nat, st: State<A, K>,
                                                      n: nat)
    requires Shaped(e, world, s) && c.late <= n <= |c.layers| && TailFits(c.tail, |c.ids|)
    requires forall i :: 0 <= i < |c.layers| ==> |c.hash(i)| == |c.ids|
    requires |st.R| == |st.pre| == |TailRows(c.tail, 0, c.ids)| && |st.kv| == world > 0
    ensures Runs(e, c, world, true, true, c.late, n, st, Late(e, c, world, st, n))
    ensures var out := Late(e, c, world, st, n); |out.R| == |out.pre| == |st.R| && |out.kv| == world
    decreases n
  {
    hide TailRows, LayerStep, Next, Shaped, Runs;
    if n == c.late {
      RunsNone(e, c, world, true, true, c.late, st);
    } else {
      LateRuns(e, c, world, s, st, n - 1);
      var before := Late(e, c, world, st, n - 1);
      LateNext(e, c, world, s, before, n - 1);
      RunsOn(e, c, world, true, true, c.late, n - 1, st, before, Late(e, c, world, st, n));
    }
  }

  /** The recursive forward is the forward layer after layer. */
  lemma ForwardRuns<A(!new), K(!new)>(e: Engine<A, K>, c: Config, world: nat, s: nat, exact: bool, R: seq<A>,
                                      kv: seq<K>)
    requires Shaped(e, world, s) && |R| == |c.ids| == world * s && |kv| == world > 0 && c.late <= |c.layers|
    requires TailFits(c.tail, |R|) && forall i :: 0 <= i < |c.layers| ==> |c.hash(i)| == |R|
    ensures ForwardIs(e, c, world, exact, R, kv, Forward(e, c, world, exact, R, kv))
  {
    var a := Start(e, R, kv);
    assert StartIs(e, R, kv, a);
    if !c.hasTail || c.late == |c.layers| {
      RegionRuns(e, c, world, s, exact, R, kv, |c.layers|);
      hide Start, StartIs, Region, Runs, Shaped;
      assert Stages(e, c, world, exact, R, kv, a, a, a, Forward(e, c, world, exact, R, kv));
    } else {
      RegionRuns(e, c, world, s, exact, R, kv, c.late);
      var b := Region(e, c, world, exact, R, kv, c.late);
      hide Start, StartIs, Region, Late, Runs, Shaped;
      LateForward(e, c, world, s, exact, b);
      assert Stages(e, c, world, exact, R, kv, a, b, EnterTail(e, c, b), Forward(e, c, world, exact, R, kv));
    }
  }

  lemma LateForward<A(!new), K(!new)>(e: Engine<A, K>, c: Config, world: nat, s: nat, exact: bool, b: State<A, K>)
    requires Shaped(e, world, s) && c.late <= |c.layers| && TailFits(c.tail, |c.ids|) && world > 0
    requires |b.R| == |b.pre| == |c.ids| && |b.kv| == world
    requires forall i :: 0 <= i < |c.layers| ==> |c.hash(i)| == |c.ids|
    ensures var d := EnterTail(e, c, b);
            && Enters(e, c, b, d)
            && Runs(e, c, world, exact, true, c.late, |c.layers|, d, Late(e, c, world, d, |c.layers|))
  {
    var d := EnterTail(e, c, b);
    Entered(e, c, b);
    TailLength(c.tail, 0, e.zero, c.ids, b.R);
    hide TailRows, Shaped, EnterTail, Enters, Late, Runs;
    LateRuns(e, c, world, s, d, |c.layers|);
    RunsInexact(e, c, world, exact, c.late, |c.layers|, d, Late(e, c, world, d, |c.layers|));
  }

  /** On the tail every site is an all-reduce in either mode. */
  lemma RunsInexact<A(!new), K(!new)>(e: Engine<A, K>, c: Config, world: nat, exact: bool, from: nat, to: nat,
                                      a: State<A, K>, b: State<A, K>)
    requires Runs(e, c, world, true, true, from, to, a, b)
    ensures Runs(e, c, world, exact, true, from, to, a, b)
  {
    hide LayerIs, TailOf;
    var states :| Path(e, c, world, true, true, from, to, states) && states[0] == a && states[to - from] == b;
    forall k | 0 <= k < to - from ensures Follows(e, c, world, exact, true, from, states, k) {
      assert Follows(e, c, world, true, true, from, states, k);
    }
    assert Path(e, c, world, exact, true, from, to, states);
  }

  lemma Entered<A, K>(e: Engine<A, K>, c: Config, st: State<A, K>)
    requires TailFits(c.tail, |st.R|) && |st.R| == |st.pre|
    ensures Enters(e, c, st, EnterTail(e, c, st))
    ensures |EnterTail(e, c, st).R| == |EnterTail(e, c, st).pre| == |TailRows(c.tail, e.zero, st.R)|
    ensures |EnterTail(e, c, st).kv| == |st.kv|
  {
    TailIs(c.tail, e.zero, st.R);
    TailIs(c.tail, e.zero, st.pre);
    TailLength(c.tail, e.zero, e.zero, st.R, st.pre);
    hide TailRows, TailOf;
  }

  // ------------------------------------------------------------------------------------------
  // the sharded loop
  // ------------------------------------------------------------------------------------------

  method SpInput<A(!new), K(!new)>(e: Engine<A, K>, p: Platform, world: nat, s: nat, i: nat, sub: nat,
                                   Rs: seq<seq<A>>, pres: seq<seq<A>>, ghost R: seq<A>, ghost pre: seq<A>)
    returns (xs: seq<seq<A>>)
    requires 1 <= s < world * s && CombineSafe(p, world * s, s)
    requires Sharded(world, s, Rs, R) && Sharded(world, s, pres, pre)
    ensures Sharded(world, s, xs, Input(e, p, i, sub, R, pre))
  {
    CombineExactly(p, world * s, s);
    xs := ZipShards(CombineFn(e, SpCombine(p, world * s, s), i, sub), world, s, Rs, pres, R, pre);
  }

  /** The plan of a region of `world` shards of s rows. */
  function PlanOf(world: nat, s: nat): (p: Plan)
    requires 1 <= s < world * s
    ensures Eligible(p) && ShardRows(p) == s && p.rows == world * s
  {
    PlanShape(world, s);
    Plan(world * s, world, true)
  }

  lemma PlanShape(world: nat, s: nat)
    requires 1 <= s < world * s
    ensures world > 1 && (world * s) % world == 0 && world * s >= world && world * s / world == s
  {
    MulMono(world, 1, s);
    MulMono(1, s, world);
    assert world * s == s * world;
    Divided(world, s);
  }

  lemma Divided(world: nat, s: nat)
    requires world > 0
    ensures world * s / world == s && (world * s) % world == 0
  {
    var q, m := world * s / world, (world * s) % world;
    assert world * s == world * q + m;
    MulMono(s + 1, q, world);
    MulMono(q + 1, s, world);
  }

  method SpSublayer<A(!new), K(!new)>(e: Engine<A, K>, p: Platform, world: nat, s: nat, i: nat, sub: nat,
                                      Rs: seq<seq<A>>, ys: seq<seq<A>>, ghost R: seq<A>, ghost y: seq<A>)
    returns (outs: seq<seq<A>>, pres: seq<seq<A>>)
    requires 1 <= s < world * s && PostSafe(p, world * s, s)
    requires Sharded(world, s, Rs, R) && Sharded(world, s, ys, y)
    ensures Sharded(world, s, outs, Sublayer(e, p, i, sub, R, y).0)
    ensures Sharded(world, s, pres, Sublayer(e, p, i, sub, R, y).1)
  {
    PostExactly(p, world * s, s);
    var plan := PlanOf(world, s);
    MixExactly(p, plan);
    var k, mix := SpPost(p, world * s, s), SpMix(p, plan, false, s);
    outs := ZipShards(PostFn(e, k, mix, i, sub), world, s, Rs, ys, R, y);
    pres := ZipShards(PostPreFn(e, k, mix, i, sub), world, s, Rs, ys, R, y);
  }

  /** Attention: gather, every rank's heads on all rows, keep one's own rows of the reduction. */
  method SpAttend<A(!new), K(!new)>(e: Engine<A, K>, world: nat, s: nat, exact: bool, i: nat,
                                    xs: seq<seq<A>>, kv: seq<K>, ghost x: seq<A>)
    returns (ys: seq<seq<A>>, kvOut: seq<K>)
    requires Shaped(e, world, s) && s >= 1 && |kv| == world > 0 && Sharded(world, s, xs, x)
    ensures Sharded(world, s, ys, Reduced(e, world, exact, AttendParts(e, false, i, x, kv)))
    ensures kvOut == AttendKv(e, false, i, x, kv)
  {
    var full := Gather(world, s, xs, x);
    var parts := AttendParts(e, false, i, full, kv);
    kvOut := AttendKv(e, false, i, full, kv);
    ys := ReduceRows(e, world, s, exact, parts);
  }

  method SpExperts<A(!new), K(!new)>(e: Engine<A, K>, world: nat, s: nat, exact: bool, i: nat, xs: seq<seq<A>>,
                                     ghost x: seq<A>)
    returns (ys: seq<seq<A>>)
    requires Shaped(e, world, s) && s >= 1 && world > 0 && Sharded(world, s, xs, x)
    ensures Sharded(world, s, ys, Reduced(e, world, exact, ExpertParts(e, false, i, x, world)))
  {
    var full := Gather(world, s, xs, x);
    ys := ReduceRows(e, world, s, exact, ExpertParts(e, false, i, full, world));
  }

  // --- Engram

  /** The wkv product on each shard of these rows is the shard of the full product. */
  ghost predicate SlicesAgree<A, K>(e: Engine<A, K>, world: nat, s: nat, i: nat, emb: seq<A>) {
    |emb| == world * s
    && forall r :: 0 <= r < world ==>
         && Lo(s, r) + s <= |emb| && Lo(s, r) + s <= |e.wkv(i, emb)|
         && e.wkv(i, Slice(s, r, emb)) == Slice(s, r, e.wkv(i, emb))
  }

  /** Whether the shard product is exact depends on the layer and the size, not on the data. */
  ghost predicate SizeDecides<A(!new), K(!new)>(e: Engine<A, K>, world: nat, s: nat) {
    forall i: nat, seen: seq<A>, emb: seq<A> ::
      SlicesAgree(e, world, s, i, seen) && |emb| == world * s ==> SlicesAgree(e, world, s, i, emb)
  }

  /** A positive verdict in the table was reached on some rows of that layer and size. */
  ghost predicate TableRight<A(!new), K(!new)>(e: Engine<A, K>, world: nat, s: nat, table: map<(nat, nat), bool>) {
    forall i: nat :: (i, world * s) in table && table[(i, world * s)] ==>
      exists seen: seq<A> :: SlicesAgree(e, world, s, i, seen)
  }

  /** A recorded positive verdict that is trusted on these rows. */
  predicate Trusted(shardWkv: bool, table: map<(nat, nat), bool>, key: (nat, nat)) {
    shardWkv && key in table && table[key]
  }

  /** Under SizeDecides a trusted verdict is right. */
  lemma TrustedAgrees<A(!new), K(!new)>(e: Engine<A, K>, world: nat, s: nat, i: nat, shardWkv: bool,
                                        table: map<(nat, nat), bool>, emb: seq<A>)
    requires TableRight(e, world, s, table) && SizeDecides(e, world, s) && |emb| == world * s
    requires Trusted(shardWkv, table, (i, world * s))
    ensures SlicesAgree(e, world, s, i, emb)
  {
    var seen: seq<A> :| SlicesAgree(e, world, s, i, seen);
  }

  /** _wkv_shard on every rank: the verdict of the layer and size, found on first use and agreed by all ranks, is that
      the shard products equal the product's shards. The result is the sharded product exactly when no verdict was
      trusted or the one trusted holds of these rows too. */
  method WkvShard<A(!new, ==), K(!new)>(e: Engine<A, K>, world: nat, s: nat, i: nat, shardWkv: bool,
                                        embs: seq<seq<A>>, table: map<(nat, nat), bool>, ghost emb: seq<A>)
    returns (kvs: seq<seq<A>>, tableOut: map<(nat, nat), bool>)
    requires Shaped(e, world, s) && s >= 1 && Sharded(world, s, embs, emb)
    requires TableRight(e, world, s, table)
    ensures TableRight(e, world, s, tableOut)
    ensures Sharded(world, s, kvs, e.wkv(i, emb)) <==>
              !Trusted(shardWkv, table, (i, world * s)) || SlicesAgree(e, world, s, i, emb)
    ensures (i, world * s) !in table ==> ((i, world * s) in tableOut <==> shardWkv)
    ensures (i, world * s) !in table && shardWkv ==> (tableOut[(i, world * s)] <==> SlicesAgree(e, world, s, i, emb))
    ensures forall key :: key in table ==> key in tableOut && tableOut[key] == table[key]
    ensures forall key :: key in tableOut && key !in table ==> key == (i, world * s)
  {
    tableOut := table;
    var key := (i, world * s);
    if shardWkv && key in table && table[key] {
      kvs := WkvParts(e, i, embs);
      return;
    }
    var gathered := Gather(world, s, embs, emb);
    var mine := Slices(world, s, e.wkv(i, gathered));
    kvs := mine;
    if shardWkv && key !in table {
      var parts := WkvParts(e, i, embs);
      var same := true;
      for r := 0 to world
        invariant same <==> forall q :: 0 <= q < r ==> parts[q] == mine[q]
      {
        same := same && parts[r] == mine[r];
      }
      assert same <==> SlicesAgree(e, world, s, i, emb);
      tableOut := table[key := same];
      if same {
        assert parts == mine;
        kvs := parts;
      }
    }
  }

  method WkvParts<A(!new), K(!new)>(e: Engine<A, K>, i: nat, embs: seq<seq<A>>) returns (parts: seq<seq<A>>)
    ensures |parts| == |embs| && forall r :: 0 <= r < |embs| ==> parts[r] == e.wkv(i, embs[r])
  {
    parts := [];
    for r := 0 to |embs|
      invariant |parts| == r && forall q :: 0 <= q < r ==> parts[q] == e.wkv(i, embs[q])
    {
      parts := parts + [e.wkv(i, embs[r])];
    }
  }

  method Slices<A>(world: nat, s: nat, full: seq<A>) returns (shards: seq<seq<A>>)
    requires |full| == world * s
    ensures Sharded(world, s, shards, full)
  {
    shards := [];
    for r := 0 to world
      invariant |shards| == r && forall q :: 0 <= q < r ==> Lo(s, q) + s <= |full| && shards[q] == Slice(s, q, full)
    {
      LoFits(world, s, r);
      shards := shards + [Slice(s, r, full)];
    }
  }

  method SpEngram<A(!new, ==), K(!new)>(e: Engine<A, K>, c: Config, world: nat, s: nat, exact: bool, i: nat,
                                        Rs: seq<seq<A>>, table: map<(nat, nat), bool>, ghost R: seq<A>)
    returns (outs: seq<seq<A>>, tableOut: map<(nat, nat), bool>)
    requires Shaped(e, world, s) && 1 <= s && world > 0 && Sharded(world, s, Rs, R)
    requires |c.ids| == |c.hash(i)| == world * s
    requires TableRight(e, world, s, table) && (SizeDecides(e, world, s) || !c.shardWkv || (i, world * s) !in table)
    ensures TableRight(e, world, s, tableOut)
    ensures Sharded(world, s, outs, EngramRows(e, c, world, exact, i, c.ids, c.hash(i), R))
    ensures EngramIs(e, c, world, exact, i, c.ids, c.hash(i), R, EngramRows(e, c, world, exact, i, c.ids, c.hash(i), R))
    ensures forall key :: key in table ==> key in tableOut && tableOut[key] == table[key]
  {
    EngramRowsAre(e, c, world, s, exact, i, c.ids, c.hash(i), R);
    hide EngramIs;
    var embs;
    ghost var emb := Embedded(e, world, exact, i, c.hash(i));
    if e.lookupShared(i) {
      embs := Slices(world, s, e.lookup(0, i, c.hash(i)));
    } else {
      embs := ReduceRows(e, world, s, exact, LookupParts(e, i, c.hash(i), world));
    }
    var kvs;
    kvs, tableOut := WkvShard(e, world, s, i, c.shardWkv, embs, table, emb);
    if Trusted(c.shardWkv, table, (i, world * s)) { TrustedAgrees(e, world, s, i, c.shardWkv, table, emb); }
    var gated := ZipShards(GateFn(e, i), world, s, Rs, kvs, R, e.wkv(i, emb));
    outs := MaskShards(c.vision, c.image, world, s, c.ids, Rs, gated, R, Zip(GateFn(e, i), R, e.wkv(i, emb)));
  }

  method MaskShards<A>(on: bool, image: nat, world: nat, s: nat, ids: seq<nat>, before: seq<seq<A>>, after: seq<seq<A>>,
                       ghost fullB: seq<A>, ghost fullA: seq<A>) returns (outs: seq<seq<A>>)
    requires |ids| == world * s && Sharded(world, s, before, fullB) && Sharded(world, s, after, fullA)
    ensures Sharded(world, s, outs, KeepImages(on, image, ids, fullB, fullA))
  {
    outs := [];
    for r := 0 to world
      invariant |outs| == r
      invariant forall q :: 0 <= q < r ==>
                  Lo(s, q) + s <= |ids| && outs[q] == Slice(s, q, KeepImages(on, image, ids, fullB, fullA))
    {
      LoFits(world, s, r);
      assert before[r] == Slice(s, r, fullB) && after[r] == Slice(s, r, fullA);
      var part := KeepImages(on, image, Slice(s, r, ids), before[r], after[r]);
      assert part == Slice(s, r, KeepImages(on, image, ids, fullB, fullA));
      outs := outs + [part];
    }
  }

  /** Everything the sharded loop carries, against the unsharded state it stands for. */
  ghost predicate Simulates<A, K>(world: nat, s: nat, Rs: seq<seq<A>>, pres: seq<seq<A>>, kv: seq<K>, aux: seq<seq<A>>,
                                  st: State<A, K>)
  {
    Sharded(world, s, Rs, st.R) && Sharded(world, s, pres, st.pre) && kv == st.kv && aux == st.aux && |kv| == world
  }

  ghost predicate Ready<A(!new), K(!new)>(e: Engine<A, K>, c: Config, world: nat, s: nat) {
    && Shaped(e, world, s) && 1 <= s < world * s && SizeDecides(e, world, s)
    && CombineSafe(c.platform, world * s, s) && PostSafe(c.platform, world * s, s)
    && |c.ids| == world * s && c.late <= |c.layers| && TailFits(c.tail, world * s)
    && forall i :: 0 <= i < |c.layers| ==> |c.hash(i)| == world * s
  }

  /** One layer on the shards is one layer on all rows. */
  method SpLayer<A(!new, ==, 0), K(!new)>(e: Engine<A, K>, c: Config, world: nat, s: nat, exact: bool, i: nat,
                                          Rs: seq<seq<A>>, pres: seq<seq<A>>, kv: seq<K>, aux: seq<seq<A>>,
                                          table: map<(nat, nat), bool>, ghost st: State<A, K>)
    returns (Rs': seq<seq<A>>, pres': seq<seq<A>>, kv': seq<K>, aux': seq<seq<A>>, table': map<(nat, nat), bool>)
    requires Ready(e, c, world, s) && world > 0 && i < |c.layers|
    requires Simulates(world, s, Rs, pres, kv, aux, st) && TableRight(e, world, s, table)
    ensures Simulates(world, s, Rs', pres', kv', aux', LayerStep(e, c, world, exact, false, i, c.ids, c.hash(i), st))
    ensures LayerIs(e, c, world, exact, false, i, c.ids, c.hash(i), st,
                    LayerStep(e, c, world, exact, false, i, c.ids, c.hash(i), st))
    ensures TableRight(e, world, s, table')
  {
    StepIsLayer(e, c, world, s, exact, false, i, c.ids, c.hash(i), st);
    hide Sharded, Shaped, SizeDecides, TableRight, Reduced, EngramRows, Input, Sublayer, LayerIs, EngramIs;
    var p := c.platform;
    table' := table;
    var R0s := Rs;
    ghost var R0 := st.R;
    if c.layers[i].engram {
      R0s, table' := SpEngram(e, c, world, s, exact, i, Rs, table, st.R);
      R0 := EngramRows(e, c, world, exact, i, c.ids, c.hash(i), st.R);
    }
    aux' := aux;
    if c.layers[i].capture {
      var rows := Capture(e, c, world, s, R0s, R0);
      aux' := aux + [rows];
    }
    ghost var x := Input(e, p, i, 0, R0, st.pre);
    var xs := SpInput(e, p, world, s, i, 0, R0s, pres, R0, st.pre);
    var ys;
    ys, kv' := SpAttend(e, world, s, exact, i, xs, kv, x);
    ghost var y := Reduced(e, world, exact, AttendParts(e, false, i, x, st.kv));
    var R1s, pre1s := SpSublayer(e, p, world, s, i, 0, R0s, ys, R0, y);
    ghost var R1, pre1 := Sublayer(e, p, i, 0, R0, y).0, Sublayer(e, p, i, 0, R0, y).1;
    ghost var x2 := Input(e, p, i, 1, R1, pre1);
    var x2s := SpInput(e, p, world, s, i, 1, R1s, pre1s, R1, pre1);
    var y2s := SpExperts(e, world, s, exact, i, x2s, x2);
    ghost var y2 := Reduced(e, world, exact, ExpertParts(e, false, i, x2, world));
    Rs', pres' := SpSublayer(e, p, world, s, i, 1, R1s, y2s, R1, y2);
  }

  method Capture<A(!new, 0), K(!new)>(e: Engine<A, K>, c: Config, world: nat, s: nat, Rs: seq<seq<A>>, ghost R: seq<A>)
    returns (rows: seq<A>)
    requires s >= 1 && Sharded(world, s, Rs, R) && TailFits(c.tail, world * s)
    ensures rows == if c.hasTail && TailFits(c.tail, |R|) then TailRows(c.tail, e.zero, R) else R
  {
    if c.hasTail {
      rows := GatherTail(world, s, c.tail, e.zero, Rs, R);
    } else {
      rows := Gather(world, s, Rs, R);
    }
  }

  /** A layer of the tail: the stock code, the same on every rank. */
  method StockLayer<A(!new), K(!new)>(e: Engine<A, K>, c: Config, world: nat, i: nat, ids: seq<nat>, hash: seq<nat>,
                                      st: State<A, K>) returns (out: State<A, K>)
    requires i < |c.layers|
    ensures out == LayerStep(e, c, world, true, true, i, ids, hash, st)
    ensures forall s: nat :: Shaped(e, world, s) && Fed(world, s, true, ids, hash, st) ==>
              LayerIs(e, c, world, true, true, i, ids, hash, st, out)
  {
    forall s: nat | Shaped(e, world, s) && Fed(world, s, true, ids, hash, st)
      ensures LayerIs(e, c, world, true, true, i, ids, hash, st, LayerStep(e, c, world, true, true, i, ids, hash, st))
    {
      StepIsLayer(e, c, world, s, true, true, i, ids, hash, st);
    }
    hide LayerIs;
    var R0 := st.R;
    if c.layers[i].engram {
      var emb := if e.lookupShared(i) then e.lookup(0, i, hash) else e.allReduce(LookupParts(e, i, hash, world));
      R0 := Gated(e, c, i, ids, e.wkv(i, emb), st.R);
    }
    hide Gated, Input, Sublayer;
    var aux := if c.layers[i].capture then st.aux + [R0] else st.aux;
    var x := Input(e, c.platform, i, 0, R0, st.pre);
    var (R1, pre1) := Sublayer(e, c.platform, i, 0, R0, e.allReduce(AttendParts(e, true, i, x, st.kv)));
    var x2 := Input(e, c.platform, i, 1, R1, pre1);
    var (R2, pre2) := Sublayer(e, c.platform, i, 1, R1, e.allReduce(ExpertParts(e, true, i, x2, world)));
    out := State(R2, pre2, AttendKv(e, true, i, x, st.kv), aux);
  }

  method StartShards<A(!new), K(!new)>(e: Engine<A, K>, world: nat, s: nat, R: seq<A>)
    returns (Rs: seq<seq<A>>, pres: seq<seq<A>>)
    requires |R| == world * s
    ensures Sharded(world, s, Rs, R) && Sharded(world, s, pres, seq(|R|, _ => e.noPre))
  {
    Rs := Slices(world, s, R);
    pres := Slices(world, s, seq(|R|, _ => e.noPre));
  }

  /**
   * The sharded forward. In exact mode (every site an all-reduce) all ranks return the rows, the pre, the
   * captured rows and the KV of the unsharded forward, for any number of ranks dividing the rows, any
   * layers, Engram layers and verdict table, and any tail; with reduce-scatters it returns what the
   * transport-only mode does, which reduces every site the same way.
   */
  method SpForward<A(!new, ==, 0), K(!new)>(e: Engine<A, K>, c: Config, world: nat, s: nat, exact: bool,
                                            R: seq<A>, kv: seq<K>, table: map<(nat, nat), bool>)
    returns (out: State<A, K>, tableOut: map<(nat, nat), bool>)
    requires Ready(e, c, world, s) && |R| == world * s && |kv| == world > 1 && TableRight(e, world, s, table)
    ensures out == Forward(e, c, world, exact, R, kv)
    ensures ForwardIs(e, c, world, exact, R, kv, out)
    ensures TableRight(e, world, s, tableOut)
  {
    ForwardRuns(e, c, world, s, exact, R, kv);
    hide ForwardIs;
    var last := if c.hasTail then c.late else |c.layers|;
    var Rs, pres, kvs, aux;
    Rs, pres, kvs, aux, tableOut := RunRegion(e, c, world, s, exact, R, kv, table, last);
    ghost var st := Region(e, c, world, exact, R, kv, last);
    if c.hasTail && c.late < |c.layers| {
      hide Region, Simulates;
      out := RunTail(e, c, world, s, Rs, pres, kvs, aux, st);
    } else {
      hide Region, Late, EnterTail, Shaped, SizeDecides;
      var allR := Gather(world, s, Rs, st.R);
      var allPre := Gather(world, s, pres, st.pre);
      out := State(allR, allPre, kvs, aux);
    }
  }

  /** The first n layers on the shards. */
  method RunRegion<A(!new, ==, 0), K(!new)>(e: Engine<A, K>, c: Config, world: nat, s: nat, exact: bool,
                                            R: seq<A>, kv: seq<K>, table: map<(nat, nat), bool>, n: nat)
    returns (Rs: seq<seq<A>>, pres: seq<seq<A>>, kvs: seq<K>, aux: seq<seq<A>>, tableOut: map<(nat, nat), bool>)
    requires Ready(e, c, world, s) && |R| == world * s && |kv| == world > 1 && TableRight(e, world, s, table)
    requires n <= |c.layers|
    ensures Simulates(world, s, Rs, pres, kvs, aux, Region(e, c, world, exact, R, kv, n))
    ensures TableRight(e, world, s, tableOut)
  {
    hide Sharded, LayerStep, TableRight, Shaped, SizeDecides, Ready, LayerIs;
    tableOut := table;
    Rs, pres := StartShards(e, world, s, R);
    kvs, aux := kv, [];
    assert Simulates(world, s, Rs, pres, kvs, aux, Region(e, c, world, exact, R, kv, 0));
    hide Simulates;
    for i := 0 to n
      invariant Simulates(world, s, Rs, pres, kvs, aux, Region(e, c, world, exact, R, kv, i))
      invariant TableRight(e, world, s, tableOut)
    {
      Rs, pres, kvs, aux, tableOut := SpLayer(e, c, world, s, exact, i, Rs, pres, kvs, aux, tableOut,
                                              Region(e, c, world, exact, R, kv, i));
    }
  }

  method RunTail<A(!new, ==, 0), K(!new)>(e: Engine<A, K>, c: Config, world: nat, s: nat, Rs: seq<seq<A>>,
                                          pres: seq<seq<A>>,
                                          kv: seq<K>, aux: seq<seq<A>>, ghost st: State<A, K>)
    returns (out: State<A, K>)
    requires Ready(e, c, world, s) && Simulates(world, s, Rs, pres, kv, aux, st)
    ensures |st.R| == |st.pre| == world * s
    ensures out == Late(e, c, world, EnterTail(e, c, st), |c.layers|)
  {
    hide Shaped, SizeDecides, LayerStep;
    var kvs := kv;
    if c.writesSourceKv {
      var allR := Gather(world, s, Rs, st.R);
      var allPre := Gather(world, s, pres, st.pre);
      kvs := seq(|kv|, r requires 0 <= r < |kv| => e.writeSourceKv(r, c.late, allR, allPre, kv[r]));
    }
    var tailR := GatherTail(world, s, c.tail, e.zero, Rs, st.R);
    var tailPre := GatherTail(world, s, c.tail, e.zero, pres, st.pre);
    var ids := TailRows(c.tail, 0, c.ids);
    out := State(tailR, tailPre, kvs, aux);
    ghost var entered := EnterTail(e, c, st);
    var i := c.late;
    while i < |c.layers|
      invariant c.late <= i <= |c.layers| && out == Late(e, c, world, entered, i)
    {
      out := StockLayer(e, c, world, i, ids, TailRows(c.tail, 0, c.hash(i)), out);
      i := i + 1;
    }
  }
}
