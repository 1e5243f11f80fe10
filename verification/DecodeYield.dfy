/**
 * The decode yield (adapter/decode_yield.py): after a non-final prefill chunk beside running streams, decode
 * rounds are charged against a time budget before the next chunk may run.
 */
module DecodeYield {
  import opened Wrappers

  const MAX_PCT: nat := 90
  const MAX_STEPS: nat := 128

  // ---- the cost model, in microseconds ----

  function ChunkUs(tokens: nat, prefix: nat): nat { tokens * (1354500 + prefix * 487 / 1000) / 8192 }

  function StepUs(size: nat): nat { 26300 + 15200 * size }

  function Least(a: int, b: int): int { if b < a then b else a }

  function Most(a: int, b: int): int { if b > a then b else a }

  /** -(-a // d), with a floor division. */
  function CeilDiv(a: nat, d: nat): int
    requires d > 0
  {
    -((0 - a) / d)
  }

  /** pct / (100 - pct) of the chunk rounded up, at least `interval` steps, at most 128 of them. */
  function Budget(pct: nat, tokens: nat, prefix: nat, size: nat, interval: int): int
    requires pct <= MAX_PCT
  {
    var want := CeilDiv(pct * ChunkUs(tokens, prefix), 100 - pct);
    Least(Most(want, Most(interval, 0) * StepUs(size)), MAX_STEPS * StepUs(size))
  }

  lemma CeilQuotient(a: nat, d: nat)
    requires d > 0
    ensures CeilDiv(a, d) * d >= a && (CeilDiv(a, d) - 1) * d < a && CeilDiv(a, d) >= 0
  {
    var f := (0 - a) / d;
    assert 0 - a == d * f + (0 - a) % d;
    assert (-f) * d == -(d * f);
    assert (-f - 1) * d == -(d * f) - d;
  }

  /** What the budget is worth: the share of the chunk unless the 128-step cap cut it, never less than the
      configured interval within that cap, and always some time. */
  lemma BudgetCovers(pct: nat, tokens: nat, prefix: nat, size: nat, interval: int)
    requires 1 <= pct <= MAX_PCT && tokens >= 1
    ensures var b := Budget(pct, tokens, prefix, size, interval);
            0 < b <= MAX_STEPS * StepUs(size)
            && b >= Least(Most(interval, 0), MAX_STEPS) * StepUs(size)
            && (b < MAX_STEPS * StepUs(size) ==> b * (100 - pct) >= pct * ChunkUs(tokens, prefix))
            && (b > Most(interval, 0) * StepUs(size) ==> (b - 1) * (100 - pct) < pct * ChunkUs(tokens, prefix))
  {
    var c, s, lo := ChunkUs(tokens, prefix), StepUs(size), Most(interval, 0);
    ChunkPositive(tokens, prefix);
    ScaledNat(1, c, pct);
    CeilQuotient(pct * c, 100 - pct);
    var want := CeilDiv(pct * c, 100 - pct);
    assert want * (100 - pct) >= pct * c > 0;
    if want <= 0 { ScaledInt(want, 0, 100 - pct); }
    var b := Budget(pct, tokens, prefix, size, interval);
    ScaledInt(lo, MAX_STEPS, s);
    ScaledInt(MAX_STEPS, lo, s);
    if b < MAX_STEPS * s { ScaledInt(want, b, 100 - pct); }
    if b > lo * s { ScaledInt(b - 1, want - 1, 100 - pct); }
  }

  /** The cost model: 1.3545 s for 8192 tokens and 0.487 s more for every million of prefix, pro rata and rounded down;
      26.3 ms for a decode round and 15.2 ms more for every stream. */
  lemma Costs(tokens: nat, prefix: nat, size: nat)
    ensures ChunkUs(8192, prefix) == 1354500 + prefix * 487 / 1000
    ensures 8192 * ChunkUs(tokens, prefix) <= tokens * ChunkUs(8192, prefix) < 8192 * (ChunkUs(tokens, prefix) + 1)
    ensures StepUs(0) == 26300 && StepUs(size + 1) == StepUs(size) + 15200
  {
    assert 8192 * (1354500 + prefix * 487 / 1000) / 8192 == 1354500 + prefix * 487 / 1000;
  }

  lemma ScaledInt(a: int, b: int, s: nat)
    ensures a <= b ==> a * s <= b * s
  {
    if a <= b { assert (b - a) * s == b * s - a * s; }
  }

  lemma ScaledNat(a: nat, b: nat, s: nat)
    ensures a <= b ==> s * a <= s * b
  {
    if a <= b { assert s * (b - a) == s * b - s * a; }
  }

  lemma ChunkPositive(tokens: nat, prefix: nat)
    requires tokens >= 1
    ensures ChunkUs(tokens, prefix) >= 1
  {
    var each := 1354500 + prefix * 487 / 1000;
    ScaledNat(1, tokens, each);
    assert each * tokens == tokens * each;
    assert tokens * each >= 8192;
  }

  // ---- the scheduler ----

  datatype Running = Running(size: nat, prefillOnly: bool)

  /** There are rows that a decode round would advance. */
  predicate DecodeRows(r: Option<Running>) { r.Some? && r.value.size > 0 && !r.value.prefillOnly }

  /** A decode share in percent: 0 from a request id that asks for the stock interval only, else 1 to 90. */
  type Share = s: nat | s <= MAX_PCT witness 0

  /** What arm_after reads of the scheduled batch; `share` is share_for of the chunked request. */
  datatype Batch = Batch(
    chunked: bool, sameRequest: bool, isRunningBatch: bool, extend: bool, share: Share, tokens: int, prefix: nat)

  datatype Plan = Plan(batch: Option<Batch>, running: Option<Running>, mlpSync: bool, dllm: bool)

  /** The plan ran a non-final chunk beside decode rows, with a share to give them. */
  predicate Arms(p: Plan) {
    && p.batch.Some? && !p.mlpSync && !p.dllm
    && p.batch.value.chunked && p.batch.value.sameRequest && !p.batch.value.isRunningBatch && p.batch.value.extend
    && DecodeRows(p.running)
    && p.batch.value.share > 0 && p.batch.value.tokens > 0
  }

  /** What the code keeps: the time owed, the stock interval counter, and three counts. */
  datatype Fields = Fields(left: int, remaining: int, armed: nat, steps: nat, cancels: nat)

  function Armed(f: Fields, p: Plan, interval: int): Fields {
    if Arms(p) then
      f.(left := Budget(p.batch.value.share, p.batch.value.tokens, p.batch.value.prefix, p.running.value.size,
                        interval),
         armed := f.armed + 1)
    else f
  }

  datatype Decision = Defer | Proceed | Stock

  function Decided(f: Fields, r: Option<Running>, chunked: bool): Decision {
    if f.left <= 0 then Stock else if !DecodeRows(r) || !chunked then Proceed else Defer
  }

  function Deferred(f: Fields, r: Option<Running>, chunked: bool): Fields {
    match Decided(f, r, chunked)
    case Stock => f
    case Proceed => f.(left := 0, remaining := 0, cancels := f.cancels + 1)
    case Defer => f.(left := f.left - StepUs(r.value.size), remaining := 0, steps := f.steps + 1)
  }

  class Scheduler {
    var left: int
    var remaining: int
    var armed: nat
    var steps: nat
    var cancels: nat
    const interval: int

    ghost function State(): Fields
      reads this
    {
      Fields(left, remaining, armed, steps, cancels)
    }

    constructor (interval: int)
      ensures State() == Fields(0, 0, 0, 0, 0) && this.interval == interval
    {
      this.interval := interval;
      left, remaining, armed, steps, cancels := 0, 0, 0, 0, 0;
    }

    method ArmAfter(p: Plan)
      modifies this
      ensures State() == Armed(old(State()), p, interval)
      ensures armed == old(armed) + 1 || armed == old(armed)
      ensures armed == old(armed) + 1 <==>
                && p.batch.Some? && !p.mlpSync && !p.dllm
                && p.batch.value.chunked && p.batch.value.sameRequest && !p.batch.value.isRunningBatch
                && p.batch.value.extend && p.batch.value.share > 0 && p.batch.value.tokens > 0
                && p.running.Some? && p.running.value.size > 0 && !p.running.value.prefillOnly
      ensures armed == old(armed) ==> State() == old(State())
      ensures armed != old(armed) ==>
                State() == old(State()).(armed := armed, left := Budget(p.batch.value.share, p.batch.value.tokens,
                                                                        p.batch.value.prefix, p.running.value.size,
                                                                        interval))
    {
      if p.batch == None || p.mlpSync || p.dllm { return; }
      var b := p.batch.value;
      if !b.chunked || !b.sameRequest || b.isRunningBatch || !b.extend { return; }
      if !DecodeRows(p.running) { return; }
      if b.share <= 0 || b.tokens <= 0 { return; }
      left := Budget(b.share, b.tokens, b.prefix, p.running.value.size, interval);
      armed := armed + 1;
    }

    method DeferStep(r: Option<Running>, chunked: bool) returns (d: Decision)
      modifies this
      ensures d == Decided(old(State()), r, chunked)
      ensures State() == Deferred(old(State()), r, chunked)
      ensures d == Stock <==> old(left) <= 0
      ensures d == Defer <==> old(left) > 0 && chunked && r.Some? && r.value.size > 0 && !r.value.prefillOnly
      ensures d == Stock ==> State() == old(State())
      ensures d == Defer ==> left == old(left) - StepUs(r.value.size) && remaining == 0 && steps == old(steps) + 1
                             && cancels == old(cancels) && armed == old(armed)
      ensures d == Proceed ==> left == 0 == remaining && cancels == old(cancels) + 1 && steps == old(steps)
                               && armed == old(armed)
    {
      if left <= 0 { return Stock; }
      if !DecodeRows(r) || !chunked {
        left := 0;
        remaining := 0;
        cancels := cancels + 1;
        return Proceed;
      }
      left := left - StepUs(r.value.size);
      remaining := 0;
      steps := steps + 1;
      d := Defer;
    }

    /** Any sequence of calls leaves the scheduler where the ledger's run says. */
    method Run(calls: seq<Call>)
      modifies this
      ensures State() == Played(old(State()), interval, calls).fields
    {
      ghost var start := State();
      for i := 0 to |calls|
        invariant State() == Played(start, interval, calls[..i]).fields
      {
        assert calls[..i + 1][..i] == calls[..i];
        match calls[i]
        case Arm(p) => ArmAfter(p);
        case Ask(r, chunked) => var d := DeferStep(r, chunked);
      }
      assert calls[..|calls|] == calls;
    }
  }

  // ---- whole runs, with every yield on record ----

  datatype Call = Arm(p: Plan) | Ask(r: Option<Running>, chunked: bool)

  datatype End = Open | Reached | Cancelled | Replaced

  /** One yield: the plan that armed it, the batch sizes of the rounds charged to it, and how it ended. */
  datatype Yield = Yield(p: Plan, budget: int, sizes: seq<nat>, end: End)

  datatype Ledger = Ledger(fields: Fields, records: seq<Yield>)

  function Charged(sizes: seq<nat>): nat {
    if sizes == [] then 0 else Charged(sizes[..|sizes| - 1]) + StepUs(sizes[|sizes| - 1])
  }

  function Played(f: Fields, interval: int, calls: seq<Call>): Ledger {
    if calls == [] then Ledger(f, [])
    else Next(Played(f, interval, calls[..|calls| - 1]), interval, calls[|calls| - 1])
  }

  function Next(g: Ledger, interval: int, c: Call): Ledger {
    match c
    case Arm(p) =>
      var f := Armed(g.fields, p, interval);
      if !Arms(p) then Ledger(f, g.records)
      else Ledger(f, Close(g.records, g.fields.left, Replaced) + [Yield(p, f.left, [], Open)])
    case Ask(r, chunked) =>
      var f := Deferred(g.fields, r, chunked);
      match Decided(g.fields, r, chunked)
      case Stock => Ledger(f, g.records)
      case Proceed => Ledger(f, Close(g.records, g.fields.left, Cancelled))
      case Defer => Ledger(f, Charge(g.records, r.value.size, f.left))
  }

  /** The open yield, if there is one, ends. */
  function Close(ys: seq<Yield>, left: int, how: End): seq<Yield> {
    if ys == [] || left <= 0 then ys else ys[|ys| - 1 := ys[|ys| - 1].(end := how)]
  }

  function Charge(ys: seq<Yield>, size: nat, left: int): seq<Yield> {
    if ys == [] then ys
    else
      var y := ys[|ys| - 1];
      ys[|ys| - 1 := y.(sizes := y.sizes + [size], end := if left <= 0 then Reached else Open)]
  }

  /** A yield on record: its budget is the armed one, no round started once the budget was spent, and it counts as
      reached exactly when the rounds have spent it. */
  ghost predicate Good(y: Yield, interval: int) {
    && Arms(y.p)
    && y.budget == Budget(y.p.batch.value.share, y.p.batch.value.tokens, y.p.batch.value.prefix, y.p.running.value.size,
                          interval)
    && (y.end == Reached ==> y.sizes != [] && Charged(y.sizes) >= y.budget)
    && (y.end != Reached ==> Charged(y.sizes) < y.budget)
    && (y.sizes != [] ==> Charged(y.sizes[..|y.sizes| - 1]) < y.budget)
    && forall k :: 0 <= k < |y.sizes| ==> y.sizes[k] > 0
  }

  ghost predicate Books(g: Ledger, interval: int) {
    && (forall k :: 0 <= k < |g.records| ==> Good(g.records[k], interval))
    && (forall k :: 0 <= k < |g.records| ==>
          (g.records[k].end == Open <==> k == |g.records| - 1 && g.fields.left > 0))
    && (g.fields.left > 0 ==>
          g.records != [] && g.fields.left
          == g.records[|g.records| - 1].budget - Charged(g.records[|g.records| - 1].sizes))
  }

  lemma BooksNext(g: Ledger, interval: int, c: Call)
    requires Books(g, interval)
    ensures Books(Next(g, interval, c), interval)
  {
    var h := Next(g, interval, c);
    match c
    case Arm(p) =>
      if Arms(p) {
        BudgetCovers(p.batch.value.share, p.batch.value.tokens, p.batch.value.prefix, p.running.value.size, interval);
        hide Budget, StepUs, Arms;
      }
    case Ask(r, chunked) =>
      if Decided(g.fields, r, chunked) == Defer {
        var y := g.records[|g.records| - 1];
        assert (y.sizes + [r.value.size])[..|y.sizes|] == y.sizes;
        assert Good(h.records[|h.records| - 1], interval);
      }
  }

  /** In every run from a fresh scheduler the books are right. */
  lemma {:induction false} RunBooks(interval: int, calls: seq<Call>)
    ensures Books(Played(Fields(0, 0, 0, 0, 0), interval, calls), interval)
  {
    if calls != [] {
      RunBooks(interval, calls[..|calls| - 1]);
      BooksNext(Played(Fields(0, 0, 0, 0, 0), interval, calls[..|calls| - 1]), interval, calls[|calls| - 1]);
    }
  }

  lemma NotReplacedNext(g: Ledger, interval: int, c: Call)
    requires forall k :: 0 <= k < |g.records| ==> g.records[k].end != Replaced
    requires c.Arm? && Arms(c.p) ==> g.fields.left <= 0
    ensures forall k :: 0 <= k < |Next(g, interval, c).records| ==> Next(g, interval, c).records[k].end != Replaced
  {
    hide Armed, Budget, Arms, Deferred;
    match c
    case Arm(p) => {}
    case Ask(r, chunked) => {}
  }

  /** When a chunk is only ever scheduled in a round that was not deferred, no yield is cut short by the next one. */
  lemma {:induction false} NeverReplaced(interval: int, calls: seq<Call>)
    requires forall i :: 0 <= i < |calls| && calls[i].Arm? && Arms(calls[i].p) ==>
               Played(Fields(0, 0, 0, 0, 0), interval, calls[..i]).fields.left <= 0
    ensures var ys := Played(Fields(0, 0, 0, 0, 0), interval, calls).records;
            forall k :: 0 <= k < |ys| ==> ys[k].end != Replaced
  {
    if calls != [] {
      var front := calls[..|calls| - 1];
      forall i | 0 <= i < |front| && front[i].Arm? && Arms(front[i].p)
        ensures Played(Fields(0, 0, 0, 0, 0), interval, front[..i]).fields.left <= 0
      {
        assert front[..i] == calls[..i];
      }
      NeverReplaced(interval, front);
      var g, last := Played(Fields(0, 0, 0, 0, 0), interval, front), calls[|calls| - 1];
      var n := |front|;
      assert calls[..n] == front;
      assert calls[n].Arm? && Arms(calls[n].p) ==> Played(Fields(0, 0, 0, 0, 0), interval, calls[..n]).fields.left <= 0;
      NotReplacedNext(g, interval, last);
    }
  }

  /** A yield that ran its course reached its budget and overshot it by less than its last round; unless the cap
      cut the budget the decode time is at least the share: decode · (100 - pct) >= pct · chunk. */
  lemma YieldShare(y: Yield, interval: int)
    requires Good(y, interval) && y.end == Reached
    ensures y.budget <= Charged(y.sizes) < y.budget + StepUs(y.sizes[|y.sizes| - 1])
    ensures y.budget < MAX_STEPS * StepUs(y.p.running.value.size) ==>
              Charged(y.sizes) * (100 - y.p.batch.value.share)
              >= y.p.batch.value.share * ChunkUs(y.p.batch.value.tokens, y.p.batch.value.prefix)
  {
    var b := y.p.batch.value;
    BudgetCovers(b.share, b.tokens, b.prefix, y.p.running.value.size, interval);
    ScaledInt(y.budget, Charged(y.sizes), 100 - b.share);
  }

  // ---- totals over a run ----

  /** Ran its course with a budget the cap did not cut, at this share. */
  predicate Uncapped(y: Yield, pct: nat) {
    && y.end == Reached && Arms(y.p) && y.p.batch.value.share == pct
    && y.budget < MAX_STEPS * StepUs(y.p.running.value.size)
  }

  function DecodeTime(ys: seq<Yield>, pct: nat): nat {
    if ys == [] then 0
    else
      var y := ys[|ys| - 1];
      DecodeTime(ys[..|ys| - 1], pct) + if Uncapped(y, pct) then Charged(y.sizes) else 0
  }

  function ChunkTime(ys: seq<Yield>, pct: nat): nat {
    if ys == [] then 0
    else
      var y := ys[|ys| - 1];
      ChunkTime(ys[..|ys| - 1], pct)
      + if Uncapped(y, pct) then ChunkUs(y.p.batch.value.tokens, y.p.batch.value.prefix) else 0
  }

  lemma {:induction false} Totals(ys: seq<Yield>, pct: nat, interval: int)
    requires pct <= MAX_PCT && forall k :: 0 <= k < |ys| ==> Good(ys[k], interval)
    ensures DecodeTime(ys, pct) * (100 - pct) >= pct * ChunkTime(ys, pct)
  {
    if ys != [] {
      var front, y := ys[..|ys| - 1], ys[|ys| - 1];
      Totals(front, pct, interval);
      if Uncapped(y, pct) {
        YieldShare(y, interval);
        var c, d := ChunkUs(y.p.batch.value.tokens, y.p.batch.value.prefix), Charged(y.sizes);
        Distributes(DecodeTime(front, pct), d, 100 - pct);
        Distributes(ChunkTime(front, pct), c, pct);
      }
    }
  }

  lemma Distributes(a: nat, b: nat, s: nat)
    ensures (a + b) * s == a * s + b * s && s * (a + b) == s * a + s * b
  {}

  /** Over any run: the decode time granted after the chunks whose yield ran its course, uncapped, is at least
      pct / (100 - pct) of those chunks' time. */
  lemma DecodeShare(interval: int, calls: seq<Call>, pct: nat)
    requires pct <= MAX_PCT
    ensures var ys := Played(Fields(0, 0, 0, 0, 0), interval, calls).records;
            DecodeTime(ys, pct) * (100 - pct) >= pct * ChunkTime(ys, pct)
  {
    RunBooks(interval, calls);
    Totals(Played(Fields(0, 0, 0, 0, 0), interval, calls).records, pct, interval);
  }

  // ---- rounds ----

  lemma {:induction false} SteadyCharge(sizes: seq<nat>, size: nat)
    requires forall k :: 0 <= k < |sizes| ==> sizes[k] == size
    ensures Charged(sizes) == |sizes| * StepUs(size)
  {
    if sizes != [] {
      SteadyCharge(sizes[..|sizes| - 1], size);
      assert |sizes| * StepUs(size) == (|sizes| - 1) * StepUs(size) + StepUs(size);
    }
  }

  /** With the batch size it was armed at, a yield lasts at least the configured interval (within the cap) and never
      more than 128 rounds, whether or not it has ended yet. */
  lemma RoundsBounded(y: Yield, interval: int)
    requires Good(y, interval) && forall k :: 0 <= k < |y.sizes| ==> y.sizes[k] == y.p.running.value.size
    ensures |y.sizes| <= MAX_STEPS
    ensures y.end == Reached ==> |y.sizes| >= 1 && |y.sizes| >= Least(interval, MAX_STEPS)
  {
    var b, size, n := y.p.batch.value, y.p.running.value.size, |y.sizes|;
    BudgetCovers(b.share, b.tokens, b.prefix, size, interval);
    assert StepUs(size) > 0;
    SteadyCharge(y.sizes, size);
    if n > 0 { SteadyCharge(y.sizes[..n - 1], size); }
    hide Budget, StepUs, ChunkUs, Charged, Arms, DecodeRows;
    Rounds(n, StepUs(size), y.budget, Charged(y.sizes), if n > 0 then Charged(y.sizes[..n - 1]) else -1,
           Least(Most(interval, 0), MAX_STEPS));
  }

  /** Rounds of equal cost s: before the last one less than the budget b was spent. */
  lemma Rounds(n: nat, s: nat, b: int, spent: int, before: int, low: int)
    requires s > 0 && spent == n * s && (n > 0 ==> before == (n - 1) * s)
    requires before < b && 0 < b <= MAX_STEPS * s && b >= low * s
    ensures n <= MAX_STEPS
    ensures spent >= b ==> n >= 1 && n >= low
  {
    Divides(low, n, s);
    Divides(MAX_STEPS, n - 1, s);
  }

  lemma Divides(a: int, b: int, s: nat)
    requires s > 0
    ensures a * s <= b * s ==> a <= b
  {
    if b < a {
      ScaledInt(b + 1, a, s);
      assert (b + 1) * s == b * s + s;
    }
  }

  /** The run that arms with p and then defers n rounds beside a single stream. */
  function Lonely(p: Plan, n: nat): seq<Call> {
    if n == 0 then [Arm(p)] else Lonely(p, n - 1) + [Ask(Some(Running(1, false)), true)]
  }

  function Ones(n: nat): seq<nat> { if n == 0 then [] else Ones(n - 1) + [1] }

  function BudgetOf(p: Plan, interval: int): int
    requires Arms(p)
  {
    Budget(p.batch.value.share, p.batch.value.tokens, p.batch.value.prefix, p.running.value.size, interval)
  }

  lemma {:induction false} OnesCharge(n: nat)
    ensures |Ones(n)| == n && Charged(Ones(n)) == n * StepUs(1)
  {
    if n > 0 {
      OnesCharge(n - 1);
      assert Ones(n)[..n - 1] == Ones(n - 1);
      assert n * StepUs(1) == (n - 1) * StepUs(1) + StepUs(1);
    }
  }

  /** While the budget lasts every one of those rounds is deferred and charged. */
  lemma {:induction false} LonelyRun(p: Plan, interval: int, n: nat)
    requires Arms(p) && (n > 0 ==> (n - 1) * StepUs(1) < BudgetOf(p, interval))
    ensures var g := Played(Fields(0, 0, 0, 0, 0), interval, Lonely(p, n));
            && g.fields.left == BudgetOf(p, interval) - n * StepUs(1)
            && |g.records| == 1 && g.records[0].p == p && g.records[0].sizes == Ones(n)
            && (g.fields.left > 0 ==> g.records[0].end == Open)
  {
    var calls := Lonely(p, n);
    var start := Fields(0, 0, 0, 0, 0);
    if n == 0 {
      assert calls[..0] == [];
      BudgetCovers(p.batch.value.share, p.batch.value.tokens, p.batch.value.prefix, p.running.value.size, interval);
      hide Budget, Arms;
    } else {
      assert calls[..|calls| - 1] == Lonely(p, n - 1) && |calls| > 0;
      assert n > 1 ==> (n - 2) * StepUs(1) < (n - 1) * StepUs(1);
      LonelyRun(p, interval, n - 1);
      hide BudgetOf, Arms, Budget, Played;
      LonelyRound(Played(start, interval, Lonely(p, n - 1)), interval);
      assert n * StepUs(1) == (n - 1) * StepUs(1) + StepUs(1);
      PlayedLast(start, interval, calls);
    }
  }

  lemma PlayedLast(f: Fields, interval: int, calls: seq<Call>)
    requires calls != []
    ensures Played(f, interval, calls) == Next(Played(f, interval, calls[..|calls| - 1]), interval, calls[|calls| - 1])
  {}

  lemma LonelyRound(g: Ledger, interval: int)
    requires g.fields.left > 0 && |g.records| == 1
    ensures var u := Next(g, interval, Ask(Some(Running(1, false)), true));
            && u.fields.left == g.fields.left - StepUs(1)
            && |u.records| == 1 && u.records[0].p == g.records[0].p
            && u.records[0].sizes == g.records[0].sizes + [1]
            && (u.fields.left > 0 ==> u.records[0].end == Open)
  {}

  /** Every round costs at least a single stream's. */
  lemma {:induction false} ChargeAtLeast(sizes: seq<nat>)
    requires forall k :: 0 <= k < |sizes| ==> sizes[k] > 0
    ensures Charged(sizes) >= |sizes| * StepUs(1)
  {
    if sizes != [] {
      ChargeAtLeast(sizes[..|sizes| - 1]);
      assert |sizes| * StepUs(1) == (|sizes| - 1) * StepUs(1) + StepUs(1);
    }
  }

  /** No run lets a yield armed by p take more than 128 rounds. */
  ghost predicate WithinCap(p: Plan, interval: int) {
    forall calls, k :: 0 <= k < |Played(Fields(0, 0, 0, 0, 0), interval, calls).records| &&
                       Played(Fields(0, 0, 0, 0, 0), interval, calls).records[k].p == p ==>
                         |Played(Fields(0, 0, 0, 0, 0), interval, calls).records[k].sizes| <= MAX_STEPS
  }

  /** Whatever becomes of the batch, a yield stays within 128 rounds if and only if its budget is at most 128 rounds
      of a single stream, which is known when it is armed. */
  lemma CapExactly(p: Plan, interval: int)
    requires Arms(p)
    ensures WithinCap(p, interval) <==> BudgetOf(p, interval) <= MAX_STEPS * StepUs(1)
  {
    if BudgetOf(p, interval) > MAX_STEPS * StepUs(1) {
      LonelyRun(p, interval, MAX_STEPS + 1);
      OnesCharge(MAX_STEPS + 1);
      assert |Played(Fields(0, 0, 0, 0, 0), interval, Lonely(p, MAX_STEPS + 1)).records[0].sizes| > MAX_STEPS;
    } else {
      forall calls, k | 0 <= k < |Played(Fields(0, 0, 0, 0, 0), interval, calls).records| &&
                        Played(Fields(0, 0, 0, 0, 0), interval, calls).records[k].p == p
        ensures |Played(Fields(0, 0, 0, 0, 0), interval, calls).records[k].sizes| <= MAX_STEPS
      {
        RunBooks(interval, calls);
        WithinRounds(Played(Fields(0, 0, 0, 0, 0), interval, calls).records[k], interval);
      }
    }
  }

  lemma WithinRounds(y: Yield, interval: int)
    requires Good(y, interval) && y.budget <= MAX_STEPS * StepUs(1)
    ensures |y.sizes| <= MAX_STEPS
  {
    if y.sizes != [] {
      var n := |y.sizes| - 1;
      ChargeAtLeast(y.sizes[..n]);
      hide Budget, Charged;
      Divides(MAX_STEPS, n, StepUs(1));
      assert n != MAX_STEPS;
    }
  }

  /** The condition can fail: a yield armed beside 8 streams at a share of 90 percent, which then shrink to one, is
      still open after 256 rounds. */
  lemma ShrinkingBatchOutlastsCap()
    ensures var p := Plan(Some(Batch(true, true, false, true, 90, 8192, 0)), Some(Running(8, false)), false, false);
            var g := Played(Fields(0, 0, 0, 0, 0), 2, Lonely(p, 256));
            && Arms(p) && !WithinCap(p, 2)
            && |g.records| == 1 && g.records[0].p == p && g.records[0].end == Open && |g.records[0].sizes| == 256
  {
    var p := Plan(Some(Batch(true, true, false, true, 90, 8192, 0)), Some(Running(8, false)), false, false);
    assert ChunkUs(8192, 0) == 1354500;
    assert CeilDiv(90 * 1354500, 10) == 12190500;
    assert BudgetOf(p, 2) == 12190500;
    LonelyRun(p, 2, 256);
    OnesCharge(256);
    CapExactly(p, 2);
  }
}
