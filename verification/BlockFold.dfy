/**
 * The folded block verification (adapter/block_verify_fold.py): three kernels, two row sums and an arg-max
 * that must give, bit for bit, what block_accept_probs gives. The float operations stay uninterpreted. The
 * kernels run over padded lanes and vocabulary chunks; a value is picked out of a vector of lanes by adding
 * zeros in whatever order the reduction takes, so the only laws needed are about adding zeros to values
 * that are not a negative zero.
 */
module BlockFold {
  import opened Wrappers
  import opened FloatOps
  import opened BlockAccept
  import opened Lanes

  // ------------------------------------------------------------------------------------------
  // lane reductions
  // ------------------------------------------------------------------------------------------

  function LaneSum<F>(o: Ops<F>, t: Tree, v: nat -> F): F {
    match t
    case Leaf(j) => v(j)
    case Node(l, r) => o.add(LaneSum(o, l, v), LaneSum(o, r, v))
  }

  /** where(gi == i && on, x, 0) as a vector of lanes */
  function OnlyLane<F>(o: Ops<F>, v: seq<F>, i: int): nat -> F {
    (j: nat) => if j == i && j < |v| then v[j] else o.zero
  }

  /** _pick: the sum over lanes of where(gi == i, v, 0) */
  function Pick<F>(o: Ops<F>, t: Tree, v: seq<F>, i: int): F { LaneSum(o, t, OnlyLane(o, v, i)) }

  /**
   * The facts about adding and multiplying zeros that bit equality rests on; `ok` holds of the floats whose
   * sign bit is clear, and of NaN.
   */
  ghost predicate Laws<F(!new)>(o: Ops<F>, ok: F -> bool) {
    && ok(o.zero) && ok(o.one)
    && (forall x :: ok(x) ==> o.add(x, o.zero) == x && o.add(o.zero, x) == x)
    && (forall x, y :: ok(x) && ok(y) ==> ok(o.div(x, o.max(y, o.tiny))))
    && (forall x, y :: ok(x) && ok(y) ==> ok(o.min(o.mul(x, y), o.one)))
    && o.mul(o.zero, o.zero) == o.zero
  }

  lemma {:induction false} PickNone<F(!new)>(o: Ops<F>, ok: F -> bool, t: Tree, v: seq<F>, i: int)
    requires Laws(o, ok) && (0 <= i ==> Count(t, i) == 0)
    ensures Pick(o, t, v, i) == o.zero
  {
    match t
    case Leaf(j) =>
    case Node(l, r) => PickNone(o, ok, l, v, i); PickNone(o, ok, r, v, i);
  }

  lemma {:induction false} PickOne<F(!new)>(o: Ops<F>, ok: F -> bool, t: Tree, v: seq<F>, i: nat)
    requires Laws(o, ok) && Count(t, i) == 1 && i < |v| && ok(v[i])
    ensures Pick(o, t, v, i) == v[i]
  {
    match t
    case Leaf(j) =>
    case Node(l, r) =>
      if Count(l, i) == 1 {
        PickOne(o, ok, l, v, i);
        PickNone(o, ok, r, v, i);
      } else {
        PickNone(o, ok, l, v, i);
        PickOne(o, ok, r, v, i);
      }
  }

  /** In any reduction order, picking a lane returns that lane, and picking no lane returns zero. */
  lemma PickIs<F(!new)>(o: Ops<F>, ok: F -> bool, t: Tree, v: seq<F>, i: int)
    requires Laws(o, ok) && Covers(t, |v|) && (0 <= i < |v| ==> ok(v[i]))
    ensures Pick(o, t, v, i) == if 0 <= i < |v| then v[i] else o.zero
  {
    if 0 <= i < |v| { PickOne(o, ok, t, v, i); } else { PickNone(o, ok, t, v, i); }
  }

  // ------------------------------------------------------------------------------------------
  // the launch
  // ------------------------------------------------------------------------------------------

  /** What a launch passes to the kernels: [bs, G+1, V] target and [bs, G, V] draft probabilities and the draws. */
  datatype Launch<!F> = Launch(
    bs: nat, G: nat, GP: nat, V: nat, CH: nat,
    TP: seq<seq<seq<F>>>, DP: seq<seq<seq<F>>>, X: seq<seq<nat>>, ETA: seq<seq<F>>, GUM: seq<seq<F>>,
    LIVE: Option<seq<int>>, LIVE_SUB: int, lanes: Tree)

  predicate Sized<F>(a: Launch<F>) {
    && a.G >= 1 && a.V >= 1 && a.CH >= 1 && a.GP >= a.G + 1
    && |a.TP| == |a.DP| == |a.X| == |a.ETA| == |a.GUM| == a.bs
    && (a.LIVE.Some? ==> |a.LIVE.value| == a.bs)
  }

  /** The request block_accept_probs sees in row b, with verify lengths less LIVE_SUB. */
  function RequestOf<F>(a: Launch<F>, b: nat): Request<F>
    requires Sized(a) && b < a.bs
  {
    Request(a.V, a.X[b], a.TP[b], a.DP[b], a.ETA[b], a.GUM[b],
            if a.LIVE.None? then None else Some(a.LIVE.value[b] - a.LIVE_SUB))
  }

  /** A request of the launch's shape, with no negative zero among its probabilities. */
  ghost predicate Fits<F>(ok: F -> bool, a: Launch<F>, r: Request<F>) {
    && Shaped(r) && |r.X| == a.G && r.V == a.V
    && (forall i, c :: 0 <= i < |r.P| && 0 <= c < r.V ==> ok(r.P[i][c]))
    && (forall i, c :: 0 <= i < |r.Q| && 0 <= c < r.V ==> ok(r.Q[i][c]))
  }

  ghost predicate Ready<F(!new)>(o: Ops<F>, ok: F -> bool, a: Launch<F>) {
    && Laws(o, ok) && Sized(a) && Covers(a.lanes, a.GP)
    && forall b :: 0 <= b < a.bs ==> Fits(ok, a, RequestOf(a, b))
  }

  lemma {:induction false} WeightOk<F(!new)>(o: Ops<F>, ok: F -> bool, a: Launch<F>, r: Request<F>, i: nat)
    requires Laws(o, ok) && Fits(ok, a, r) && i <= a.G
    ensures ok(WAt(o, r, i))
    ensures i < a.G ==> ok(RatioAt(o, r, i))
  {
    if i > 0 { WeightOk(o, ok, a, r, i - 1); }
  }

  // ------------------------------------------------------------------------------------------
  // the kernels
  // ------------------------------------------------------------------------------------------

  /** What _scalars leaves on the lanes: alive and w_1..w_g, dead and zero beyond the drafts. */
  ghost predicate ScalarsOf<F>(o: Ops<F>, a: Launch<F>, r: Request<F>, alive: seq<bool>, w: seq<F>) {
    && Shaped(r) && |r.X| == a.G
    && |alive| == |w| == a.GP
    && (forall i :: 0 <= i < a.GP ==> alive[i] == Alive(r, i))
    && (forall i :: 0 <= i < a.GP ==> w[i] == if i < a.G then WAt(o, r, i + 1) else o.zero)
  }

  method RatioLanes<F(!new)>(o: Ops<F>, ghost ok: F -> bool, a: Launch<F>, b: nat)
    returns (alive: seq<bool>, ratio: seq<F>)
    requires Ready(o, ok, a) && b < a.bs
    ensures |alive| == |ratio| == a.GP
    ensures Fits(ok, a, RequestOf(a, b))
    ensures forall i :: 0 <= i < a.GP ==> alive[i] == Alive(RequestOf(a, b), i)
    ensures forall i :: 0 <= i < a.GP ==> ratio[i] == if i < a.G then RatioAt(o, RequestOf(a, b), i) else o.zero
  {
    var r := RequestOf(a, b);
    assert Fits(ok, a, r);
    hide Laws, Covers, Ready;
    alive, ratio := [], [];
    for gi := 0 to a.GP
      invariant |alive| == |ratio| == gi
      invariant forall i :: 0 <= i < gi ==> alive[i] == Alive(r, i)
      invariant forall i :: 0 <= i < gi ==> ratio[i] == if i < a.G then RatioAt(o, r, i) else o.zero
    {
      var gok := gi < a.G;
      var x := if gok then a.X[b][gi] else 0;
      var p, q := o.zero, o.zero;
      if gok { p, q := a.TP[b][gi][x], a.DP[b][gi][x]; }
      var value := o.div(p, o.max(q, o.tiny));
      var on := gok;
      if a.LIVE.Some? { on := gok && gi < a.LIVE.value[b] - a.LIVE_SUB; }
      alive, ratio := alive + [on], ratio + [if on then value else o.zero];
    }
  }

  method Scalars<F(!new)>(o: Ops<F>, ghost ok: F -> bool, a: Launch<F>, b: nat) returns (alive: seq<bool>, w: seq<F>)
    requires Ready(o, ok, a) && b < a.bs
    ensures Fits(ok, a, RequestOf(a, b)) && ScalarsOf(o, a, RequestOf(a, b), alive, w)
  {
    var ratio;
    alive, ratio := RatioLanes(o, ok, a, b);
    w := WeightLanes(o, ok, a, RequestOf(a, b), ratio);
    hide Covers, Laws, RatioAt, Pick, RequestOf, WAt;
  }

  /** The recursion over the lanes' ratios, one picked lane at a time. */
  method WeightLanes<F(!new)>(o: Ops<F>, ghost ok: F -> bool, a: Launch<F>, ghost r: Request<F>, ratio: seq<F>)
    returns (w: seq<F>)
    requires Laws(o, ok) && Covers(a.lanes, a.GP) && Fits(ok, a, r) && a.GP >= a.G + 1 && |ratio| == a.GP
    requires forall i :: 0 <= i < a.GP ==> ratio[i] == if i < a.G then RatioAt(o, r, i) else o.zero
    ensures |w| == a.GP && forall j :: 0 <= j < a.GP ==> w[j] == if j < a.G then WAt(o, r, j + 1) else o.zero
  {
    var cur := o.one;
    w := seq(a.GP, _ => o.zero);
    assert cur == WAt(o, r, 0);
    hide Covers, Laws, RatioAt, Pick, WAt, Fits;
    for i := 0 to a.G
      invariant |w| == a.GP && cur == WAt(o, r, i)
      invariant forall j :: 0 <= j < a.GP ==> w[j] == if j < i then WAt(o, r, j + 1) else o.zero
    {
      NextWeight(o, ok, a, r, ratio, i);
      cur := o.min(o.mul(cur, Pick(o, a.lanes, ratio, i)), o.one);
      w := w[i := cur];
    }
  }

  lemma NextWeight<F(!new)>(o: Ops<F>, ok: F -> bool, a: Launch<F>, r: Request<F>, ratio: seq<F>, i: nat)
    requires Laws(o, ok) && Covers(a.lanes, a.GP) && Fits(ok, a, r) && i < a.G < a.GP == |ratio|
    requires ratio[i] == RatioAt(o, r, i)
    ensures WAt(o, r, i + 1) == o.min(o.mul(WAt(o, r, i), Pick(o, a.lanes, ratio, i)), o.one)
  {
    WeightOk(o, ok, a, r, i);
    PickIs(o, ok, a.lanes, ratio, i);
    hide Laws, Covers, RatioAt, Pick;
  }

  /** alive[i] as 1.0 / 0.0, by a lane sum */
  method AliveAsFloat<F(!new)>(o: Ops<F>, ghost ok: F -> bool, t: Tree, alive: seq<bool>, i: nat) returns (x: F)
    requires Laws(o, ok) && Covers(t, |alive|) && i < |alive|
    ensures x == if alive[i] then o.one else o.zero
  {
    var ones := seq(|alive|, j requires 0 <= j < |alive| => if alive[j] then o.one else o.zero);
    PickIs(o, ok, t, ones, i);
    x := Pick(o, t, ones, i);
  }

  // ------------------------------------------------------------------------------------------
  // stores into [bs, rows, V] buffers, one vocabulary chunk at a time
  // ------------------------------------------------------------------------------------------

  type Cell = (nat, nat, nat)

  /** The cells of a buffer that hold what is wanted there (and those outside it). */
  ghost function RightCells<F>(buf: array3<F>, want: (nat, nat, nat) -> F): iset<Cell>
    reads buf
  {
    iset b: nat, i: nat, j: nat |
      (b < buf.Length0 && i < buf.Length1 && j < buf.Length2 ==> buf[b, i, j] == want(b, i, j)) :: (b, i, j)
  }

  /** Row i of request b, the CH columns from start. */
  ghost function RowCells(CH: nat, b: nat, i: nat, start: nat): iset<Cell> {
    iset j: nat | start <= j < start + CH :: (b, i, j)
  }

  ghost function ChunkCells(CH: nat, b: nat, rows: nat, start: nat): iset<Cell> {
    iset i: nat, j: nat | i < rows && start <= j < start + CH :: (b, i, j)
  }

  lemma ChunkGrows(CH: nat, b: nat, rows: nat, start: nat)
    ensures ChunkCells(CH, b, 0, start) == iset{}
    ensures ChunkCells(CH, b, rows + 1, start) == ChunkCells(CH, b, rows, start) + RowCells(CH, b, rows, start)
  {}

  /** tl.store under the mask offs < V: the row's chunk gets right, and no right cell gets wrong. */
  method Store<F>(buf: array3<F>, ghost want: (nat, nat, nat) -> F, CH: nat, b: nat, i: nat, start: nat, x: seq<F>)
    requires b < buf.Length0 && i < buf.Length1 && |x| == CH
    requires forall lane :: 0 <= lane < CH && start + lane < buf.Length2 ==> x[lane] == want(b, i, start + lane)
    modifies buf
    ensures RowCells(CH, b, i, start) <= RightCells(buf, want)
    ensures old(RightCells(buf, want)) <= RightCells(buf, want)
  {
    forall j | start <= j < start + CH && j < buf.Length2 {
      buf[b, i, j] := x[j - start];
    }
    forall j: nat | start <= j < start + CH ensures (b, i, j) in RightCells(buf, want) {
      assert j < buf.Length2 ==> x[j - start] == want(b, i, start + (j - start));
    }
  }

  // ------------------------------------------------------------------------------------------
  // the kernels
  // ------------------------------------------------------------------------------------------

  /** The S operand: the residual of row i + 1. */
  ghost function TermsOf<F>(o: Ops<F>, a: Launch<F>): (nat, nat, nat) -> F {
    (b: nat, i: nat, j: nat) =>
      if Sized(a) && b < a.bs && Shaped(RequestOf(a, b)) && i + 1 < |a.X[b]| && j < a.V
      then ResidualAt(o, RequestOf(a, b), i + 1, j) else o.zero
  }

  /** clamp_min(w · p - q, 0) at one column; no draft row means zero, and the row is scaled by a when given. */
  function LaneTerm<F>(o: Ops<F>, w: F, p: seq<F>, q: seq<F>, hasQ: bool, scale: Option<F>, col: nat): F
    requires col < |p| && (hasQ ==> col < |q|)
  {
    var row := if hasQ then q[col] else o.zero;
    o.max(o.sub(o.mul(w, p[col]), if scale.Some? then o.mul(row, scale.value) else row), o.zero)
  }

  /** The lanes of one chunk; loads are masked beyond V. */
  method ResidualLanes<F>(o: Ops<F>, CH: nat, V: nat, start: nat, w: F, p: seq<F>, q: seq<F>, hasQ: bool,
                          scale: Option<F>)
    returns (x: seq<F>)
    requires |p| == V && (hasQ ==> |q| == V)
    ensures |x| == CH
    ensures forall lane :: 0 <= lane < CH && start + lane < V ==>
              x[lane] == LaneTerm(o, w, p, q, hasQ, scale, start + lane)
  {
    x := [];
    for lane := 0 to CH
      invariant |x| == lane
      invariant forall l :: 0 <= l < lane && start + l < V ==> x[l] == LaneTerm(o, w, p, q, hasQ, scale, start + l)
    {
      var offs := start + lane;
      var t, d := o.zero, o.zero;
      if offs < V { t := p[offs]; }
      if offs < V && hasQ { d := q[offs]; }
      if scale.Some? { d := o.mul(d, scale.value); }
      x := x + [o.max(o.sub(o.mul(w, t), d), o.zero)];
    }
  }

  /** One program of the terms kernel: request b, vocabulary chunk c. */
  method TermsProgram<F(!new)>(o: Ops<F>, ghost ok: F -> bool, a: Launch<F>, terms: array3<F>, b: nat, c: nat)
    requires Ready(o, ok, a) && b < a.bs
    requires terms.Length0 == a.bs && terms.Length1 == a.G - 1 && terms.Length2 == a.V
    modifies terms
    ensures ChunkCells(a.CH, b, a.G - 1, c * a.CH) <= RightCells(terms, TermsOf(o, a))
    ensures old(RightCells(terms, TermsOf(o, a))) <= RightCells(terms, TermsOf(o, a))
  {
    var start := c * a.CH;
    var alive, w := Scalars(o, ok, a, b);
    ChunkGrows(a.CH, b, 0, start);
    assert Sized(a);
    hide *;
    for i := 0 to a.G - 1
      invariant ChunkCells(a.CH, b, i, start) <= RightCells(terms, TermsOf(o, a))
      invariant old(RightCells(terms, TermsOf(o, a))) <= RightCells(terms, TermsOf(o, a))
    {
      var x := TermsRow(o, ok, a, b, start, alive, w, i);
      Store(terms, TermsOf(o, a), a.CH, b, i, start, x);
      ChunkGrows(a.CH, b, i, start);
    }
  }

  method TermsRow<F(!new)>(o: Ops<F>, ghost ok: F -> bool, a: Launch<F>, b: nat, start: nat,
                           alive: seq<bool>, w: seq<F>, i: nat) returns (x: seq<F>)
    requires Ready(o, ok, a) && b < a.bs && i < a.G - 1
    requires ScalarsOf(o, a, RequestOf(a, b), alive, w)
    ensures |x| == a.CH
    ensures forall lane :: 0 <= lane < a.CH && start + lane < a.V ==>
              x[lane] == TermsOf(o, a)(b, i, start + lane)
  {
    var r := RequestOf(a, b);
    assert Fits(ok, a, r);
    assert |r.P[i + 1]| == a.V == |r.Q[i + 1]|;
    var wi, an;
    wi, an := PickedTerm(o, ok, a, r, alive, w, i);
    TermsAre(o, ok, a, b, i, wi, an);
    hide Laws, Covers, Ready, WAt, ScalarsOf, TermsOf, LaneTerm, Alive, RequestOf, Fits, Sized, Shaped;
    x := ResidualLanes(o, a.CH, a.V, start, wi, r.P[i + 1], r.Q[i + 1], true, if a.LIVE.Some? then Some(an) else None);
  }

  /** With the picked weight and flag the kernel's expression is the residual. */
  lemma TermsAre<F(!new)>(o: Ops<F>, ok: F -> bool, a: Launch<F>, b: nat, i: nat, wi: F, an: F)
    requires Ready(o, ok, a) && b < a.bs && i < a.G - 1 && Fits(ok, a, RequestOf(a, b))
    requires wi == WAt(o, RequestOf(a, b), i + 1)
    requires an == if Alive(RequestOf(a, b), i + 1) then o.one else o.zero
    ensures forall j: nat :: j < a.V ==>
              (TermsOf(o, a)(b, i, j)
               == LaneTerm(o, wi, RequestOf(a, b).P[i + 1], RequestOf(a, b).Q[i + 1], true,
                           if a.LIVE.Some? then Some(an) else None, j))
  {
    hide Covers, WAt;
  }

  method PickedTerm<F(!new)>(o: Ops<F>, ghost ok: F -> bool, a: Launch<F>, ghost r: Request<F>,
                             alive: seq<bool>, w: seq<F>, i: nat) returns (wi: F, an: F)
    requires Laws(o, ok) && Covers(a.lanes, a.GP) && Fits(ok, a, r) && i < a.G && a.GP >= a.G + 1
    requires ScalarsOf(o, a, r, alive, w)
    ensures wi == WAt(o, r, i + 1)
    ensures an == if Alive(r, i + 1) then o.one else o.zero
  {
    WeightOk(o, ok, a, r, i + 1);
    PickIs(o, ok, a.lanes, w, i);
    wi := Pick(o, a.lanes, w, i);
    an := AliveAsFloat(o, ok, a.lanes, alive, i + 1);
  }

  /** s holds the reduced masses of request b at the inner positions. */
  ghost predicate Summed<F>(o: Ops<F>, a: Launch<F>, s: seq<F>, b: nat) {
    && Sized(a) && b < a.bs && Shaped(RequestOf(a, b)) && |RequestOf(a, b).X| == a.G
    && |s| >= a.G - 1 && forall i :: 0 <= i < a.G - 1 ==> s[i] == MassAt(o, RequestOf(a, b), i + 1)
  }

  /** _decide: tau from the reduced S, w_tau and alive[tau]. */
  method Decide<F(!new)>(o: Ops<F>, ghost ok: F -> bool, a: Launch<F>, b: nat, s: seq<F>)
    returns (tau: nat, wt: F, at: F)
    requires Ready(o, ok, a) && b < a.bs
    requires Summed(o, a, s, b)
    ensures Fits(ok, a, RequestOf(a, b))
    ensures tau == Tau(o, RequestOf(a, b)) && wt == WAt(o, RequestOf(a, b), tau)
    ensures at == if a.LIVE.Some? && !Alive(RequestOf(a, b), tau) then o.zero else o.one
  {
    var alive, w := Scalars(o, ok, a, b);
    var r := RequestOf(a, b);
    assert Laws(o, ok) && Covers(a.lanes, a.GP) && (a.LIVE.Some? <==> r.live.Some?);
    assert a.G >= 1 && a.GP >= a.G + 1 && |r.X| == a.G && |alive| == a.GP;
    assert forall i :: 0 <= i < a.GP ==> alive[i] == Alive(r, i);
    hide Ready, Sized, Laws, Covers, Fits, ScalarsOf, MassAt, Pick, RequestOf, TauUpTo, Passes;
    tau := TauOf(o, a, r, alive, w, s);
    TauIs(o, r, tau);
    wt, at := o.one, o.one;
    var alone;
    if tau != 0 {
      wt, alone := PickedTerm(o, ok, a, r, alive, w, tau - 1);
    } else {
      alone := AliveAsFloat(o, ok, a.lanes, alive, tau);
    }
    if a.LIVE.Some? { at := alone; }
  }

  method TauOf<F>(o: Ops<F>, a: Launch<F>, r: Request<F>, alive: seq<bool>, w: seq<F>, s: seq<F>) returns (tau: nat)
    requires a.G >= 1 && a.GP >= a.G + 1 && ScalarsOf(o, a, r, alive, w)
    requires |s| >= a.G - 1 && forall i :: 0 <= i < a.G - 1 ==> s[i] == MassAt(o, r, i + 1)
    ensures tau <= a.G && (tau > 0 ==> Passes(o, r, tau))
    ensures forall i :: tau < i <= a.G ==> !Passes(o, r, i)
  {
    hide MassAt, WAt;
    tau := 0;
    for gi := 0 to a.GP
      invariant tau <= gi && tau <= a.G
      invariant tau > 0 ==> Passes(o, r, tau)
      invariant forall j :: tau < j <= gi && j <= a.G ==> !Passes(o, r, j)
    {
      var sum := if gi < a.G - 1 then s[gi] else o.zero;
      var h := o.div(sum, o.max(o.add(sum, o.sub(o.one, w[gi])), o.tiny));
      if gi == a.G - 1 { h := w[gi]; }
      var eta := if gi < a.G then r.eta[gi] else o.two;
      assert gi < a.G ==> h == HAt(o, r, gi + 1);
      var passed := o.atMost(eta, h) && alive[gi];
      tau := if passed && gi + 1 > tau then gi + 1 else tau;
    }
  }

  /** The mass operand: the residual of row tau. */
  ghost function ResidualsOf<F>(o: Ops<F>, a: Launch<F>): (nat, nat, nat) -> F {
    (b: nat, i: nat, j: nat) =>
      if Sized(a) && b < a.bs && Shaped(RequestOf(a, b)) && j < a.V == RequestOf(a, b).V
      then ResidualAt(o, RequestOf(a, b), Tau(o, RequestOf(a, b)), j) else o.zero
  }

  /** The operand of the arg-max. */
  ghost function KeysOf<F>(o: Ops<F>, a: Launch<F>): (nat, nat, nat) -> F {
    (b: nat, i: nat, j: nat) =>
      if Sized(a) && b < a.bs && Shaped(RequestOf(a, b)) && j < a.V == RequestOf(a, b).V
      then KeysAt(o, RequestOf(a, b), Tau(o, RequestOf(a, b)))[j] else o.zero
  }

  ghost function TauAt<F>(o: Ops<F>, a: Launch<F>, b: nat): nat {
    if Sized(a) && b < a.bs && Shaped(RequestOf(a, b)) then Tau(o, RequestOf(a, b)) else 0
  }

  /** One program of the residual kernel; the first chunk's program also stores tau. */
  method ResidualProgram<F(!new)>(o: Ops<F>, ghost ok: F -> bool, a: Launch<F>, s: seq<F>, res: array3<F>,
                                  taus: array<nat>,
                                  b: nat, c: nat)
    requires Ready(o, ok, a) && b < a.bs
    requires Summed(o, a, s, b)
    requires res.Length0 == a.bs == taus.Length && res.Length1 == 1 && res.Length2 == a.V
    modifies res, taus
    ensures ChunkCells(a.CH, b, 1, c * a.CH) <= RightCells(res, ResidualsOf(o, a))
    ensures old(RightCells(res, ResidualsOf(o, a))) <= RightCells(res, ResidualsOf(o, a))
    ensures c == 0 ==> taus[b] == TauAt(o, a, b)
    ensures forall k :: 0 <= k < a.bs ==> taus[k] == old(taus[k]) || taus[k] == TauAt(o, a, k)
  {
    hide Laws, Covers, Summed, MassAt, Tau, ChunkCells, RowCells, RightCells;
    var start := c * a.CH;
    var tau, wt, at := Decide(o, ok, a, b, s);
    assert tau == TauAt(o, a, b);
    var x := ResidualsRow(o, ok, a, b, start, tau, wt, at);
    hide Ready, Laws, Covers, Fits, RequestOf, ResidualsOf, MassAt, Tau, ChunkCells, RowCells, RightCells, Summed,
      Shaped, TauAt;
    Store(res, ResidualsOf(o, a), a.CH, b, 0, start, x);
    ChunkGrows(a.CH, b, 0, start);
    if c == 0 { taus[b] := tau; }
  }

  method ResidualsRow<F(!new)>(o: Ops<F>, ghost ok: F -> bool, a: Launch<F>, b: nat, start: nat, tau: nat, wt: F, at: F)
    returns (x: seq<F>)
    requires Ready(o, ok, a) && b < a.bs && Fits(ok, a, RequestOf(a, b))
    requires tau == Tau(o, RequestOf(a, b)) && wt == WAt(o, RequestOf(a, b), tau)
    requires at == if a.LIVE.Some? && !Alive(RequestOf(a, b), tau) then o.zero else o.one
    ensures |x| == a.CH
    ensures forall lane :: 0 <= lane < a.CH && start + lane < a.V ==>
              x[lane] == ResidualsOf(o, a)(b, 0, start + lane)
  {
    var r := RequestOf(a, b);
    assert o.mul(o.zero, o.zero) == o.zero && (a.LIVE.Some? <==> r.live.Some?);
    ResidualsOfRow(o, ok, a, b);
    assert Shaped(r) && |r.X| == a.G && r.V == a.V;
    hide Covers, Ready, Sized, Laws, Fits, Alive, WAt, Tau, ResidualsOf, RequestOf, DraftAt;
    var draft := if tau < a.G then r.Q[tau] else [];
    x := ResidualLanes(o, a.CH, a.V, start, wt, r.P[tau], draft, tau < a.G, if a.LIVE.Some? then Some(at) else None);
    forall lane | 0 <= lane < a.CH && start + lane < a.V
      ensures x[lane] == ResidualsOf(o, a)(b, 0, start + lane)
    {
      PaddedDraft(o, r, tau, start + lane, at);
    }
  }

  /** The masked, scaled draft value a lane reads is the one of the padded draft rows. */
  lemma PaddedDraft<F>(o: Ops<F>, r: Request<F>, tau: nat, j: nat, at: F)
    requires Shaped(r) && tau <= |r.X| && j < r.V && o.mul(o.zero, o.zero) == o.zero
    requires at == if r.live.Some? && !Alive(r, tau) then o.zero else o.one
    ensures var row := if tau < |r.X| then r.Q[tau][j] else o.zero;
            (if r.live.Some? then o.mul(row, at) else row) == DraftAt(o, r, tau, j)
  {}

  lemma ResidualsOfRow<F>(o: Ops<F>, ok: F -> bool, a: Launch<F>, b: nat)
    requires Sized(a) && b < a.bs && Fits(ok, a, RequestOf(a, b))
    ensures forall j: nat :: j < a.V ==>
              ResidualsOf(o, a)(b, 0, j) == ResidualAt(o, RequestOf(a, b), Tau(o, RequestOf(a, b)), j)
  {}

  /** One program of the keys kernel. */
  method KeysProgram<F(!new)>(o: Ops<F>, ghost ok: F -> bool, a: Launch<F>, res: seq<F>, mass: F, tau: nat,
                              keys: array3<F>,
                              b: nat, c: nat)
    requires Ready(o, ok, a) && b < a.bs && Fits(ok, a, RequestOf(a, b))
    requires tau == Tau(o, RequestOf(a, b)) && res == ResidualRowAt(o, RequestOf(a, b), tau)
    requires mass == MassAt(o, RequestOf(a, b), tau)
    requires keys.Length0 == a.bs && keys.Length1 == 1 && keys.Length2 == a.V
    modifies keys
    ensures ChunkCells(a.CH, b, 1, c * a.CH) <= RightCells(keys, KeysOf(o, a))
    ensures old(RightCells(keys, KeysOf(o, a))) <= RightCells(keys, KeysOf(o, a))
  {
    var start := c * a.CH;
    var x := KeysRow(o, ok, a, res, mass, tau, b, start);
    hide Ready, Laws, Covers, Fits, RequestOf, KeysOf, MassAt, Tau, ChunkCells, RowCells, RightCells;
    Store(keys, KeysOf(o, a), a.CH, b, 0, start, x);
    ChunkGrows(a.CH, b, 0, start);
  }

  method KeysRow<F(!new)>(o: Ops<F>, ghost ok: F -> bool, a: Launch<F>, res: seq<F>, mass: F, tau: nat, b: nat,
                          start: nat)
    returns (x: seq<F>)
    requires Ready(o, ok, a) && b < a.bs && Fits(ok, a, RequestOf(a, b))
    requires tau == Tau(o, RequestOf(a, b)) && res == ResidualRowAt(o, RequestOf(a, b), tau)
    requires mass == MassAt(o, RequestOf(a, b), tau)
    ensures |x| == a.CH
    ensures forall lane :: 0 <= lane < a.CH && start + lane < a.V ==> x[lane] == KeysOf(o, a)(b, 0, start + lane)
  {
    var r := RequestOf(a, b);
    hide Covers, Ready, Laws, MassAt, TauUpTo, ResidualAt;
    x := [];
    for lane := 0 to a.CH
      invariant |x| == lane
      invariant forall l :: 0 <= l < lane && start + l < a.V ==> x[l] == KeysAt(o, r, tau)[start + l]
    {
      var offs := start + lane;
      var rv, p, gum := o.zero, o.zero, o.one;
      if offs < a.V { rv, p, gum := res[offs], r.P[tau][offs], r.gumbel[offs]; }
      var rn := if o.positive(mass) then o.div(rv, o.max(mass, o.tiny)) else p;
      assert offs < a.V ==> rn == WeightAt(o, r, tau, offs);
      x := x + [o.div(rn, gum)];
    }
  }

  // ------------------------------------------------------------------------------------------
  // the launches
  // ------------------------------------------------------------------------------------------

  /** The sizes fold launches with: a chunk of at most CHUNK columns, lanes to spare for index g. */
  method LaunchSizes(CHUNK: nat, V: nat, g: nat) returns (ch: nat, gp: nat)
    requires CHUNK >= 1
    ensures 1 <= ch <= CHUNK && (ch == CHUNK || ch >= V) && gp >= g + 1 && gp >= 2
  {
    var wide := Pow2(V);
    ch := if CHUNK <= wide then CHUNK else wide;
    var lanes := Pow2(g + 1);
    gp := if lanes >= 2 then lanes else 2;
  }

  function Chunks(V: nat, CH: nat): nat
    requires CH >= 1
  {
    (V + CH - 1) / CH
  }

  /** Every column lies in exactly one chunk of the grid. */
  lemma ChunkOfColumn(V: nat, CH: nat, j: nat)
    requires CH >= 1 && j < V
    ensures j / CH < Chunks(V, CH) && j / CH * CH <= j < j / CH * CH + CH
    ensures forall c: nat :: c * CH <= j < c * CH + CH ==> c == j / CH
  {
    var q, n := j / CH, Chunks(V, CH);
    assert j == q * CH + j % CH;
    assert V + CH - 1 == n * CH + (V + CH - 1) % CH;
    hide Chunks;
    if q >= n { ChunkMono(n, q, CH); }
    forall c: nat | c * CH <= j < c * CH + CH ensures c == q {
      if c < q { ChunkMono(c + 1, q, CH); }
      if q < c { ChunkMono(q + 1, c, CH); }
    }
  }

  lemma ChunkMono(a: nat, b: nat, CH: nat)
    requires a <= b
    ensures a * CH <= b * CH
    ensures a > 0 ==> a * CH == (a - 1) * CH + CH
  {
    assert (b - a) * CH >= 0;
  }

  /** The programs of a launch in the order the device ran them: each one at least once. */
  ghost predicate IsGrid(order: seq<(nat, nat)>, bs: nat, chunks: nat) {
    && (forall k :: 0 <= k < |order| ==> order[k].0 < bs && order[k].1 < chunks)
    && (forall b: nat, c: nat :: b < bs && c < chunks ==> (b, c) in order)
  }

  /** The cells the first n programs are responsible for are all right. */
  ghost predicate Done(order: seq<(nat, nat)>, n: nat, CH: nat, rows: nat, right: iset<Cell>) {
    n <= |order| && forall k :: 0 <= k < n ==> ChunkCells(CH, order[k].0, rows, order[k].1 * CH) <= right
  }

  lemma DoneGrows(order: seq<(nat, nat)>, n: nat, CH: nat, rows: nat, was: iset<Cell>, right: iset<Cell>)
    requires n < |order| && was <= right
    ensures Done(order, 0, CH, rows, right)
    ensures Done(order, n, CH, rows, was) && ChunkCells(CH, order[n].0, rows, order[n].1 * CH) <= right
            ==> Done(order, n + 1, CH, rows, right)
  {
    hide ChunkCells;
  }

  /** Once every program has run, every cell of the buffer is right. */
  lemma GridCovers<F>(order: seq<(nat, nat)>, buf: array3<F>, want: (nat, nat, nat) -> F, CH: nat)
    requires CH >= 1 && IsGrid(order, buf.Length0, Chunks(buf.Length2, CH))
    requires Done(order, |order|, CH, buf.Length1, RightCells(buf, want))
    ensures forall b, i, j :: 0 <= b < buf.Length0 && 0 <= i < buf.Length1 && 0 <= j < buf.Length2 ==>
              buf[b, i, j] == want(b, i, j)
  {
    hide Chunks;
    forall b, i, j | 0 <= b < buf.Length0 && 0 <= i < buf.Length1 && 0 <= j < buf.Length2
      ensures buf[b, i, j] == want(b, i, j)
    {
      ChunkOfColumn(buf.Length2, CH, j);
      var c := j / CH;
      assert (b, c) in order;
      assert (b, i, j) in ChunkCells(CH, b, buf.Length1, c * CH);
    }
  }

  method TermsLaunch<F(!new)>(o: Ops<F>, ghost ok: F -> bool, a: Launch<F>, terms: array3<F>, order: seq<(nat, nat)>)
    requires Ready(o, ok, a) && IsGrid(order, a.bs, Chunks(a.V, a.CH))
    requires terms.Length0 == a.bs && terms.Length1 == a.G - 1 && terms.Length2 == a.V
    modifies terms
    ensures forall b, i, j :: 0 <= b < a.bs && 0 <= i < a.G - 1 && 0 <= j < a.V ==>
              terms[b, i, j] == TermsOf(o, a)(b, i, j)
  {
    assert Sized(a);
    assert forall k :: 0 <= k < |order| ==> order[k].0 < a.bs;
    hide Ready, Sized, TermsOf, ChunkCells, RightCells, Chunks, IsGrid, Done;
    for n := 0 to |order|
      invariant Done(order, n, a.CH, terms.Length1, RightCells(terms, TermsOf(o, a)))
    {
      ghost var was := RightCells(terms, TermsOf(o, a));
      TermsProgram(o, ok, a, terms, order[n].0, order[n].1);
      DoneGrows(order, n, a.CH, terms.Length1, was, RightCells(terms, TermsOf(o, a)));
    }
    GridCovers(order, terms, TermsOf(o, a), a.CH);
  }

  /** tau is stored for every request whose first chunk is among the first n programs. */
  ghost predicate Stored<F>(o: Ops<F>, a: Launch<F>, order: seq<(nat, nat)>, n: nat, taus: seq<nat>) {
    && n <= |order| && |taus| == a.bs
    && forall k :: 0 <= k < n && order[k].1 == 0 && order[k].0 < a.bs ==> taus[order[k].0] == TauAt(o, a, order[k].0)
  }

  lemma NoneStored<F>(o: Ops<F>, a: Launch<F>, order: seq<(nat, nat)>, taus: seq<nat>)
    requires |taus| == a.bs
    ensures Stored(o, a, order, 0, taus)
  {}

  lemma StoredGrows<F>(o: Ops<F>, a: Launch<F>, order: seq<(nat, nat)>, n: nat, before: seq<nat>, taus: seq<nat>)
    requires Stored(o, a, order, n, before) && n < |order| && |taus| == a.bs && order[n].0 < a.bs
    requires order[n].1 == 0 ==> taus[order[n].0] == TauAt(o, a, order[n].0)
    requires forall b :: 0 <= b < a.bs ==> taus[b] == before[b] || taus[b] == TauAt(o, a, b)
    ensures Stored(o, a, order, n + 1, taus)
  {
    hide TauAt;
  }

  lemma AllStored<F>(o: Ops<F>, a: Launch<F>, order: seq<(nat, nat)>, taus: seq<nat>)
    requires Stored(o, a, order, |order|, taus)
    requires forall b: nat :: b < a.bs ==> (b, 0) in order
    ensures forall b :: 0 <= b < a.bs ==> taus[b] == TauAt(o, a, b)
  {
    hide TauAt;
    forall b | 0 <= b < a.bs ensures taus[b] == TauAt(o, a, b) { assert (b, 0) in order; }
  }

  method ResidualLaunch<F(!new)>(o: Ops<F>, ghost ok: F -> bool, a: Launch<F>, s: seq<seq<F>>, res: array3<F>,
                                 taus: array<nat>, order: seq<(nat, nat)>)
    requires Ready(o, ok, a) && IsGrid(order, a.bs, Chunks(a.V, a.CH))
    requires |s| == a.bs && forall b :: 0 <= b < a.bs ==> Summed(o, a, s[b], b)
    requires res.Length0 == a.bs == taus.Length && res.Length1 == 1 && res.Length2 == a.V
    modifies res, taus
    ensures forall b, i, j :: 0 <= b < a.bs && 0 <= i < 1 && 0 <= j < a.V ==> res[b, i, j] == ResidualsOf(o, a)(b, i, j)
    ensures forall b :: 0 <= b < a.bs ==> taus[b] == TauAt(o, a, b)
  {
    assert Sized(a);
    FirstChunk(order, a.bs, a.V, a.CH);
    assert forall k :: 0 <= k < |order| ==> order[k].0 < a.bs;
    NoneStored(o, a, order, taus[..]);
    hide Stored, Ready, Sized, Summed, ResidualsOf, ChunkCells, RightCells, Chunks, RequestOf, TauAt, Shaped, IsGrid,
      Done;
    for n := 0 to |order|
      invariant Done(order, n, a.CH, res.Length1, RightCells(res, ResidualsOf(o, a)))
      invariant Stored(o, a, order, n, taus[..])
    {
      var b := order[n].0;
      assert Summed(o, a, s[b], b);
      ghost var before := taus[..];
      ghost var was := RightCells(res, ResidualsOf(o, a));
      ResidualProgram(o, ok, a, s[b], res, taus, b, order[n].1);
      DoneGrows(order, n, a.CH, res.Length1, was, RightCells(res, ResidualsOf(o, a)));
      StoredGrows(o, a, order, n, before, taus[..]);
    }
    GridCovers(order, res, ResidualsOf(o, a), a.CH);
    AllStored(o, a, order, taus[..]);
  }

  lemma FirstChunk(order: seq<(nat, nat)>, bs: nat, V: nat, CH: nat)
    requires CH >= 1 && V >= 1 && IsGrid(order, bs, Chunks(V, CH))
    ensures forall b: nat :: b < bs ==> (b, 0) in order
  {
    ChunkOfColumn(V, CH, 0);
  }

  method KeysLaunch<F(!new)>(o: Ops<F>, ghost ok: F -> bool, a: Launch<F>, res: seq<seq<F>>, mass: seq<F>,
                             taus: seq<nat>,
                             keys: array3<F>, order: seq<(nat, nat)>)
    requires Ready(o, ok, a) && IsGrid(order, a.bs, Chunks(a.V, a.CH))
    requires |res| == |mass| == |taus| == a.bs
    requires forall b :: 0 <= b < a.bs ==> Reduced(o, ok, a, res[b], mass[b], taus[b], b)
    requires keys.Length0 == a.bs && keys.Length1 == 1 && keys.Length2 == a.V
    modifies keys
    ensures forall b, i, j :: 0 <= b < a.bs && 0 <= i < 1 && 0 <= j < a.V ==> keys[b, i, j] == KeysOf(o, a)(b, i, j)
  {
    assert Sized(a);
    assert forall k :: 0 <= k < |order| ==> order[k].0 < a.bs;
    hide Ready, Sized, KeysOf, ChunkCells, RightCells, Chunks, RequestOf, Tau, IsGrid, Done;
    for n := 0 to |order|
      invariant Done(order, n, a.CH, keys.Length1, RightCells(keys, KeysOf(o, a)))
    {
      var b := order[n].0;
      assert Reduced(o, ok, a, res[b], mass[b], taus[b], b);
      ghost var was := RightCells(keys, KeysOf(o, a));
      KeysProgram(o, ok, a, res[b], mass[b], taus[b], keys, b, order[n].1);
      DoneGrows(order, n, a.CH, keys.Length1, was, RightCells(keys, KeysOf(o, a)));
    }
    GridCovers(order, keys, KeysOf(o, a), a.CH);
  }

  ghost predicate Reduced<F>(o: Ops<F>, ok: F -> bool, a: Launch<F>, res: seq<F>, mass: F, tau: nat, b: nat) {
    && Sized(a) && b < a.bs && Fits(ok, a, RequestOf(a, b))
    && tau == Tau(o, RequestOf(a, b))
    && res == ResidualRowAt(o, RequestOf(a, b), tau) && mass == MassAt(o, RequestOf(a, b), tau)
  }

  /** Row (b, i, :) of a buffer. */
  ghost predicate IsRow<F>(buf: array3<F>, b: nat, i: nat, row: seq<F>)
    requires b < buf.Length0 && i < buf.Length1
    reads buf
  {
    |row| == buf.Length2 && forall j :: 0 <= j < |row| ==> row[j] == buf[b, i, j]
  }

  method ReadRow<F>(buf: array3<F>, b: nat, i: nat) returns (row: seq<F>)
    requires b < buf.Length0 && i < buf.Length1
    ensures IsRow(buf, b, i, row)
  {
    row := [];
    for j := 0 to buf.Length2
      invariant |row| == j && forall k :: 0 <= k < j ==> row[k] == buf[b, i, k]
    {
      row := row + [buf[b, i, j]];
    }
  }

  /** terms.sum(-1): one reduced value for each inner position of each request. */
  method SumTerms<F(!new)>(o: Ops<F>, ghost ok: F -> bool, a: Launch<F>, terms: array3<F>) returns (s: seq<seq<F>>)
    requires Ready(o, ok, a)
    requires terms.Length0 == a.bs && terms.Length1 == a.G - 1 && terms.Length2 == a.V
    requires forall b, i, j :: 0 <= b < a.bs && 0 <= i < a.G - 1 && 0 <= j < a.V ==>
               terms[b, i, j] == TermsOf(o, a)(b, i, j)
    ensures |s| == a.bs && forall b :: 0 <= b < a.bs ==> Summed(o, a, s[b], b)
  {
    s := [];
    for b := 0 to a.bs
      invariant |s| == b && forall k :: 0 <= k < b ==> Summed(o, a, s[k], k)
    {
      var row := SumRequest(o, ok, a, terms, b);
      s := s + [row];
    }
  }

  method SumRequest<F(!new)>(o: Ops<F>, ghost ok: F -> bool, a: Launch<F>, terms: array3<F>, b: nat) returns (s: seq<F>)
    requires Ready(o, ok, a) && b < a.bs
    requires terms.Length0 == a.bs && terms.Length1 == a.G - 1 && terms.Length2 == a.V
    requires forall i, j :: 0 <= i < a.G - 1 && 0 <= j < a.V ==> terms[b, i, j] == TermsOf(o, a)(b, i, j)
    ensures Summed(o, a, s, b)
  {
    var r := RequestOf(a, b);
    assert Fits(ok, a, r);
    assert Sized(a) && Shaped(r) && |r.X| == a.G && r.V == a.V;
    forall i: nat, j: nat | i < a.G - 1 && j < a.V ensures TermsOf(o, a)(b, i, j) == ResidualAt(o, r, i + 1, j) {}
    hide Ready, Fits, Laws, Covers, TermsOf, ResidualAt;
    s := [];
    for i := 0 to a.G - 1
      invariant |s| == i && forall k :: 0 <= k < i ==> s[k] == MassAt(o, r, k + 1)
    {
      var row := ReadRow(terms, b, i);
      assert row == ResidualRowAt(o, r, i + 1);
      s := s + [o.rowSum(row)];
    }
  }

  /** res.sum(-1): the residual rows and their masses. */
  method SumResiduals<F(!new)>(o: Ops<F>, ghost ok: F -> bool, a: Launch<F>, res: array3<F>, taus: seq<nat>)
    returns (rows: seq<seq<F>>, mass: seq<F>)
    requires Ready(o, ok, a) && |taus| == a.bs
    requires res.Length0 == a.bs && res.Length1 == 1 && res.Length2 == a.V
    requires forall b :: 0 <= b < a.bs ==> Fits(ok, a, RequestOf(a, b)) && taus[b] == Tau(o, RequestOf(a, b))
    requires forall b, i, j :: 0 <= b < a.bs && 0 <= i < 1 && 0 <= j < a.V ==>
              res[b, i, j] == ResidualsOf(o, a)(b, i, j)
    ensures |rows| == |mass| == a.bs
    ensures forall b :: 0 <= b < a.bs ==> Reduced(o, ok, a, rows[b], mass[b], taus[b], b)
  {
    assert Sized(a);
    hide Ready, Sized, Fits, ResidualsOf, Tau, RequestOf, ResidualAt, TauUpTo;
    rows, mass := [], [];
    for b := 0 to a.bs
      invariant |rows| == |mass| == b
      invariant forall k :: 0 <= k < b ==> Reduced(o, ok, a, rows[k], mass[k], taus[k], k)
    {
      var row := ReadRow(res, b, 0);
      ResidualsOfRow(o, ok, a, b);
      ReducedRow(o, ok, a, row, taus[b], b);
      rows, mass := rows + [row], mass + [o.rowSum(row)];
    }
  }

  lemma ReducedRow<F>(o: Ops<F>, ok: F -> bool, a: Launch<F>, row: seq<F>, tau: nat, b: nat)
    requires Sized(a) && b < a.bs && Fits(ok, a, RequestOf(a, b)) && |row| == a.V
    requires tau == Tau(o, RequestOf(a, b))
    requires forall j: nat :: j < a.V ==> row[j] == ResidualAt(o, RequestOf(a, b), tau, j)
    ensures Reduced(o, ok, a, row, o.rowSum(row), tau, b)
  {
    hide ResidualAt, Tau;
    assert row == ResidualRowAt(o, RequestOf(a, b), tau);
  }

  /** keys.argmax(-1) */
  method ArgMaxKeys<F(!new)>(o: Ops<F>, ghost ok: F -> bool, a: Launch<F>, keys: array3<F>) returns (corr: seq<nat>)
    requires Ready(o, ok, a)
    requires keys.Length0 == a.bs && keys.Length1 == 1 && keys.Length2 == a.V
    requires forall b :: 0 <= b < a.bs ==> Fits(ok, a, RequestOf(a, b))
    requires forall b, i, j :: 0 <= b < a.bs && 0 <= i < 1 && 0 <= j < a.V ==> keys[b, i, j] == KeysOf(o, a)(b, i, j)
    ensures |corr| == a.bs
    ensures forall b :: 0 <= b < a.bs ==> corr[b] == Correction(o, RequestOf(a, b))
  {
    assert Sized(a);
    hide Ready, Sized, Fits, KeysOf, Tau, RequestOf, Correction;
    corr := [];
    for b := 0 to a.bs
      invariant |corr| == b && forall k :: 0 <= k < b ==> corr[k] == Correction(o, RequestOf(a, k))
    {
      var row := ReadRow(keys, b, 0);
      KeysOfRow(o, ok, a, b, row);
      corr := corr + [o.argMax(row)];
    }
  }

  lemma KeysOfRow<F>(o: Ops<F>, ok: F -> bool, a: Launch<F>, b: nat, row: seq<F>)
    requires Sized(a) && b < a.bs && Fits(ok, a, RequestOf(a, b)) && |row| == a.V
    requires forall j: nat :: j < a.V ==> row[j] == KeysOf(o, a)(b, 0, j)
    ensures o.argMax(row) == Correction(o, RequestOf(a, b))
  {
    hide WeightAt, TauUpTo;
    var r := RequestOf(a, b);
    assert row == KeysAt(o, r, Tau(o, r));
  }

  lemma TausRight<F(!new)>(o: Ops<F>, ok: F -> bool, a: Launch<F>, taus: seq<nat>)
    requires Ready(o, ok, a) && |taus| == a.bs && forall b :: 0 <= b < a.bs ==> taus[b] == TauAt(o, a, b)
    ensures forall b :: 0 <= b < a.bs ==> Fits(ok, a, RequestOf(a, b)) && taus[b] == Tau(o, RequestOf(a, b))
  {
    hide Laws, Covers, Tau;
    forall b | 0 <= b < a.bs ensures Fits(ok, a, RequestOf(a, b)) && taus[b] == Tau(o, RequestOf(a, b)) {
      assert Fits(ok, a, RequestOf(a, b));
    }
  }

  /**
   * fold: whatever the chunk size, the lane order of the reductions, the order of the programs of each
   * launch and the initial contents of the buffers, every request gets the tau and the correction token of
   * block_accept_probs.
   */
  method Fold<F(!new)>(o: Ops<F>, ghost ok: F -> bool, a: Launch<F>, junk: F, order: seq<seq<(nat, nat)>>)
    returns (tau: seq<nat>, corr: seq<nat>)
    requires Ready(o, ok, a)
    requires |order| == 3 && forall k :: 0 <= k < 3 ==> IsGrid(order[k], a.bs, Chunks(a.V, a.CH))
    ensures forall b :: 0 <= b < a.bs ==> Shaped(RequestOf(a, b))
    ensures |tau| == |corr| == a.bs
    ensures forall b :: 0 <= b < a.bs ==> tau[b] == Tau(o, RequestOf(a, b)) && corr[b] == Correction(o, RequestOf(a, b))
    ensures Greatest(o) ==> forall b :: 0 <= b < a.bs ==> Wins(o, RequestOf(a, b), tau[b], corr[b])
  {
    tau, corr := Launches(o, ok, a, junk, order);
    if Greatest(o) {
      forall b | 0 <= b < a.bs ensures Wins(o, RequestOf(a, b), tau[b], corr[b]) { CorrectionWins(o, RequestOf(a, b)); }
    }
  }

  /** The three launches, the row sums between them and the arg-max. */
  method Launches<F(!new)>(o: Ops<F>, ghost ok: F -> bool, a: Launch<F>, junk: F, order: seq<seq<(nat, nat)>>)
    returns (tau: seq<nat>, corr: seq<nat>)
    requires Ready(o, ok, a)
    requires |order| == 3 && forall k :: 0 <= k < 3 ==> IsGrid(order[k], a.bs, Chunks(a.V, a.CH))
    ensures forall b :: 0 <= b < a.bs ==> Shaped(RequestOf(a, b))
    ensures |tau| == |corr| == a.bs
    ensures forall b :: 0 <= b < a.bs ==> tau[b] == Tau(o, RequestOf(a, b)) && corr[b] == Correction(o, RequestOf(a, b))
  {
    assert forall b :: 0 <= b < a.bs ==> Fits(ok, a, RequestOf(a, b)) && Shaped(RequestOf(a, b));
    assert Sized(a);
    var s: seq<seq<F>>;
    if a.G > 1 {
      var terms := new F[a.bs, a.G - 1, a.V]((_, _, _) => junk);
      TermsLaunch(o, ok, a, terms, order[0]);
      s := SumTerms(o, ok, a, terms);
    } else {
      s := seq(a.bs, _ => [o.zero]);
      assert forall b :: 0 <= b < a.bs ==> Summed(o, a, s[b], b);
    }
    hide Ready, Sized, Fits, Summed, Tau, TauAt, Correction, RequestOf, Chunks;
    var res := new F[a.bs, 1, a.V]((_, _, _) => junk);
    var taus := new nat[a.bs];
    ResidualLaunch(o, ok, a, s, res, taus, order[1]);
    tau := taus[..];
    TausRight(o, ok, a, tau);
    var rows, mass := SumResiduals(o, ok, a, res, tau);
    var keys := new F[a.bs, 1, a.V]((_, _, _) => junk);
    KeysLaunch(o, ok, a, rows, mass, tau, keys, order[2]);
    corr := ArgMaxKeys(o, ok, a, keys);
  }

  /**
   * _folded: the launches on the verify lengths less one are block_accept_probs on the lengths of drafts; in check
   * mode both are computed and agree. The drafts are the candidates after the first of each row.
   */
  method Folded<F(!new)>(o: Ops<F>, ghost ok: F -> bool, a: Launch<F>, candidates: seq<seq<nat>>, cut: Option<seq<int>>,
                         check: bool, junk: F, order: seq<seq<(nat, nat)>>) returns (tau: seq<nat>, corr: seq<nat>)
    requires Ready(o, ok, a) && a.LIVE == cut && a.LIVE_SUB == 1
    requires |candidates| == a.bs && forall b :: 0 <= b < a.bs ==>
               |candidates[b]| >= a.G + 1 && a.X[b] == candidates[b][1..a.G + 1]
    requires |order| == 3 && forall k :: 0 <= k < 3 ==> IsGrid(order[k], a.bs, Chunks(a.V, a.CH))
    ensures |tau| == |corr| == a.bs
    ensures forall b :: 0 <= b < a.bs ==> Shaped(Drafted(a, candidates, cut, b))
    ensures forall b :: 0 <= b < a.bs ==>
              && tau[b] == Tau(o, Drafted(a, candidates, cut, b))
              && corr[b] == Correction(o, Drafted(a, candidates, cut, b))
  {
    assert forall b :: 0 <= b < a.bs ==> Drafted(a, candidates, cut, b) == RequestOf(a, b);
    tau, corr := Fold(o, ok, a, junk, order);
    if check {
      tau, corr := Unfolded(o, seq(a.bs, b requires 0 <= b < a.bs => Drafted(a, candidates, cut, b)));
    }
  }

  /** The reference of check mode: block_accept_probs on every row. */
  method Unfolded<F(!new)>(o: Ops<F>, rows: seq<Request<F>>) returns (tau: seq<nat>, corr: seq<nat>)
    requires forall b :: 0 <= b < |rows| ==> Shaped(rows[b])
    ensures |tau| == |corr| == |rows|
    ensures forall b :: 0 <= b < |rows| ==> tau[b] == Tau(o, rows[b]) && corr[b] == Correction(o, rows[b])
  {
    hide Tau, Correction, Greatest, Wins, Shaped;
    tau, corr := [], [];
    for b := 0 to |rows|
      invariant |tau| == |corr| == b
      invariant forall k :: 0 <= k < b ==> tau[k] == Tau(o, rows[k]) && corr[k] == Correction(o, rows[k])
    {
      var t, c := BlockAcceptProbs(o, rows[b]);
      tau, corr := tau + [t], corr + [c];
    }
  }

  /** One request as block_accept_probs is given it: its drafts, and one verified draft less than its verify length. */
  function Drafted<F>(a: Launch<F>, candidates: seq<seq<nat>>, cut: Option<seq<int>>, b: nat): Request<F>
    requires Sized(a) && b < a.bs == |candidates| && |candidates[b]| >= a.G + 1
    requires cut.Some? ==> |cut.value| == a.bs
  {
    Request(a.V, candidates[b][1..a.G + 1], a.TP[b], a.DP[b], a.ETA[b], a.GUM[b],
            if cut.None? then None else Some(cut.value[b] - 1))
  }
}

/** The folded kernels over the reals: the race they run is the block's own. */
module BlockFoldReal {
  import opened RealSums
  import opened FloatOps
  import BV = BlockVerify
  import opened BlockAccept
  import opened BlockAcceptReal
  import BF = BlockFold

  lemma RealLaws(argMax: seq<real> -> nat)
    ensures BF.Laws(RealOps(argMax), x => x >= 0.0)
  {
    forall x: real, y: real | x >= 0.0 && y >= 0.0
      ensures RealOps(argMax).div(x, RealOps(argMax).max(y, RealOps(argMax).tiny)) >= 0.0
      ensures RealOps(argMax).min(RealOps(argMax).mul(x, y), 1.0) >= 0.0
    {
      BV.OverNonneg(x, y);
      TimesNonneg(x, y);
    }
  }

  /** For every request whose rows are a tree block's along its drafts: tau is the block's last success, and the token
      wins the race of the block's correction weights there. */
  method FoldReal(argMax: seq<real> -> nat, a: BF.Launch<real>, junk: real, order: seq<seq<(nat, nat)>>,
                  ghost blocks: seq<BV.Block>) returns (tau: seq<nat>, corr: seq<nat>)
    requires BF.Ready(RealOps(argMax), x => x >= 0.0, a) && |blocks| == a.bs
    requires |order| == 3 && forall k :: 0 <= k < 3 ==> BF.IsGrid(order[k], a.bs, BF.Chunks(a.V, a.CH))
    requires forall k :: 0 <= k < a.bs ==> Shaped(BF.RequestOf(a, k)) && Reads(BF.RequestOf(a, k), blocks[k])
    requires forall k, c :: 0 <= k < a.bs && 0 <= c < a.V ==> |a.GUM[k]| == a.V && a.GUM[k][c] > 0.0
    requires forall s: seq<real> :: |s| > 0 ==> argMax(s) < |s| && forall k :: 0 <= k < |s| ==> s[k] <= s[argMax(s)]
    ensures |tau| == |corr| == a.bs
    ensures forall k :: 0 <= k < a.bs ==>
              tau[k] == BV.Last(Passed(BF.RequestOf(a, k), blocks[k])) <= |a.X[k]| && corr[k] < a.V
    ensures forall k, c :: 0 <= k < a.bs && 0 <= c < a.V ==>
              Times(BV.Correction(blocks[k], a.X[k][..tau[k]], corr[k]), a.GUM[k][c])
              >= Times(BV.Correction(blocks[k], a.X[k][..tau[k]], c), a.GUM[k][corr[k]])
  {
    RealGreatest(argMax);
    tau, corr := BF.Fold(RealOps(argMax), x => x >= 0.0, a, junk, order);
    forall k | 0 <= k < a.bs
      ensures tau[k] == BV.Last(Passed(BF.RequestOf(a, k), blocks[k])) <= |a.X[k]| && corr[k] < a.V
      ensures forall c :: 0 <= c < a.V ==>
                Times(BV.Correction(blocks[k], a.X[k][..tau[k]], corr[k]), a.GUM[k][c])
                >= Times(BV.Correction(blocks[k], a.X[k][..tau[k]], c), a.GUM[k][corr[k]])
    {
      AcceptIsTree(argMax, BF.RequestOf(a, k), blocks[k]);
      RaceWon(argMax, BF.RequestOf(a, k), blocks[k], corr[k]);
    }
  }
}
