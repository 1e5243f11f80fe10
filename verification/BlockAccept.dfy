/**
 * block_accept_probs (adapter/block_verify.py) for one request, over any arithmetic. The float operations
 * are parameters: read over the reals the results are those of BlockVerify, and left uninterpreted they say
 * which expression tree each value is, which is what the folded kernels must reproduce bit for bit.
 */
module FloatOps {

  /** The operations the two implementations share. `rowSum` and `argMax` are the library's own reductions. */
  datatype Ops<!F> = Ops(
    zero: F, one: F, two: F, tiny: F,
    add: (F, F) -> F, sub: (F, F) -> F, mul: (F, F) -> F, div: (F, F) -> F,
    min: (F, F) -> F, max: (F, F) -> F,
    atMost: (F, F) -> bool, positive: F -> bool,
    rowSum: seq<F> -> F, argMax: seq<F> -> nat)
}

module BlockAccept {
  import opened Wrappers
  import opened FloatOps

  /** One request: g drafted tokens, g+1 target rows, g draft rows, the random draws, the verified drafts. */
  datatype Request<!F> = Request(
    V: nat, X: seq<nat>, P: seq<seq<F>>, Q: seq<seq<F>>, eta: seq<F>, gumbel: seq<F>, live: Option<int>)

  predicate Shaped<F>(r: Request<F>) {
    && |r.X| >= 1 && |r.P| == |r.X| + 1 && |r.Q| == |r.X| && |r.eta| == |r.X| && |r.gumbel| == r.V
    && (forall i :: 0 <= i < |r.P| ==> |r.P[i]| == r.V)
    && (forall i :: 0 <= i < |r.Q| ==> |r.Q[i]| == r.V)
    && (forall i :: 0 <= i < |r.X| ==> r.X[i] < r.V)
  }

  predicate Alive<F>(r: Request<F>, i: nat) {
    i < |r.X| && (r.live.None? || i < r.live.value)
  }

  /** The acceptance ratio of draft i, zero when it was not verified. */
  function RatioAt<F>(o: Ops<F>, r: Request<F>, i: nat): F
    requires Shaped(r) && i < |r.X|
  {
    if Alive(r, i) then o.div(r.P[i][r.X[i]], o.max(r.Q[i][r.X[i]], o.tiny)) else o.zero
  }

  /** w_i: the running product, capped at one at every step. */
  function WAt<F>(o: Ops<F>, r: Request<F>, i: nat): F
    requires Shaped(r) && i <= |r.X|
  {
    if i == 0 then o.one else o.min(o.mul(WAt(o, r, i - 1), RatioAt(o, r, i - 1)), o.one)
  }

  /** The draft probability of token c in row i: masked by `live` when given, zero on the padding row. */
  function DraftAt<F>(o: Ops<F>, r: Request<F>, i: nat, c: nat): F
    requires Shaped(r) && i <= |r.X| && c < r.V
  {
    if i == |r.X| then o.zero
    else if r.live.None? then r.Q[i][c]
    else o.mul(r.Q[i][c], if Alive(r, i) then o.one else o.zero)
  }

  /** max(w_i · p - q, 0) over row i */
  function ResidualAt<F>(o: Ops<F>, r: Request<F>, i: nat, c: nat): F
    requires Shaped(r) && i <= |r.X| && c < r.V
  {
    o.max(o.sub(o.mul(WAt(o, r, i), r.P[i][c]), DraftAt(o, r, i, c)), o.zero)
  }

  function ResidualRowAt<F>(o: Ops<F>, r: Request<F>, i: nat): (row: seq<F>)
    requires Shaped(r) && i <= |r.X|
    ensures |row| == r.V
  {
    seq(r.V, c requires 0 <= c < r.V => ResidualAt(o, r, i, c))
  }

  function MassAt<F>(o: Ops<F>, r: Request<F>, i: nat): F
    requires Shaped(r) && i <= |r.X|
  {
    o.rowSum(ResidualRowAt(o, r, i))
  }

  /** h for accepting i >= 1 drafts. */
  function HAt<F>(o: Ops<F>, r: Request<F>, i: nat): F
    requires Shaped(r) && 1 <= i <= |r.X|
  {
    if i < |r.X| then
      var s := MassAt(o, r, i);
      o.div(s, o.max(o.add(s, o.sub(o.one, WAt(o, r, i))), o.tiny))
    else WAt(o, r, i)
  }

  predicate Passes<F>(o: Ops<F>, r: Request<F>, i: nat)
    requires Shaped(r) && 1 <= i <= |r.X|
  {
    Alive(r, i - 1) && o.atMost(r.eta[i - 1], HAt(o, r, i))
  }

  /** The largest number of drafts, up to n, whose test passes. */
  function TauUpTo<F>(o: Ops<F>, r: Request<F>, n: nat): (t: nat)
    requires Shaped(r) && n <= |r.X|
    ensures t <= n
    ensures t > 0 ==> Passes(o, r, t)
    ensures forall i :: t < i <= n ==> !Passes(o, r, i)
  {
    if n == 0 then 0 else if Passes(o, r, n) then n else TauUpTo(o, r, n - 1)
  }

  function Tau<F>(o: Ops<F>, r: Request<F>): (t: nat)
    requires Shaped(r)
    ensures t <= |r.X|
  {
    TauUpTo(o, r, |r.X|)
  }

  /** The weight of token c in the correction after accepting t drafts. */
  function WeightAt<F>(o: Ops<F>, r: Request<F>, t: nat, c: nat): F
    requires Shaped(r) && t <= |r.X| && c < r.V
  {
    if o.positive(MassAt(o, r, t)) then o.div(ResidualAt(o, r, t, c), o.max(MassAt(o, r, t), o.tiny)) else r.P[t][c]
  }

  function KeysAt<F>(o: Ops<F>, r: Request<F>, t: nat): (row: seq<F>)
    requires Shaped(r) && t <= |r.X|
    ensures |row| == r.V
  {
    seq(r.V, c requires 0 <= c < r.V => o.div(WeightAt(o, r, t, c), r.gumbel[c]))
  }

  /** argMax returns the place of a greatest entry. */
  ghost predicate Greatest<F(!new)>(o: Ops<F>) {
    forall s: seq<F> :: |s| > 0 ==>
      o.argMax(s) < |s| && forall k :: 0 <= k < |s| ==> o.atMost(s[k], s[o.argMax(s)])
  }

  /** Token c wins the race of the correction weights against the exponential draws after t drafts. */
  ghost predicate Wins<F>(o: Ops<F>, r: Request<F>, t: nat, c: nat)
    requires Shaped(r)
  {
    t <= |r.X| && c < r.V && forall d :: 0 <= d < r.V ==>
      o.atMost(o.div(WeightAt(o, r, t, d), r.gumbel[d]), o.div(WeightAt(o, r, t, c), r.gumbel[c]))
  }

  lemma KeysRace<F(!new)>(o: Ops<F>, r: Request<F>, t: nat)
    requires Shaped(r) && Greatest(o) && t <= |r.X|
    ensures Wins(o, r, t, o.argMax(KeysAt(o, r, t)))
  {
    hide WeightAt;
    var keys := KeysAt(o, r, t);
    assert 0 <= r.X[0] < r.V;
    var c := o.argMax(keys);
    forall d | 0 <= d < r.V
      ensures o.atMost(o.div(WeightAt(o, r, t, d), r.gumbel[d]), o.div(WeightAt(o, r, t, c), r.gumbel[c]))
    {
      assert o.atMost(keys[d], keys[c]);
    }
  }

  lemma CorrectionWins<F(!new)>(o: Ops<F>, r: Request<F>)
    requires Shaped(r) && Greatest(o)
    ensures Wins(o, r, Tau(o, r), Correction(o, r))
  {
    KeysRace(o, r, Tau(o, r));
  }

  function Correction<F>(o: Ops<F>, r: Request<F>): nat
    requires Shaped(r)
  {
    o.argMax(KeysAt(o, r, Tau(o, r)))
  }

  /** Any answer that passes its own test and beats every later test is tau. */
  lemma TauIs<F>(o: Ops<F>, r: Request<F>, t: nat)
    requires Shaped(r) && t <= |r.X|
    requires t > 0 ==> Passes(o, r, t)
    requires forall i :: t < i <= |r.X| ==> !Passes(o, r, i)
    ensures t == Tau(o, r)
  {
    var u := Tau(o, r);
    assert u > 0 ==> Passes(o, r, u);
    assert t > 0 ==> Passes(o, r, t);
  }

  // block_accept_probs, step by step, for one row of the batch.

  method Ratios<F>(o: Ops<F>, r: Request<F>) returns (ratio: seq<F>, draft: seq<seq<F>>)
    requires Shaped(r)
    ensures |ratio| == |draft| == |r.X|
    ensures forall j :: 0 <= j < |r.X| ==> ratio[j] == RatioAt(o, r, j)
    ensures forall j :: 0 <= j < |r.X| ==> |draft[j]| == r.V
    ensures forall j, c :: 0 <= j < |r.X| && 0 <= c < r.V ==> draft[j][c] == DraftAt(o, r, j, c)
  {
    var g, V := |r.X|, r.V;
    ratio, draft := [], [];
    for i := 0 to g
      invariant |ratio| == |draft| == i
      invariant forall j :: 0 <= j < i ==> ratio[j] == RatioAt(o, r, j)
      invariant forall j :: 0 <= j < i ==> |draft[j]| == V
      invariant forall j, c :: 0 <= j < i && 0 <= c < V ==> draft[j][c] == DraftAt(o, r, j, c)
    {
      var value := o.div(r.P[i][r.X[i]], o.max(r.Q[i][r.X[i]], o.tiny));
      var row := r.Q[i];
      if r.live.Some? {
        var alive := i < r.live.value;
        if !alive { value := o.zero; }
        row := seq(V, c requires 0 <= c < V => o.mul(r.Q[i][c], if alive then o.one else o.zero));
      }
      ratio, draft := ratio + [value], draft + [row];
    }
  }

  method Weights<F>(o: Ops<F>, r: Request<F>, ratio: seq<F>) returns (ws: seq<F>)
    requires Shaped(r) && |ratio| == |r.X|
    requires forall j :: 0 <= j < |r.X| ==> ratio[j] == RatioAt(o, r, j)
    ensures |ws| == |r.X| && forall j :: 0 <= j < |ws| ==> ws[j] == WAt(o, r, j + 1)
  {
    var cur := o.one;
    ws := [];
    for i := 0 to |r.X|
      invariant |ws| == i && cur == WAt(o, r, i)
      invariant forall j :: 0 <= j < i ==> ws[j] == WAt(o, r, j + 1)
    {
      cur := o.min(o.mul(cur, ratio[i]), o.one);
      ws := ws + [cur];
    }
  }

  method Thresholds<F>(o: Ops<F>, r: Request<F>, ws: seq<F>, draft: seq<seq<F>>) returns (h: seq<F>)
    requires Shaped(r) && |ws| == |draft| == |r.X|
    requires forall j :: 0 <= j < |ws| ==> ws[j] == WAt(o, r, j + 1)
    requires forall j :: 0 <= j < |r.X| ==> |draft[j]| == r.V
    requires forall j, c :: 0 <= j < |r.X| && 0 <= c < r.V ==> draft[j][c] == DraftAt(o, r, j, c)
    ensures |h| == |r.X| && forall j :: 0 <= j < |h| ==> h[j] == HAt(o, r, j + 1)
  {
    var g := |r.X|;
    h := [];
    for i := 0 to g - 1
      invariant |h| == i
      invariant forall j :: 0 <= j < i ==> h[j] == HAt(o, r, j + 1)
    {
      var terms := seq(r.V, c requires 0 <= c < r.V =>
        o.max(o.sub(o.mul(ws[i], r.P[i + 1][c]), draft[i + 1][c]), o.zero));
      assert terms == ResidualRowAt(o, r, i + 1) by { hide WAt, DraftAt; }
      var s := o.rowSum(terms);
      h := h + [o.div(s, o.max(o.add(s, o.sub(o.one, ws[i])), o.tiny))];
    }
    h := h + [ws[g - 1]];
  }

  method BlockAcceptProbs<F(!new)>(o: Ops<F>, r: Request<F>) returns (tau: nat, corr: nat)
    requires Shaped(r)
    ensures tau == Tau(o, r)
    ensures corr == Correction(o, r)
    ensures Greatest(o) ==> Wins(o, r, tau, corr)
  {
    tau, corr := AcceptAndDraw(o, r);
    if Greatest(o) { CorrectionWins(o, r); }
  }

  /** Tau from the thresholds, then the draw. */
  method AcceptAndDraw<F>(o: Ops<F>, r: Request<F>) returns (tau: nat, corr: nat)
    requires Shaped(r)
    ensures tau == Tau(o, r)
    ensures corr == Correction(o, r)
  {
    hide WAt, HAt, DraftAt, RatioAt, TauUpTo;
    var g := |r.X|;
    var ratio, draft := Ratios(o, r);
    var ws := Weights(o, r, ratio);
    var h := Thresholds(o, r, ws, draft);
    tau := 0;
    for i := 0 to g
      invariant tau <= i
      invariant tau > 0 ==> Passes(o, r, tau)
      invariant forall j :: tau < j <= i ==> !Passes(o, r, j)
    {
      if o.atMost(r.eta[i], h[i]) && (r.live.None? || i < r.live.value) { tau := i + 1; }
    }
    TauIs(o, r, tau);
    corr := Draw(o, r, ws, draft, tau);
  }

  /** The correction: the target row at tau less the draft's, or the target row itself when nothing is left. */
  method Draw<F>(o: Ops<F>, r: Request<F>, ws: seq<F>, draft: seq<seq<F>>, tau: nat) returns (corr: nat)
    requires Shaped(r) && |ws| == |draft| == |r.X| && tau <= |r.X|
    requires forall j :: 0 <= j < |ws| ==> ws[j] == WAt(o, r, j + 1)
    requires forall j :: 0 <= j < |r.X| ==> |draft[j]| == r.V
    requires forall j, c :: 0 <= j < |r.X| && 0 <= c < r.V ==> draft[j][c] == DraftAt(o, r, j, c)
    ensures corr == o.argMax(KeysAt(o, r, tau))
  {
    var wt := ([o.one] + ws)[tau];
    assert wt == WAt(o, r, tau);
    hide WAt;
    var qRow := (draft + [seq(r.V, _ => o.zero)])[tau];
    assert forall c :: 0 <= c < r.V ==> qRow[c] == DraftAt(o, r, tau, c);
    hide DraftAt;
    var res := seq(r.V, c requires 0 <= c < r.V => o.max(o.sub(o.mul(wt, r.P[tau][c]), qRow[c]), o.zero));
    assert res == ResidualRowAt(o, r, tau);
    var mass := o.rowSum(res);
    var weights: seq<F>;
    if o.positive(mass) {
      weights := seq(r.V, c requires 0 <= c < r.V => o.div(res[c], o.max(mass, o.tiny)));
    } else {
      weights := r.P[tau];
    }
    assert forall c :: 0 <= c < r.V ==> weights[c] == WeightAt(o, r, tau, c);
    hide WeightAt;
    var keys := seq(r.V, c requires 0 <= c < r.V => o.div(weights[c], r.gumbel[c]));
    assert keys == KeysAt(o, r, tau);
    corr := o.argMax(keys);
  }
}

/** The same rule read over the reals is the model whose law BlockLaw proves. */
module BlockAcceptReal {
  import opened RealSums
  import opened FloatOps
  import BV = BlockVerify
  import opened BlockAccept

  function Entry(row: seq<real>): nat -> real { (c: nat) => if c < |row| then row[c] else 0.0 }

  function RealOps(argMax: seq<real> -> nat): Ops<real> {
    Ops(0.0, 1.0, 2.0, BV.FLOOR,
        (a, b) => a + b, (a, b) => a - b, (a, b) => Times(a, b), (a, b) => if b == 0.0 then 0.0 else a / b,
        (a, b) => Min(a, b), (a, b) => Max(a, b),
        (a, b) => a <= b, a => a > 0.0,
        s => Sum(|s|, Entry(s)), argMax)
  }

  function At(rows: seq<seq<real>>): BV.Tree {
    (x: BV.Tokens, c: nat) => if |x| < |rows| then Entry(rows[|x|])(c) else 0.0
  }

  /** The block whose trees answer with this request's rows at every prefix of each length. */
  function BlockOf(r: Request<real>): BV.Block {
    BV.Block(r.V, |r.X|, if r.live.Some? then r.live.value else |r.X|, At(r.P), At(r.Q))
  }

  lemma RealW(argMax: seq<real> -> nat, r: Request<real>, i: nat)
    requires Shaped(r) && i <= |r.X|
    ensures WAt(RealOps(argMax), r, i) == BV.W(BlockOf(r), r.X[..i])
  {
    if i > 0 {
      RealW(argMax, r, i - 1);
      var x := r.X[..i];
      assert x[..i - 1] == r.X[..i - 1] && x[i - 1] == r.X[i - 1];
      hide Times;
      RealRatio(argMax, r, i - 1);
    }
  }

  lemma RealRatio(argMax: seq<real> -> nat, r: Request<real>, i: nat)
    requires Shaped(r) && i < |r.X|
    ensures RatioAt(RealOps(argMax), r, i) == BV.Ratio(BlockOf(r), r.X[..i + 1])
  {
    var x := r.X[..i + 1];
    assert x[..i] == r.X[..i];
  }

  lemma RealResidual(argMax: seq<real> -> nat, r: Request<real>, i: nat, c: nat)
    requires Shaped(r) && i <= |r.X| && c < r.V
    ensures ResidualAt(RealOps(argMax), r, i, c) == BV.Residual(BlockOf(r), r.X[..i], c)
  {
    RealW(argMax, r, i);
    hide WAt, BV.W;
    if i < |r.X| { TimesUnits(r.Q[i][c]); }
    hide Times;
  }

  lemma RealMass(argMax: seq<real> -> nat, r: Request<real>, i: nat)
    requires Shaped(r) && i <= |r.X|
    ensures MassAt(RealOps(argMax), r, i) == BV.S(BlockOf(r), r.X[..i])
  {
    hide ResidualAt, BV.Residual;
    var o := RealOps(argMax);
    var row := ResidualRowAt(o, r, i);
    forall c: nat | c < r.V ensures Entry(row)(c) == BV.ResidualRow(BlockOf(r), r.X[..i])(c) {
      RealResidual(argMax, r, i, c);
    }
    SumEq(r.V, Entry(row), BV.ResidualRow(BlockOf(r), r.X[..i]));
    assert o.rowSum(row) == Sum(|row|, Entry(row));
  }

  lemma RealH(argMax: seq<real> -> nat, r: Request<real>, i: nat)
    requires Shaped(r) && 1 <= i <= |r.X|
    ensures HAt(RealOps(argMax), r, i) == BV.H(BlockOf(r), r.X[..i])
  {
    RealW(argMax, r, i);
    RealMass(argMax, r, i);
    hide WAt, BV.W, MassAt, BV.S;
  }

  /** The acceptance tests of the model on this request's uniform draws. */
  function Bits(r: Request<real>): (bits: seq<bool>)
    requires Shaped(r)
    ensures |bits| == |r.X|
  {
    var b := BlockOf(r);
    seq(|r.X|, i requires 0 <= i < |r.X| => BV.Alive(b, i) && r.eta[i] <= BV.H(b, r.X[..i + 1]))
  }

  /**
   * Over the reals, the code accepts the drafts up to the model's last success and draws the correction
   * from the model's weights.
   */
  lemma AcceptIsModel(argMax: seq<real> -> nat, r: Request<real>)
    requires Shaped(r)
    ensures Tau(RealOps(argMax), r) == BV.Last(Bits(r))
    ensures forall c :: 0 <= c < r.V ==>
              WeightAt(RealOps(argMax), r, Tau(RealOps(argMax), r), c)
              == BV.Correction(BlockOf(r), r.X[..Tau(RealOps(argMax), r)], c)
  {
    var o, bits := RealOps(argMax), Bits(r);
    var t := BV.Last(bits);
    forall i | 1 <= i <= |r.X| ensures Passes(o, r, i) <==> bits[i - 1] { RealH(argMax, r, i); }
    forall i | t < i <= |r.X| ensures !Passes(o, r, i) { assert !bits[i - 1]; }
    TauIs(o, r, t);
    RealMass(argMax, r, t);
    forall c | 0 <= c < r.V ensures WeightAt(o, r, t, c) == BV.Correction(BlockOf(r), r.X[..t], c) {
      RealResidual(argMax, r, t, c);
      hide ResidualAt, BV.Residual, MassAt, BV.S;
    }
  }

  // --- any tree whose rows along the drafts are the request's

  /** The request's rows are the tree block's at every prefix of its drafts. */
  ghost predicate Reads(r: Request<real>, b: BV.Block)
    requires Shaped(r)
  {
    && b.V == r.V && b.g == |r.X| && b.live == (if r.live.Some? then r.live.value else |r.X|)
    && (forall i, c :: 0 <= i <= |r.X| && 0 <= c < r.V ==> r.P[i][c] == b.p(r.X[..i], c))
    && (forall i, c :: 0 <= i < |r.X| && 0 <= c < r.V ==> r.Q[i][c] == b.q(r.X[..i], c))
  }

  lemma RowsHere(r: Request<real>, b: BV.Block, i: nat, c: nat)
    requires Shaped(r) && Reads(r, b) && i <= |r.X| && c < r.V
    ensures BlockOf(r).p(r.X[..i], c) == b.p(r.X[..i], c)
    ensures i < |r.X| ==> BlockOf(r).q(r.X[..i], c) == b.q(r.X[..i], c)
    ensures |r.X[..i]| == i && BV.DraftRow(BlockOf(r), r.X[..i], c) == BV.DraftRow(b, r.X[..i], c)
  {
    var x := r.X[..i];
    assert |x| == i && r.P[i][c] == b.p(x, c);
    assert At(r.P)(x, c) == Entry(r.P[i])(c) == r.P[i][c];
    if i < |r.X| {
      assert r.Q[i][c] == b.q(x, c);
      assert At(r.Q)(x, c) == Entry(r.Q[i])(c) == r.Q[i][c];
    }
  }

  lemma {:induction false} SameW(r: Request<real>, b: BV.Block, i: nat)
    requires Shaped(r) && Reads(r, b) && i <= |r.X|
    ensures BV.W(BlockOf(r), r.X[..i]) == BV.W(b, r.X[..i])
  {
    if i > 0 {
      var x, c := r.X[..i - 1], r.X[i - 1];
      SameW(r, b, i - 1);
      RowsHere(r, b, i - 1, c);
      BV.WChild(BlockOf(r), x, c);
      BV.WChild(b, x, c);
      BV.RatioChild(BlockOf(r), x, c);
      BV.RatioChild(b, x, c);
      assert x + [c] == r.X[..i];
      hide BV.W, BV.Over, BV.Capped, BV.Ratio, At;
    }
  }

  lemma SameResidual(r: Request<real>, b: BV.Block, i: nat, c: nat)
    requires Shaped(r) && Reads(r, b) && i <= |r.X| && c < r.V
    ensures BV.Residual(BlockOf(r), r.X[..i], c) == BV.Residual(b, r.X[..i], c)
  {
    SameW(r, b, i);
    RowsHere(r, b, i, c);
    hide BV.W, BV.Excess, BV.DraftRow, At;
  }

  lemma SameS(r: Request<real>, b: BV.Block, i: nat)
    requires Shaped(r) && Reads(r, b) && i <= |r.X|
    ensures BV.S(BlockOf(r), r.X[..i]) == BV.S(b, r.X[..i])
  {
    hide BV.Residual;
    forall c: nat | c < r.V ensures BV.ResidualRow(BlockOf(r), r.X[..i])(c) == BV.ResidualRow(b, r.X[..i])(c) {
      SameResidual(r, b, i, c);
    }
    SumEq(r.V, BV.ResidualRow(BlockOf(r), r.X[..i]), BV.ResidualRow(b, r.X[..i]));
  }

  /** The acceptance tests of a tree block on the request's drafts and uniform draws. */
  function Passed(r: Request<real>, b: BV.Block): (bits: seq<bool>)
    requires Shaped(r)
    ensures |bits| == |r.X|
  {
    seq(|r.X|, i requires 0 <= i < |r.X| => BV.Alive(b, i) && r.eta[i] <= BV.H(b, r.X[..i + 1]))
  }

  /**
   * So on every block, such as the valid ones whose law is the target's, the code run on its rows along the drafts
   * accepts up to the block's last success and draws from the block's correction there.
   */
  lemma AcceptIsTree(argMax: seq<real> -> nat, r: Request<real>, b: BV.Block)
    requires Shaped(r) && Reads(r, b)
    ensures Tau(RealOps(argMax), r) == BV.Last(Passed(r, b))
    ensures forall c :: 0 <= c < r.V ==>
              WeightAt(RealOps(argMax), r, Tau(RealOps(argMax), r), c)
              == BV.Correction(b, r.X[..Tau(RealOps(argMax), r)], c)
  {
    AcceptIsModel(argMax, r);
    forall i | 0 <= i < |r.X| ensures Bits(r)[i] == Passed(r, b)[i] { SameTest(r, b, i); }
    assert Bits(r) == Passed(r, b);
    var t := Tau(RealOps(argMax), r);
    forall c | 0 <= c < r.V ensures BV.Correction(BlockOf(r), r.X[..t], c) == BV.Correction(b, r.X[..t], c) {
      SameCorrection(r, b, t, c);
    }
    hide Tau, WeightAt, BV.Correction, Bits, Passed, Reads;
  }

  lemma SameTest(r: Request<real>, b: BV.Block, i: nat)
    requires Shaped(r) && Reads(r, b) && i < |r.X|
    ensures BV.Alive(BlockOf(r), i) == BV.Alive(b, i)
    ensures BV.H(BlockOf(r), r.X[..i + 1]) == BV.H(b, r.X[..i + 1])
  {
    SameW(r, b, i + 1);
    SameS(r, b, i + 1);
    hide BV.W, BV.S, BV.Over;
  }

  lemma SameCorrection(r: Request<real>, b: BV.Block, i: nat, c: nat)
    requires Shaped(r) && Reads(r, b) && i <= |r.X| && c < r.V
    ensures BV.Correction(BlockOf(r), r.X[..i], c) == BV.Correction(b, r.X[..i], c)
  {
    SameS(r, b, i);
    SameResidual(r, b, i, c);
    RowsHere(r, b, i, c);
    hide BV.Residual, BV.S, BV.Over, At, BV.DraftRow;
  }

  // --- the race

  /** The returned token wins the block's own race: of all tokens its correction weight is greatest relative to its
      exponential draw. */
  lemma RaceWon(argMax: seq<real> -> nat, r: Request<real>, b: BV.Block, corr: nat)
    requires Shaped(r) && Reads(r, b) && (forall c :: 0 <= c < r.V ==> r.gumbel[c] > 0.0)
    requires Wins(RealOps(argMax), r, Tau(RealOps(argMax), r), corr)
    ensures var x := r.X[..BV.Last(Passed(r, b))];
            && corr < r.V
            && forall c :: 0 <= c < r.V ==>
                 Times(BV.Correction(b, x, corr), r.gumbel[c]) >= Times(BV.Correction(b, x, c), r.gumbel[corr])
  {
    AcceptIsTree(argMax, r, b);
    var o, t := RealOps(argMax), Tau(RealOps(argMax), r);
    hide Tau, WeightAt, BV.Correction, Passed, Reads;
    forall c | 0 <= c < r.V
      ensures Times(BV.Correction(b, r.X[..t], corr), r.gumbel[c])
              >= Times(BV.Correction(b, r.X[..t], c), r.gumbel[corr])
    {
      assert o.atMost(o.div(WeightAt(o, r, t, c), r.gumbel[c]), o.div(WeightAt(o, r, t, corr), r.gumbel[corr]));
      CrossMultiply(BV.Correction(b, r.X[..t], c), r.gumbel[c], BV.Correction(b, r.X[..t], corr), r.gumbel[corr]);
    }
  }

  lemma CrossMultiply(a: real, p: real, b: real, q: real)
    requires p > 0.0 && q > 0.0 && a / p <= b / q
    ensures Times(b, p) >= Times(a, q)
  {
    var x, y := a / p, b / q;
    assert a == x * p && b == y * q;
    TimesMono(x, y, p * q);
    assert Times(x, p * q) == a * q && Times(y, p * q) == b * p by {
      assert x * (p * q) == x * p * q;
      assert y * (p * q) == y * q * p;
    }
  }

  lemma RealGreatest(argMax: seq<real> -> nat)
    requires forall s: seq<real> :: |s| > 0 ==> argMax(s) < |s| && forall k :: 0 <= k < |s| ==> s[k] <= s[argMax(s)]
    ensures Greatest(RealOps(argMax))
  {}

  /**
   * The method over the reals, on the rows of a tree block along the drafts: it accepts up to the block's last
   * success, and its token wins the race of the block's correction weights there.
   */
  method AcceptReal(argMax: seq<real> -> nat, r: Request<real>, ghost b: BV.Block) returns (tau: nat, corr: nat)
    requires Shaped(r) && Reads(r, b) && (forall c :: 0 <= c < r.V ==> r.gumbel[c] > 0.0)
    requires forall s: seq<real> :: |s| > 0 ==> argMax(s) < |s| && forall k :: 0 <= k < |s| ==> s[k] <= s[argMax(s)]
    ensures tau == BV.Last(Passed(r, b)) <= |r.X| && corr < r.V
    ensures forall c :: 0 <= c < r.V ==>
              Times(BV.Correction(b, r.X[..tau], corr), r.gumbel[c])
              >= Times(BV.Correction(b, r.X[..tau], c), r.gumbel[corr])
  {
    RealGreatest(argMax);
    tau, corr := BlockAcceptProbs(RealOps(argMax), r);
    AcceptIsTree(argMax, r, b);
    RaceWon(argMax, r, b, corr);
  }
}
