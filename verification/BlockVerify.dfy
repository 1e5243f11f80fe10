/**
 * Block verification for sampled speculative decoding (adapter/block_verify.py): the acceptance rule
 * as the code computes it, over exact reals, and the law of what it emits.
 *
 * A token is a natural number below the vocabulary size. The target and the draft model are trees of
 * conditional distributions: `p(x, c)` is the probability of token c after the tokens x. The two random
 * primitives are that a uniform draw is at most h with probability h, and that the arg-max of weights
 * divided by independent exponentials picks a token with probability proportional to its weight.
 */
module BlockVerify {
  import opened RealSums

  type Tokens = seq<nat>
  type Tree = (Tokens, nat) -> real

  // The floor the code puts under its divisors (clamp_min(1e-30)).
  const FLOOR: real := 1.0 / 1000000000000000000000000000000.0

  /** One request: vocabulary size, drafted block length, drafts actually verified, target and draft trees. */
  datatype Block = Block(V: nat, g: nat, live: int, p: Tree, q: Tree)

  function Row(t: Tree, x: Tokens): nat -> real { (c: nat) => t(x, c) }

  ghost predicate IsTree(V: nat, t: Tree) {
    && (forall x: Tokens, c: nat :: t(x, c) >= 0.0)
    && (forall x: Tokens :: Sum(V, Row(t, x)) == 1.0)
  }

  ghost predicate Valid(b: Block) {
    b.V >= 1 && b.g >= 1 && IsTree(b.V, b.p) && IsTree(b.V, b.q)
  }

  // ------------------------------------------------------------------------------------------
  // the acceptance rule
  // ------------------------------------------------------------------------------------------

  predicate Alive(b: Block, i: nat) { i < b.live }

  /** The draft row at position |x|: zero beyond the verified drafts and on the padding row g. */
  function DraftRow(b: Block, x: Tokens, c: nat): real {
    if |x| < b.g && Alive(b, |x|) then b.q(x, c) else 0.0
  }

  /** A quotient with the code's floor under the divisor. */
  function Over(a: real, d: real): real { a / Max(d, FLOOR) }

  /** min(w·r, 1) */
  function Capped(w: real, r: real): real { Min(Times(w, r), 1.0) }

  /** max(w·p - q, 0) */
  function Excess(w: real, p: real, q: real): real { Max(Times(w, p) - q, 0.0) }

  function Ratio(b: Block, x: Tokens): real
    requires |x| > 0
  {
    var prefix, c := x[..|x| - 1], x[|x| - 1];
    if Alive(b, |x| - 1) then Over(b.p(prefix, c), b.q(prefix, c)) else 0.0
  }

  /** w_i for the prefix x of length i. */
  function W(b: Block, x: Tokens): real {
    if |x| == 0 then 1.0 else Capped(W(b, x[..|x| - 1]), Ratio(b, x))
  }

  function Residual(b: Block, x: Tokens, c: nat): real {
    Excess(W(b, x), b.p(x, c), DraftRow(b, x, c))
  }

  function ResidualRow(b: Block, x: Tokens): nat -> real { (c: nat) => Residual(b, x, c) }

  /** S_i: the residual mass after x (also the mass of the correction row). */
  function S(b: Block, x: Tokens): real { Sum(b.V, ResidualRow(b, x)) }

  /** h_i for a prefix of length i >= 1. */
  function H(b: Block, x: Tokens): real
    requires |x| > 0
  {
    if |x| < b.g then Over(S(b, x), S(b, x) + (1.0 - W(b, x))) else W(b, x)
  }

  /** The probability that the acceptance test at x succeeds; the empty prefix is always accepted. */
  function Test(b: Block, x: Tokens): real {
    if |x| == 0 then 1.0 else if Alive(b, |x| - 1) then H(b, x) else 0.0
  }

  /** The weights the correction token is drawn from after accepting x. */
  function Correction(b: Block, x: Tokens, c: nat): real {
    if S(b, x) > 0.0 then Over(Residual(b, x, c), S(b, x)) else b.p(x, c)
  }

  function CorrectionRow(b: Block, x: Tokens): nat -> real { (c: nat) => Correction(b, x, c) }

  // ------------------------------------------------------------------------------------------
  // the law of one step
  // ------------------------------------------------------------------------------------------

  /** Mean of f over the drafts that complete x, each drawn from the draft tree. */
  ghost function DraftMean(b: Block, x: Tokens, f: Tokens -> real): real
    decreases b.g - |x|, 1
  {
    if |x| >= b.g then f(x) else Sum(b.V, DraftTerm(b, x, f))
  }

  ghost function DraftTerm(b: Block, x: Tokens, f: Tokens -> real): nat -> real
    requires |x| < b.g
    decreases b.g - |x|, 0
  {
    (c: nat) => Times(b.q(x, c), DraftMean(b, x + [c], f))
  }

  /** Mean of f over independent acceptance bits, bit i being set with probability h[i]. */
  ghost function BitsMean(h: seq<real>, f: seq<bool> -> real): real
    decreases |h|
  {
    if h == [] then f([]) else BitsMean(h[..|h| - 1], LastBit(h[|h| - 1], f))
  }

  /** f averaged over one more bit. */
  ghost function LastBit(t: real, f: seq<bool> -> real): seq<bool> -> real {
    (s: seq<bool>) => Mix(t, f(s + [true]), f(s + [false]))
  }

  /** tau: the largest 1-based index whose test succeeded, 0 if none did. */
  function Last(bits: seq<bool>): (t: nat)
    ensures t <= |bits|
    ensures t > 0 ==> bits[t - 1]
    ensures forall j :: t <= j < |bits| ==> !bits[j]
  {
    if bits == [] then 0 else if bits[|bits| - 1] then |bits| else Last(bits[..|bits| - 1])
  }

  function Tests(b: Block, X: Tokens): seq<real> {
    seq(|X|, i requires 0 <= i < |X| => Test(b, X[..i + 1]))
  }

  ghost function AtAccepted(X: Tokens, F: Tokens -> real): seq<bool> -> real {
    (s: seq<bool>) => if Last(s) <= |X| then F(X[..Last(s)]) else 0.0
  }

  ghost function OverDraft(b: Block, F: Tokens -> real): Tokens -> real {
    X => BitsMean(Tests(b, X), AtAccepted(X, F))
  }

  /** Mean, over drafts and acceptance tests, of F at the accepted prefix. */
  ghost function StepMean(b: Block, F: Tokens -> real): real {
    DraftMean(b, [], OverDraft(b, F))
  }

  /** The target's probability of the tokens y after x. */
  ghost function Path(t: Tree, x: Tokens, y: Tokens): real
    decreases |y|
  {
    if y == [] then 1.0 else Times(t(x, y[0]), Path(t, x + [y[0]], y[1..]))
  }

  /** The chance that the exponential race over the weights picks c (no weight, no pick). */
  function Pick(V: nat, weights: nat -> real, c: nat): real {
    var total := Sum(V, weights);
    if total > 0.0 then weights(c) / total else 0.0
  }

  /** Probability that accepting x, then one correction token, then target sampling, starts with y. */
  ghost function Emitted(b: Block, y: Tokens): Tokens -> real {
    x =>
      if |y| <= |x| then (if x[..|y|] == y then 1.0 else 0.0)
      else if y[..|x|] == x then
        Times(Pick(b.V, CorrectionRow(b, x), y[|x|]), Path(b.p, y[..|x| + 1], y[|x| + 1..]))
      else 0.0
  }

  /** The probability that the step's output, continued by the target, starts with y. */
  ghost function OutputLaw(b: Block, y: Tokens): real { StepMean(b, Emitted(b, y)) }

  // ------------------------------------------------------------------------------------------
  // when the 1e-30 floors do not bite
  // ------------------------------------------------------------------------------------------

  /** The prefix can be drafted. */
  ghost predicate Drafted(b: Block, x: Tokens) {
    forall i :: 0 <= i < |x| ==> x[i] < b.V && b.q(x[..i], x[i]) > 0.0
  }

  /** The floor under a draft probability q does not change how a token of weight wp = w·p is treated. */
  predicate Clear(wp: real, q: real) {
    q == 0.0 || q >= FLOOR || wp == 0.0 || wp >= FLOOR
  }

  predicate TokenClear(b: Block, x: Tokens, c: nat) {
    Clear(Times(W(b, x), b.p(x, c)), b.q(x, c))
  }

  /** The floor under S + 1 - w does not change h after x. */
  predicate DivisorClear(b: Block, x: Tokens) {
    S(b, x) == 0.0 || S(b, x) + (1.0 - W(b, x)) >= FLOOR
  }

  ghost predicate TokensClear(b: Block, x: Tokens) {
    Alive(b, |x|) ==> forall c: nat :: c < b.V ==> TokenClear(b, x, c)
  }

  ghost predicate NodeClear(b: Block, x: Tokens) {
    && TokensClear(b, x)
    && (|x| > 0 && Alive(b, |x| - 1) ==> DivisorClear(b, x))
  }

  ghost predicate FloorsClear(b: Block) {
    forall x: Tokens :: Drafted(b, x) && |x| < b.g ==> NodeClear(b, x)
  }

  // ------------------------------------------------------------------------------------------
  // w, the residual, and conservation at one token
  // ------------------------------------------------------------------------------------------

  lemma OverNonneg(a: real, d: real)
    requires a >= 0.0
    ensures Over(a, d) >= 0.0
  {
    if Over(a, d) < 0.0 { TimesStrict(Over(a, d), 0.0, Max(d, FLOOR)); }
  }

  lemma CappedRange(w: real, r: real)
    requires w >= 0.0 && r >= 0.0
    ensures 0.0 <= Capped(w, r) <= 1.0
    ensures Capped(w, 0.0) == 0.0
  {
    TimesNonneg(w, r);
  }

  lemma RatioChild(b: Block, x: Tokens, c: nat)
    ensures Ratio(b, x + [c]) == if Alive(b, |x|) then Over(b.p(x, c), b.q(x, c)) else 0.0
  {
    assert (x + [c])[..|x|] == x;
  }

  lemma WChild(b: Block, x: Tokens, c: nat)
    ensures W(b, x + [c]) == Capped(W(b, x), Ratio(b, x + [c]))
  {
    hide Capped;
    var xc := x + [c];
    assert xc[..|xc| - 1] == x;
  }

  lemma RatioNonneg(b: Block, x: Tokens)
    requires Valid(b) && |x| > 0
    ensures Ratio(b, x) >= 0.0
  {
    if Alive(b, |x| - 1) { OverNonneg(b.p(x[..|x| - 1], x[|x| - 1]), b.q(x[..|x| - 1], x[|x| - 1])); }
  }

  lemma {:induction false} WRange(b: Block, x: Tokens)
    requires Valid(b)
    ensures 0.0 <= W(b, x) <= 1.0
    ensures |x| > 0 && !Alive(b, |x| - 1) ==> W(b, x) == 0.0
  {
    if |x| > 0 {
      WRange(b, x[..|x| - 1]);
      RatioNonneg(b, x);
      CappedRange(W(b, x[..|x| - 1]), Ratio(b, x));
    }
  }

  lemma SRange(b: Block, x: Tokens)
    requires Valid(b)
    ensures S(b, x) >= 0.0
    ensures forall c: nat :: c < b.V ==> 0.0 <= Residual(b, x, c) <= S(b, x)
  {
    hide W;
    SumNonneg(b.V, ResidualRow(b, x));
    forall c: nat | c < b.V ensures 0.0 <= Residual(b, x, c) <= S(b, x) {
      assert ResidualRow(b, x)(c) == Residual(b, x, c);
    }
  }

  /** q times the accepted fraction of a token of weight wp is at most min(wp, q), and equal when no floor bites. */
  lemma FloorExact(wp: real, q: real)
    requires wp >= 0.0 && q >= 0.0
    ensures Times(q, Min(Over(wp, q), 1.0)) <= Min(wp, q)
    ensures Times(q, Min(Over(wp, q), 1.0)) == Min(wp, q) <==> Clear(wp, q)
  {
    var d, r := Max(q, FLOOR), Over(wp, q);
    DivideBack(wp, d);
    TimesUnits(q);
    hide Over, Times;
    if q >= FLOOR {
      AboveFloor(wp, q, r);
    } else if wp >= FLOOR {
      TooLarge(wp, d, r);
    } else if q > 0.0 && wp > 0.0 {
      BelowFloor(wp, q, d, r);
    } else if wp == 0.0 {
      TooSmall(d, r);
    }
  }

  lemma DivideBack(a: real, d: real)
    requires d > 0.0
    ensures Times(a / d, d) == a
  {}

  lemma AboveFloor(wp: real, q: real, r: real)
    requires q > 0.0 && wp >= 0.0 && Times(r, q) == wp
    ensures Times(q, Min(r, 1.0)) == Min(wp, q)
  {
    TimesComm(r, q);
    TimesUnits(q);
    if r <= 1.0 { TimesMono(r, 1.0, q); } else { TimesMono(1.0, r, q); }
    hide Times;
  }

  lemma TooLarge(wp: real, d: real, r: real)
    requires 0.0 < d <= wp && Times(r, d) == wp
    ensures r >= 1.0
  {
    if r < 1.0 { TimesStrict(r, 1.0, d); }
  }

  lemma TooSmall(d: real, r: real)
    requires d > 0.0 && Times(r, d) == 0.0
    ensures r == 0.0
  {
    if r > 0.0 { TimesStrict(0.0, r, d); }
    if r < 0.0 { TimesStrict(r, 0.0, d); }
  }

  /** Below the floor the accepted part is short of both the draft's and the target's mass. */
  lemma BelowFloor(wp: real, q: real, d: real, r: real)
    requires 0.0 < wp < d && 0.0 < q < d && Times(r, d) == wp
    ensures r < 1.0 && Times(q, r) < q && Times(q, r) < wp
  {
    TimesUnits(d);
    TimesUnits(q);
    TimesComm(r, d);
    if r >= 1.0 { TimesMono(1.0, r, d); }
    TimesStrict(r, 1.0, q);
    if r <= 0.0 { TimesMono(r, 0.0, d); }
    TimesStrict(q, d, r);
    hide Times;
  }

  lemma OverScale(w: real, p: real, q: real)
    ensures Times(w, Over(p, q)) == Over(Times(w, p), q)
  {}

  /** What a live or dead position makes of w and of the residual at one token. */
  lemma NodeValues(b: Block, x: Tokens, c: nat)
    requires Valid(b) && |x| < b.g
    ensures 0.0 <= W(b, x) <= 1.0 && b.p(x, c) >= 0.0 && b.q(x, c) >= 0.0
    ensures W(b, x + [c]) == Capped(W(b, x), if Alive(b, |x|) then Over(b.p(x, c), b.q(x, c)) else 0.0)
    ensures Residual(b, x, c) == Excess(W(b, x), b.p(x, c), if Alive(b, |x|) then b.q(x, c) else 0.0)
  {
    WRange(b, x);
    WChild(b, x, c);
    RatioChild(b, x, c);
    hide W, Capped, Excess, Over, Ratio;
  }

  /**
   * Conservation at one token: the accepted draft mass plus the residual never exceed w·p, and make it up
   * exactly when no floor bites.
   */
  lemma TokenConserved(b: Block, x: Tokens, c: nat)
    requires Valid(b) && |x| < b.g
    ensures Times(b.q(x, c), W(b, x + [c])) + Residual(b, x, c) <= Times(W(b, x), b.p(x, c))
    ensures Times(b.q(x, c), W(b, x + [c])) + Residual(b, x, c) == Times(W(b, x), b.p(x, c))
            <==> !Alive(b, |x|) || TokenClear(b, x, c)
  {
    NodeValues(b, x, c);
    var w, p, q := W(b, x), b.p(x, c), b.q(x, c);
    OverScale(w, p, q);
    TimesNonneg(w, p);
    TimesUnits(w);
    TimesUnits(q);
    hide Times, W, Residual;
    FloorExact(Times(w, p), q);
  }
}
