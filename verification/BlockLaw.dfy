/**
 * The law of block verification: the step mean as a walk over accepted prefixes, the survival
 * probabilities, losslessness, and the comparison with token-by-token verification.
 */
module BlockLaw {
  import opened RealSums
  import opened BlockVerify

  // ------------------------------------------------------------------------------------------
  // the walk over accepted prefixes
  // ------------------------------------------------------------------------------------------

  /** P(tau >= |x| given the drafts x), read off the tree from the leaves up. */
  ghost function Survive(b: Block, x: Tokens): real
    decreases b.g - |x|, 1
  {
    if |x| >= b.g then Test(b, x)
    else var a := Sum(b.V, SurviveTerm(b, x)); a + Times(Test(b, x), 1.0 - a)
  }

  ghost function SurviveTerm(b: Block, x: Tokens): nat -> real
    requires |x| < b.g
    decreases b.g - |x|, 0
  {
    (c: nat) => Times(b.q(x, c), Survive(b, x + [c]))
  }

  /** The part of the step mean of F that comes from accepting at least x, given the drafts x. */
  ghost function MeanFrom(b: Block, F: Tokens -> real, x: Tokens): real
    decreases b.g - |x|, 1
  {
    if |x| >= b.g then Times(Test(b, x), F(x))
    else Sum(b.V, MeanTerm(b, F, x)) + Times(Times(Test(b, x), 1.0 - Sum(b.V, SurviveTerm(b, x))), F(x))
  }

  ghost function MeanTerm(b: Block, F: Tokens -> real, x: Tokens): nat -> real
    requires |x| < b.g
    decreases b.g - |x|, 0
  {
    (c: nat) => Times(b.q(x, c), MeanFrom(b, F, x + [c]))
  }

  // The same two quantities for one completed draft X, by position.

  ghost function TailSurvive(b: Block, X: Tokens, i: nat): real
    requires i <= |X|
    decreases |X| - i
  {
    if i == |X| then Test(b, X)
    else TailSurvive(b, X, i + 1) + Times(Test(b, X[..i]), 1.0 - TailSurvive(b, X, i + 1))
  }

  ghost function TailMean(b: Block, F: Tokens -> real, X: Tokens, i: nat): real
    requires i <= |X|
    decreases |X| - i
  {
    if i == |X| then Times(Test(b, X), F(X))
    else TailMean(b, F, X, i + 1) + Times(Times(Test(b, X[..i]), 1.0 - TailSurvive(b, X, i + 1)), F(X[..i]))
  }

  /** Mean of F at the last success among the first n tests. */
  ghost function HeadMean(b: Block, F: Tokens -> real, X: Tokens, n: nat): real
    requires n <= |X|
  {
    if n == 0 then F([]) else Mix(Test(b, X[..n]), F(X[..n]), HeadMean(b, F, X, n - 1))
  }

  /** Bit means are affine. */
  lemma {:induction false} BitsMeanMix(h: seq<real>, f: seq<bool> -> real, t: real, u: real, g: seq<bool> -> real)
    requires forall s: seq<bool> :: |s| == |h| ==> f(s) == Mix(t, u, g(s))
    ensures BitsMean(h, f) == Mix(t, u, BitsMean(h, g))
    decreases |h|
  {
    if h != [] {
      hide Mix;
      var n := |h| - 1;
      var f', g' := LastBit(h[n], f), LastBit(h[n], g);
      forall s: seq<bool> | |s| == n ensures f'(s) == Mix(t, u, g'(s)) {
        MixMix(h[n], t, u, g(s + [true]), g(s + [false]));
      }
      BitsMeanMix(h[..n], f', t, u, g');
    }
  }

  /** Peeling the last acceptance bit. */
  lemma BitsStep(X: Tokens, F: Tokens -> real, s: seq<bool>)
    requires |s| < |X|
    ensures AtAccepted(X, F)(s + [true]) == F(X[..|s| + 1])
    ensures AtAccepted(X, F)(s + [false]) == AtAccepted(X, F)(s)
  {
    var f, s1, s0 := AtAccepted(X, F), s + [true], s + [false];
    assert s0[..|s|] == s;
    assert f(s1) == F(X[..Last(s1)]) && f(s0) == F(X[..Last(s0)]) && f(s) == F(X[..Last(s)]);
  }

  lemma BitsPeel(h: seq<real>, X: Tokens, F: Tokens -> real)
    requires 0 < |h| <= |X|
    ensures var n := |h| - 1;
            BitsMean(h, AtAccepted(X, F)) == Mix(h[n], F(X[..n + 1]), BitsMean(h[..n], AtAccepted(X, F)))
  {
    hide AtAccepted, Mix;
    var n := |h| - 1;
    var f, t, u := AtAccepted(X, F), h[n], F(X[..n + 1]);
    var f' := LastBit(t, f);
    forall s: seq<bool> | |s| == n ensures f'(s) == Mix(t, u, f(s)) {
      BitsStep(X, F, s);
    }
    BitsMeanMix(h[..n], f', t, u, f);
  }

  /** The mean over acceptance bits is the mean at the last success. */
  lemma {:induction false} BitsToHead(b: Block, F: Tokens -> real, X: Tokens, n: nat)
    requires n <= |X|
    ensures BitsMean(Tests(b, X)[..n], AtAccepted(X, F)) == HeadMean(b, F, X, n)
  {
    hide Test, AtAccepted, Mix;
    if n > 0 {
      var h := Tests(b, X)[..n];
      assert h[..n - 1] == Tests(b, X)[..n - 1];
      BitsPeel(h, X, F);
      BitsToHead(b, F, X, n - 1);
    } else {
      NoBits(X, F);
    }
  }

  lemma NoBits(X: Tokens, F: Tokens -> real)
    ensures AtAccepted(X, F)([]) == F([])
  {
    var f := AtAccepted(X, F);
    assert X[..0] == [];
    var s: seq<bool> := [];
    assert f(s) == F(X[..Last(s)]);
  }

  lemma {:induction false} HeadToTail(b: Block, F: Tokens -> real, X: Tokens, i: nat)
    requires 0 < i <= |X|
    ensures HeadMean(b, F, X, |X|)
            == TailMean(b, F, X, i) + Times(1.0 - TailSurvive(b, X, i), HeadMean(b, F, X, i - 1))
    decreases |X| - i
  {
    hide Test, Times, Mix;
    assert X[..|X|] == X;
    if i < |X| {
      HeadToTail(b, F, X, i + 1);
      Regroup(Test(b, X[..i]), TailSurvive(b, X, i + 1), F(X[..i]), HeadMean(b, F, X, i - 1));
    } else {
      Regroup(Test(b, X), 0.0, F(X), HeadMean(b, F, X, i - 1));
      TimesUnits(Test(b, X));
      TimesUnits(Mix(Test(b, X), F(X), HeadMean(b, F, X, i - 1)));
    }
  }

  lemma Regroup(t: real, a: real, v: real, u: real)
    ensures Times(1.0 - a, Mix(t, v, u)) == Times(Times(t, 1.0 - a), v) + Times(1.0 - (a + Times(t, 1.0 - a)), u)
  {
    assert (1.0 - a) * (t * v + (1.0 - t) * u) == (1.0 - a) * (t * v) + (1.0 - a) * ((1.0 - t) * u);
    assert (1.0 - a) * (t * v) == t * (1.0 - a) * v;
    assert (1.0 - a) * (1.0 - t) == 1.0 - (a + t * (1.0 - a));
    assert (1.0 - a) * ((1.0 - t) * u) == (1.0 - a) * (1.0 - t) * u;
  }

  lemma OverDraftIsHead(b: Block, F: Tokens -> real, X: Tokens)
    ensures OverDraft(b, F)(X) == HeadMean(b, F, X, |X|)
  {
    var f := OverDraft(b, F);
    assert Tests(b, X)[..|X|] == Tests(b, X);
    hide Test, Tests, BitsMean, HeadMean;
    BitsToHead(b, F, X, |X|);
    assert f(X) == BitsMean(Tests(b, X), AtAccepted(X, F));
  }

  lemma OverDraftIsTail(b: Block, F: Tokens -> real, X: Tokens)
    requires |X| > 0
    ensures OverDraft(b, F)(X) == TailMean(b, F, X, 0)
  {
    hide Times, OverDraft, TailMean, TailSurvive, HeadMean;
    OverDraftIsHead(b, F, X);
    HeadToTail(b, F, X, 1);
    RootTest(b);
    hide Test;
    HeadStart(b, F, X);
    TailStart(b, F, X);
    TimesUnits(1.0 - TailSurvive(b, X, 1));
  }

  lemma RootTest(b: Block)
    ensures Test(b, []) == 1.0
  {}

  lemma HeadStart(b: Block, F: Tokens -> real, X: Tokens)
    ensures HeadMean(b, F, X, 0) == F([])
  {}

  lemma TailStart(b: Block, F: Tokens -> real, X: Tokens)
    requires |X| > 0
    ensures TailMean(b, F, X, 0)
            == TailMean(b, F, X, 1) + Times(Times(Test(b, []), 1.0 - TailSurvive(b, X, 1)), F([]))
  {
    hide Test, Times;
    assert X[..0] == [];
  }

  ghost predicate Completes(b: Block, x: Tokens, X: Tokens) {
    |x| <= |X| == b.g && X[..|x|] == x
  }

  lemma CompletesChild(b: Block, x: Tokens, c: nat, X: Tokens)
    requires Completes(b, x + [c], X)
    ensures Completes(b, x, X) && |x| < b.g && X[..|x| + 1] == x + [c]
  {
    assert X[..|x|] == (x + [c])[..|x|];
  }

  lemma {:induction false} DraftMeanEq(b: Block, x: Tokens, f: Tokens -> real, g: Tokens -> real)
    requires |x| <= b.g
    requires forall X :: Completes(b, x, X) ==> f(X) == g(X)
    ensures DraftMean(b, x, f) == DraftMean(b, x, g)
    decreases b.g - |x|
  {
    hide Times;
    if |x| < b.g {
      forall c: nat | c < b.V ensures DraftTerm(b, x, f)(c) == DraftTerm(b, x, g)(c) {
        forall X | Completes(b, x + [c], X) ensures f(X) == g(X) { CompletesChild(b, x, c, X); }
        DraftMeanEq(b, x + [c], f, g);
      }
      SumEq(b.V, DraftTerm(b, x, f), DraftTerm(b, x, g));
    } else {
      assert x[..|x|] == x;
      assert Completes(b, x, x);
    }
  }

  /** Draft means are affine: f = g + k·(1 - e) on every completion gives the same for the means. */
  lemma {:induction false} DraftMeanAffine(b: Block, x: Tokens, f: Tokens -> real,
                                           g: Tokens -> real, k: real, e: Tokens -> real)
    requires Valid(b) && |x| <= b.g
    requires forall X :: Completes(b, x, X) ==> f(X) == g(X) + Times(k, 1.0 - e(X))
    ensures DraftMean(b, x, f) == DraftMean(b, x, g) + Times(k, 1.0 - DraftMean(b, x, e))
    decreases b.g - |x|
  {
    hide Times;
    if |x| < b.g {
      var df, dg, de, row := DraftTerm(b, x, f), DraftTerm(b, x, g), DraftTerm(b, x, e), Row(b.q, x);
      var gap := (c: nat) => row(c) - de(c);
      var scaled := (c: nat) => Times(k, gap(c));
      forall c: nat | c < b.V ensures df(c) == dg(c) + scaled(c) {
        forall X | Completes(b, x + [c], X) ensures f(X) == g(X) + Times(k, 1.0 - e(X)) { CompletesChild(b, x, c, X); }
        DraftMeanAffine(b, x + [c], f, g, k, e);
        ScaleAffine(b.q(x, c), DraftMean(b, x + [c], g), k, DraftMean(b, x + [c], e));
      }
      SumAdd(b.V, df, dg, scaled);
      SumScale(b.V, scaled, k, gap);
      SumAdd(b.V, row, gap, de);
    } else {
      assert x[..|x|] == x;
      assert Completes(b, x, x);
    }
  }

  lemma ScaleAffine(q: real, u: real, k: real, v: real)
    ensures Times(q, u + Times(k, 1.0 - v)) == Times(q, u) + Times(k, q - Times(q, v))
  {}

  ghost function TailSurviveAt(b: Block, i: nat): Tokens -> real {
    X => if i <= |X| then TailSurvive(b, X, i) else 0.0
  }

  ghost function TailMeanAt(b: Block, F: Tokens -> real, i: nat): Tokens -> real {
    X => if i <= |X| then TailMean(b, F, X, i) else 0.0
  }

  lemma {:induction false} SurviveIsMean(b: Block, x: Tokens)
    requires Valid(b) && |x| <= b.g
    ensures DraftMean(b, x, TailSurviveAt(b, |x|)) == Survive(b, x)
    decreases b.g - |x|, 1
  {
    hide Test, Times;
    if |x| < b.g {
      SurviveInner(b, x);
      var inner := TailSurviveAt(b, |x| + 1);
      forall X | Completes(b, x, X)
        ensures TailSurviveAt(b, |x|)(X) == inner(X) + Times(Test(b, x), 1.0 - inner(X)) {}
      DraftMeanAffine(b, x, TailSurviveAt(b, |x|), inner, Test(b, x), inner);
    }
  }

  lemma {:induction false} SurviveInner(b: Block, x: Tokens)
    requires Valid(b) && |x| < b.g
    ensures DraftMean(b, x, TailSurviveAt(b, |x| + 1)) == Sum(b.V, SurviveTerm(b, x))
    decreases b.g - |x|, 0
  {
    hide Test, Times;
    var inner := TailSurviveAt(b, |x| + 1);
    forall c: nat | c < b.V ensures DraftTerm(b, x, inner)(c) == SurviveTerm(b, x)(c) {
      SurviveIsMean(b, x + [c]);
    }
    SumEq(b.V, DraftTerm(b, x, inner), SurviveTerm(b, x));
  }

  lemma {:induction false} MeanFromIsMean(b: Block, F: Tokens -> real, x: Tokens)
    requires Valid(b) && |x| <= b.g
    ensures DraftMean(b, x, TailMeanAt(b, F, |x|)) == MeanFrom(b, F, x)
    decreases b.g - |x|
  {
    hide Test, Times;
    if |x| < b.g {
      var inner, alive := TailMeanAt(b, F, |x| + 1), TailSurviveAt(b, |x| + 1);
      forall c: nat | c < b.V ensures DraftTerm(b, x, inner)(c) == MeanTerm(b, F, x)(c) {
        MeanFromIsMean(b, F, x + [c]);
      }
      SumEq(b.V, DraftTerm(b, x, inner), MeanTerm(b, F, x));
      SurviveInner(b, x);
      var t, v := Test(b, x), F(x);
      forall X | Completes(b, x, X)
        ensures TailMeanAt(b, F, |x|)(X) == inner(X) + Times(Times(t, v), 1.0 - alive(X))
      {
        Swap(t, 1.0 - alive(X), v);
      }
      DraftMeanAffine(b, x, TailMeanAt(b, F, |x|), inner, Times(t, v), alive);
      Swap(t, 1.0 - Sum(b.V, SurviveTerm(b, x)), v);
    }
  }

  lemma Swap(t: real, a: real, v: real)
    ensures Times(Times(t, a), v) == Times(Times(t, v), a)
  {}

  /** The step mean is the walk from the empty prefix. */
  lemma StepMeanIsWalk(b: Block, F: Tokens -> real)
    requires Valid(b)
    ensures StepMean(b, F) == MeanFrom(b, F, [])
  {
    hide TailMean, OverDraft, Test;
    forall X | Completes(b, [], X) ensures OverDraft(b, F)(X) == TailMeanAt(b, F, 0)(X) {
      OverDraftIsTail(b, F, X);
    }
    DraftMeanEq(b, [], OverDraft(b, F), TailMeanAt(b, F, 0));
    MeanFromIsMean(b, F, []);
  }

  // ------------------------------------------------------------------------------------------
  // conservation at one prefix
  // ------------------------------------------------------------------------------------------

  /** q(x, c) · w after c */
  ghost function WTerm(b: Block, x: Tokens): nat -> real { (c: nat) => Times(b.q(x, c), W(b, x + [c])) }

  /** The mass the drafts after x keep accepted; nothing follows a complete block. */
  ghost function Kept(b: Block, x: Tokens): real { if |x| < b.g then Sum(b.V, WTerm(b, x)) else 0.0 }

  /** Accepted mass plus residual mass never exceed w, and make it up exactly when no floor bites on a token. */
  lemma KeptPlusResidual(b: Block, x: Tokens)
    requires Valid(b) && |x| <= b.g
    ensures Kept(b, x) + S(b, x) <= W(b, x)
    ensures Kept(b, x) + S(b, x) == W(b, x) <==> |x| == b.g || TokensClear(b, x)
  {
    hide W, Residual, Times, TokenClear;
    var kept, res, target, w := WTerm(b, x), ResidualRow(b, x), Row(b.p, x), W(b, x);
    var both, owed := (c: nat) => kept(c) + res(c), (c: nat) => Times(w, target(c));
    SumScale(b.V, owed, w, target);
    TimesUnits(w);
    if |x| < b.g {
      forall c: nat | c < b.V
        ensures both(c) <= owed(c)
        ensures both(c) == owed(c) <==> !Alive(b, |x|) || TokenClear(b, x, c)
      {
        TokenConserved(b, x, c);
      }
      SumAdd(b.V, both, kept, res);
      SumMono(b.V, both, owed);
      if TokensClear(b, x) { SumEq(b.V, both, owed); }
    } else {
      forall c: nat | c < b.V ensures res(c) == owed(c) { LeafResidual(b, x, c); }
      SumEq(b.V, res, owed);
    }
  }

  lemma LeafResidual(b: Block, x: Tokens, c: nat)
    requires Valid(b) && |x| >= b.g
    ensures Residual(b, x, c) == Times(W(b, x), b.p(x, c))
  {
    WRange(b, x);
    hide W;
    TimesNonneg(W(b, x), b.p(x, c));
  }

  lemma OverWhole(s: real, d: real)
    requires s == 0.0 || d >= FLOOR
    ensures Times(Over(s, d), d) == s
  {}

  /** Stopping exactly at x has the probability of the residual mass there. */
  lemma StopMass(b: Block, x: Tokens)
    requires Valid(b) && |x| <= b.g
    requires |x| < b.g ==> NodeClear(b, x)
    ensures Times(Test(b, x), 1.0 - Kept(b, x)) == S(b, x)
  {
    KeptPlusResidual(b, x);
    WRange(b, x);
    SRange(b, x);
    KeptNonneg(b, x);
    var s, w := S(b, x), W(b, x);
    hide W, S, Times, Over, Kept, TokensClear;
    TimesUnits(1.0 - Kept(b, x));
    TimesUnits(w);
    if |x| == b.g {
      KeptLeaf(b, x);
    } else if x != [] && Alive(b, |x| - 1) {
      OverWhole(s, s + (1.0 - w));
    }
  }

  lemma KeptLeaf(b: Block, x: Tokens)
    requires |x| >= b.g
    ensures Kept(b, x) == 0.0
  {}

  lemma KeptNonneg(b: Block, x: Tokens)
    requires Valid(b)
    ensures Kept(b, x) >= 0.0
  {
    hide W;
    if |x| < b.g {
      forall c: nat | c < b.V ensures WTerm(b, x)(c) >= 0.0 {
        WRange(b, x + [c]);
        TimesNonneg(b.q(x, c), W(b, x + [c]));
      }
      SumNonneg(b.V, WTerm(b, x));
    }
  }

  lemma DraftedChild(b: Block, x: Tokens, c: nat)
    requires Drafted(b, x) && c < b.V && b.q(x, c) > 0.0
    ensures Drafted(b, x + [c])
  {
    var xc := x + [c];
    forall i | 0 <= i < |xc| ensures xc[i] < b.V && b.q(xc[..i], xc[i]) > 0.0 {
      assert xc[..i] == if i < |x| then x[..i] else x;
    }
  }

  /**
   * Survival: for every draft prefix, the probability of accepting at least that prefix, given the
   * drafts up to it, is exactly w — for every block length and every number of verified drafts.
   */
  lemma {:induction false} SurvivalIsW(b: Block, x: Tokens)
    requires Valid(b) && FloorsClear(b) && Drafted(b, x) && |x| <= b.g
    ensures Survive(b, x) == W(b, x)
    decreases b.g - |x|, 1
  {
    assert |x| < b.g ==> NodeClear(b, x);
    StopMass(b, x);
    KeptPlusResidual(b, x);
    if |x| < b.g {
      KeptIsSurvive(b, x);
    } else {
      KeptLeaf(b, x);
      TimesUnits(Test(b, x));
    }
    hide W, S, Test, Kept, Times, NodeClear, SurviveTerm;
  }

  lemma {:induction false} KeptIsSurvive(b: Block, x: Tokens)
    requires Valid(b) && FloorsClear(b) && Drafted(b, x) && |x| < b.g
    ensures Sum(b.V, SurviveTerm(b, x)) == Kept(b, x)
    decreases b.g - |x|, 0
  {
    hide W, Survive, Times;
    forall c: nat | c < b.V ensures SurviveTerm(b, x)(c) == WTerm(b, x)(c) {
      if b.q(x, c) > 0.0 {
        DraftedChild(b, x, c);
        SurvivalIsW(b, x + [c]);
      } else {
        TimesUnits(Survive(b, x + [c]));
        TimesUnits(W(b, x + [c]));
      }
    }
    SumEq(b.V, SurviveTerm(b, x), WTerm(b, x));
  }

  /** 1 on prefixes of at least i drafts. */
  ghost function AtLeast(i: nat): Tokens -> real { (z: Tokens) => if |z| >= i then 1.0 else 0.0 }

  /** P(tau >= |x|), over the later drafts and all acceptance tests, given that the drafts start with x. */
  ghost function SurvivalLaw(b: Block, x: Tokens): real { DraftMean(b, x, OverDraft(b, AtLeast(|x|))) }

  lemma {:induction false} TailIndicator(b: Block, i: nat, X: Tokens, j: nat)
    requires j <= |X| && i <= |X|
    ensures TailMean(b, AtLeast(i), X, j) == TailSurvive(b, X, if j >= i then j else i)
    decreases |X| - j
  {
    hide Test, Times;
    AtLeastIs(i, X[..j]);
    assert X[..|X|] == X;
    if j < |X| {
      TailIndicator(b, i, X, j + 1);
      TimesUnits(Times(Test(b, X[..j]), 1.0 - TailSurvive(b, X, j + 1)));
    } else {
      TimesUnits(Test(b, X));
    }
  }

  lemma AtLeastIs(i: nat, z: Tokens)
    ensures AtLeast(i)(z) == if |z| >= i then 1.0 else 0.0
  {}

  /** The survival probability of the model is the one the tree recursion computes. */
  lemma SurvivalLawIsSurvive(b: Block, x: Tokens)
    requires Valid(b) && |x| <= b.g
    ensures SurvivalLaw(b, x) == Survive(b, x)
  {
    hide OverDraft, TailMean, TailSurvive, AtLeast, Survive, DraftMean;
    forall X | Completes(b, x, X) ensures OverDraft(b, AtLeast(|x|))(X) == TailSurviveAt(b, |x|)(X) {
      OverDraftIsTail(b, AtLeast(|x|), X);
      TailIndicator(b, |x|, X, 0);
    }
    DraftMeanEq(b, x, OverDraft(b, AtLeast(|x|)), TailSurviveAt(b, |x|));
    SurviveIsMean(b, x);
  }

  /** The survival law is w on every draft prefix, when no floor bites. */
  lemma SurvivalLawIsW(b: Block, x: Tokens)
    requires Valid(b) && FloorsClear(b) && Drafted(b, x) && |x| <= b.g
    ensures SurvivalLaw(b, x) == W(b, x)
  {
    hide SurvivalLaw, Survive, W, FloorsClear;
    SurvivalLawIsSurvive(b, x);
    SurvivalIsW(b, x);
  }

  // ------------------------------------------------------------------------------------------
  // losslessness
  // ------------------------------------------------------------------------------------------

  /** Probability of accepting exactly x, given the drafts x. */
  ghost function Stop(b: Block, x: Tokens): real {
    if |x| < b.g then Times(Test(b, x), 1.0 - Sum(b.V, SurviveTerm(b, x))) else Test(b, x)
  }

  ghost function InnerMean(b: Block, F: Tokens -> real, x: Tokens): real {
    if |x| < b.g then Sum(b.V, MeanTerm(b, F, x)) else 0.0
  }

  ghost function InnerSurvive(b: Block, x: Tokens): real {
    if |x| < b.g then Sum(b.V, SurviveTerm(b, x)) else 0.0
  }

  /** One step of the walk: what is accepted further down, and what stops here. */
  lemma WalkStep(b: Block, F: Tokens -> real, x: Tokens)
    requires |x| <= b.g
    ensures MeanFrom(b, F, x) == InnerMean(b, F, x) + Times(Stop(b, x), F(x))
    ensures Survive(b, x) == InnerSurvive(b, x) + Stop(b, x)
  {
    hide Test, Times;
  }

  /** The chance that the step's correction after x is c. */
  ghost function Correct(b: Block, x: Tokens, c: nat): real { Pick(b.V, CorrectionRow(b, x), c) }

  /** The draft mass accepted on c after x; none after a complete block. */
  ghost function Accepted(b: Block, x: Tokens, c: nat): real {
    if |x| < b.g then Times(b.q(x, c), Survive(b, x + [c])) else 0.0
  }

  /** What emits c after x beyond the target's share of the mass that accepts x. */
  ghost function Defect(b: Block, x: Tokens, c: nat): real {
    Accepted(b, x, c) + Times(Stop(b, x), Correct(b, x, c)) - Times(b.p(x, c), Survive(b, x))
  }

  ghost predicate InVocabulary(b: Block, y: Tokens) {
    forall i :: 0 <= i < |y| ==> y[i] < b.V
  }

  // Emitted, case by case.

  lemma EmittedPast(b: Block, y: Tokens, x: Tokens)
    requires |y| <= |x|
    ensures Emitted(b, y)(x) == if x[..|y|] == y then 1.0 else 0.0
  {
    hide Pick, Path, Times;
    var F := Emitted(b, y);
    assert F(x) == if x[..|y|] == y then 1.0 else 0.0;
  }

  lemma EmittedOff(b: Block, y: Tokens, x: Tokens)
    requires |x| < |y| && y[..|x|] != x
    ensures Emitted(b, y)(x) == 0.0
  {
    hide Pick, Path, Times;
    var F := Emitted(b, y);
    assert F(x) == 0.0;
  }

  lemma EmittedOn(b: Block, y: Tokens, x: Tokens)
    requires |x| < |y| && y[..|x|] == x
    ensures Emitted(b, y)(x) == Times(Correct(b, x, y[|x|]), Path(b.p, x + [y[|x|]], y[|x| + 1..]))
  {
    hide Pick, Path, Times;
    var F := Emitted(b, y);
    assert y[..|x| + 1] == x + [y[|x|]];
    assert F(x) == Times(Pick(b.V, CorrectionRow(b, x), y[|x|]), Path(b.p, y[..|x| + 1], y[|x| + 1..]));
  }

  /** The walk from a prefix that already contains y, or has left it. */
  ghost predicate Settled(x: Tokens, y: Tokens) { |y| <= |x| || y[..|x|] != x }

  lemma SettledChild(x: Tokens, c: nat, y: Tokens)
    requires Settled(x, y) || (|x| < |y| && (y[..|x|] != x || c != y[|x|]))
    ensures Settled(x + [c], y)
    ensures Settled(x, y) ==> (y <= x + [c] <==> y <= x)
    ensures !Settled(x, y) ==> !(y <= x + [c])
  {
    var xc := x + [c];
    assert xc[..|x|] == x && xc[|x|] == c;
    if |y| > |xc| {
      assert y[..|xc|][..|x|] == y[..|x|] && y[..|xc|][|x|] == y[|x|];
    } else if |y| == |xc| {
      assert y[..|x|] == x && y[|x|] == c <==> y == xc;
    } else {
      assert y <= xc <==> y <= x;
    }
  }

  lemma {:induction false} SettledMean(b: Block, x: Tokens, y: Tokens)
    requires |x| <= b.g && Settled(x, y)
    ensures MeanFrom(b, Emitted(b, y), x) == if y <= x then Survive(b, x) else 0.0
    decreases b.g - |x|
  {
    hide Survive, MeanFrom, Emitted, Times, Stop, Settled;
    var F := Emitted(b, y);
    WalkStep(b, F, x);
    TimesUnits(Stop(b, x));
    SettledEmits(b, x, y);
    if |x| < b.g {
      forall c: nat | c < b.V ensures MeanTerm(b, F, x)(c) == if y <= x then SurviveTerm(b, x)(c) else 0.0 {
        SettledChild(x, c, y);
        SettledMean(b, x + [c], y);
        TimesUnits(b.q(x, c));
      }
      if y <= x { SumEq(b.V, MeanTerm(b, F, x), SurviveTerm(b, x)); } else { SumZero(b.V, MeanTerm(b, F, x)); }
    }
  }

  lemma SettledEmits(b: Block, x: Tokens, y: Tokens)
    requires Settled(x, y)
    ensures Emitted(b, y)(x) == if y <= x then 1.0 else 0.0
  {
    hide Emitted;
    if |y| <= |x| { EmittedPast(b, y, x); assert x[..|y|] == y <==> y <= x; } else { EmittedOff(b, y, x); }
  }

  /** The walk one token along y: the branch y takes, and the correction that takes it. */
  lemma AlongMean(b: Block, x: Tokens, y: Tokens)
    requires |x| <= b.g && |x| < |y| && y[..|x|] == x && InVocabulary(b, y)
    ensures MeanFrom(b, Emitted(b, y), x)
            == (if |x| < b.g then Times(b.q(x, y[|x|]), MeanFrom(b, Emitted(b, y), x + [y[|x|]])) else 0.0)
               + Times(Stop(b, x), Times(Correct(b, x, y[|x|]), Path(b.p, x + [y[|x|]], y[|x| + 1..])))
  {
    hide Survive, MeanFrom, Emitted, Times, Stop, Path, Correct;
    var F, d := Emitted(b, y), y[|x|];
    WalkStep(b, F, x);
    EmittedOn(b, y, x);
    if |x| < b.g {
      var term := MeanTerm(b, F, x);
      forall c: nat | c < b.V && c != d ensures term(c) == 0.0 {
        SettledChild(x, c, y);
        SettledMean(b, x + [c], y);
        TimesUnits(b.q(x, c));
      }
      SumSingle(b.V, term, d);
    }
  }

  lemma PathNone(t: Tree, x: Tokens)
    ensures Path(t, x, []) == 1.0
  {}

  lemma PathStep(t: Tree, x: Tokens, y: Tokens)
    requires |x| < |y|
    ensures Path(t, x, y[|x|..]) == Times(t(x, y[|x|]), Path(t, x + [y[|x|]], y[|x| + 1..]))
  {
    hide Times;
    var rest := y[|x|..];
    assert rest[0] == y[|x|] && rest[1..] == y[|x| + 1..];
  }

  lemma {:induction false} PathSnoc(t: Tree, z: Tokens, x: Tokens, c: nat)
    requires z <= x
    ensures Path(t, z, (x + [c])[|z|..]) == Times(t(x, c), Path(t, z, x[|z|..]))
    decreases |x| - |z|
  {
    hide Path, Times;
    var y := x + [c];
    PathStep(t, z, y);
    if |z| < |x| {
      var zd := z + [x[|z|]];
      assert zd <= x && x[..|z|] == z;
      PathSnoc(t, zd, x, c);
      PathStep(t, z, x);
      TimesAssoc(t(z, x[|z|]), t(x, c), Path(t, zd, x[|z| + 1..]));
      TimesAssoc(t(x, c), t(z, x[|z|]), Path(t, zd, x[|z| + 1..]));
      TimesComm(t(z, x[|z|]), t(x, c));
    } else {
      assert z == x && y[|x| + 1..] == [] && x[|z|..] == [];
      PathNone(t, z + [c]);
      PathNone(t, z);
      TimesUnits(t(x, c));
    }
  }

  /**
   * The exact law, floors or no floors: emitting one more token c after x departs from the target's
   * conditional by the draft's probability of x times the defect there.
   */
  lemma {:induction false} LawStep(b: Block, z: Tokens, x: Tokens, c: nat)
    requires z <= x && |z| <= b.g && c < b.V && InVocabulary(b, x)
    ensures MeanFrom(b, Emitted(b, x + [c]), z)
            == Times(b.p(x, c), MeanFrom(b, Emitted(b, x), z))
               + (if |x| <= b.g then Times(Path(b.q, z, x[|z|..]), Defect(b, x, c)) else 0.0)
    decreases |x| - |z|
  {
    hide MeanFrom, Emitted, Path, Times, Stop, Correct, Survive;
    var y := x + [c];
    assert y[..|z|] == z == x[..|z|];
    AlongMean(b, z, y);
    if |z| < |x| {
      var d := x[|z|];
      var zd := z + [d];
      assert zd <= x && y[|z|] == d && y[|z| + 1..] == y[|zd|..] && x[|z| + 1..] == x[|zd|..];
      AlongMean(b, z, x);
      PathSnoc(b.p, zd, x, c);
      if |z| < b.g {
        LawStep(b, zd, x, c);
        PathStep(b.q, z, x);
        LawInner(b.q(z, d), b.p(x, c), MeanFrom(b, Emitted(b, x), zd), Path(b.q, zd, x[|zd|..]), Defect(b, x, c),
                 Stop(b, z), Correct(b, z, d), Path(b.p, zd, x[|zd|..]));
        TimesUnits(Path(b.q, z, x[|z|..]));
        TimesUnits(Path(b.q, zd, x[|zd|..]));
      } else {
        LawTail(b.p(x, c), Stop(b, z), Correct(b, z, d), Path(b.p, zd, x[|zd|..]));
      }
    } else {
      LawHere(b, x, c);
    }
  }

  lemma LawInner(q: real, p: real, m: real, path: real, defect: real, stop: real, pick: real, rest: real)
    ensures Times(q, Times(p, m) + Times(path, defect)) + Times(stop, Times(pick, Times(p, rest)))
            == Times(p, Times(q, m) + Times(stop, Times(pick, rest))) + Times(Times(q, path), defect)
    ensures Times(q, Times(p, m)) + Times(stop, Times(pick, Times(p, rest)))
            == Times(p, Times(q, m) + Times(stop, Times(pick, rest)))
  {
    LawTail(p, stop, pick, rest);
    assert q * (p * m + path * defect) == p * (q * m) + q * path * defect;
  }

  lemma LawTail(p: real, stop: real, pick: real, rest: real)
    ensures Times(stop, Times(pick, Times(p, rest))) == Times(p, Times(stop, Times(pick, rest)))
  {
    assert pick * (p * rest) == p * (pick * rest);
  }

  lemma LawHere(b: Block, x: Tokens, c: nat)
    requires |x| <= b.g && c < b.V && InVocabulary(b, x)
    ensures MeanFrom(b, Emitted(b, x + [c]), x)
            == Times(b.p(x, c), MeanFrom(b, Emitted(b, x), x)) + Times(Path(b.q, x, x[|x|..]), Defect(b, x, c))
  {
    hide MeanFrom, Emitted, Path, Times, Stop, Correct, Survive;
    var y := x + [c];
    assert y[..|x|] == x && y[|x| + 1..] == [] && x[|x|..] == [];
    AlongMean(b, x, y);
    SettledMean(b, x, x);
    PathNone(b.p, y);
    PathNone(b.q, x);
    TimesUnits(Correct(b, x, c));
    TimesUnits(Defect(b, x, c));
    if |x| < b.g { SettledMean(b, y, y); }
  }

  lemma CorrectionTotal(b: Block, x: Tokens)
    requires Valid(b)
    ensures S(b, x) > 0.0 ==> Sum(b.V, CorrectionRow(b, x)) == Over(S(b, x), S(b, x))
  {
    hide W, Residual, Times;
    var s, row, res := S(b, x), CorrectionRow(b, x), ResidualRow(b, x);
    if s > 0.0 {
      var k := Over(1.0, s);
      forall c: nat | c < b.V ensures row(c) == Times(k, res(c)) { OverUnit(res(c), s); }
      SumScale(b.V, row, k, res);
      OverUnit(s, s);
    }
  }

  lemma OverUnit(a: real, d: real)
    ensures Over(a, d) == Times(Over(1.0, d), a)
  {}

  lemma OverRatio(r: real, s: real)
    requires s > 0.0
    ensures Over(s, s) > 0.0
    ensures Times(s, Over(r, s) / Over(s, s)) == r
  {
    var d := Max(s, FLOOR);
    assert Over(s, s) * d == s;
    if Over(s, s) <= 0.0 { TimesMono(Over(s, s), 0.0, d); }
    var k := Over(r, s) / Over(s, s);
    assert k * Over(s, s) == Over(r, s);
    assert k * s == k * (Over(s, s) * d) == (k * Over(s, s)) * d == Over(r, s) * d == r;
  }

  /** The residual mass times the correction's choice is the residual: the floor under the mass cancels. */
  lemma StopPick(b: Block, x: Tokens, c: nat)
    requires Valid(b) && c < b.V
    ensures Times(S(b, x), Correct(b, x, c)) == Residual(b, x, c)
    ensures S(b, x) == 0.0 ==> Correct(b, x, c) == b.p(x, c)
  {
    SRange(b, x);
    CorrectionTotal(b, x);
    TimesUnits(Pick(b.V, CorrectionRow(b, x), c));
    CorrectionPlain(b, x);
    hide W, S, Residual, Times, Over;
    if S(b, x) > 0.0 { OverRatio(Residual(b, x, c), S(b, x)); }
  }

  lemma CorrectionPlain(b: Block, x: Tokens)
    requires Valid(b)
    ensures S(b, x) <= 0.0 ==> Sum(b.V, CorrectionRow(b, x)) == 1.0
  {
    hide S;
    if S(b, x) <= 0.0 { SumEq(b.V, CorrectionRow(b, x), Row(b.p, x)); }
  }

  /** After a complete block the correction is a plain target sample. */
  lemma LeafDefect(b: Block, x: Tokens, c: nat)
    requires Valid(b) && |x| == b.g && c < b.V
    ensures Defect(b, x, c) == 0.0
  {
    var w, s := W(b, x), S(b, x);
    WRange(b, x);
    KeptPlusResidual(b, x);
    LeafResidual(b, x, c);
    StopPick(b, x, c);
    LeafSurvive(b, x);
    TimesComm(Survive(b, x), b.p(x, c));
    hide W, S, Correct, Survive, Times;
    if w != 0.0 { TimesCancel(w, Correct(b, x, c), b.p(x, c)); }
  }

  lemma LeafSurvive(b: Block, x: Tokens)
    requires |x| == b.g
    ensures Survive(b, x) == Stop(b, x)
  {
    hide Test;
  }

  lemma TimesCancel(a: real, u: real, v: real)
    requires a != 0.0 && Times(a, u) == Times(a, v)
    ensures u == v
  {
    assert a * (u - v) == 0.0;
  }

  lemma StopIsResidual(b: Block, x: Tokens)
    requires Valid(b) && FloorsClear(b) && Drafted(b, x) && |x| <= b.g
    ensures Stop(b, x) == S(b, x)
  {
    assert |x| < b.g ==> NodeClear(b, x);
    StopMass(b, x);
    if |x| < b.g {
      KeptIsSurvive(b, x);
    } else {
      KeptLeaf(b, x);
      TimesUnits(Test(b, x));
    }
    hide W, S, Test, Kept, Survive, NodeClear, Times;
  }

  /** No defect where no floor bites. */
  lemma ClearDefect(b: Block, x: Tokens, c: nat)
    requires Valid(b) && FloorsClear(b) && Drafted(b, x) && |x| < b.g && c < b.V
    ensures Defect(b, x, c) == 0.0
  {
    hide W, S, Test, Survive, Residual, TokenClear, DivisorClear, Correct, Times;
    assert NodeClear(b, x);
    StopMass(b, x);
    KeptIsSurvive(b, x);
    SurvivalIsW(b, x);
    StopPick(b, x, c);
    TokenConserved(b, x, c);
    TimesComm(b.p(x, c), W(b, x));
    if b.q(x, c) > 0.0 {
      DraftedChild(b, x, c);
      SurvivalIsW(b, x + [c]);
    } else {
      TimesUnits(Survive(b, x + [c]));
      TimesUnits(W(b, x + [c]));
    }
  }

  /** The step's output at x has the target's conditional law. */
  ghost predicate Balanced(b: Block, x: Tokens) {
    forall c: nat :: c < b.V ==> Defect(b, x, c) == 0.0
  }

  ghost predicate AllBalanced(b: Block) {
    forall x: Tokens :: Drafted(b, x) && |x| < b.g ==> Balanced(b, x)
  }

  lemma {:induction false} PathPositive(b: Block, z: Tokens, x: Tokens)
    requires Valid(b) && z <= x && InVocabulary(b, x) && Drafted(b, z)
    ensures Path(b.q, z, x[|z|..]) >= 0.0
    ensures Path(b.q, z, x[|z|..]) > 0.0 <==> Drafted(b, x)
    decreases |x| - |z|
  {
    hide Path, Times;
    if |z| < |x| {
      var d, zd := x[|z|], z + [x[|z|]];
      assert zd <= x && x[..|z|] == z;
      PathStep(b.q, z, x);
      if b.q(z, d) > 0.0 {
        DraftedChild(b, z, d);
        PathPositive(b, zd, x);
        TimesNonneg(b.q(z, d), Path(b.q, zd, x[|zd|..]));
        TimesUnits(b.q(z, d));
        if Drafted(b, x) { TimesStrict(0.0, Path(b.q, zd, x[|zd|..]), b.q(z, d)); }
      } else {
        TimesUnits(Path(b.q, zd, x[|zd|..]));
        assert b.q(x[..|z|], x[|z|]) == 0.0;
      }
    } else {
      assert z == x && x[|z|..] == [];
      PathNone(b.q, z);
    }
  }

  /** One more token of output, in terms of the law alone. */
  lemma LawExtends(b: Block, x: Tokens, c: nat)
    requires Valid(b) && c < b.V && InVocabulary(b, x)
    ensures OutputLaw(b, x + [c]) == Times(b.p(x, c), OutputLaw(b, x))
                                     + (if |x| < b.g then Times(Path(b.q, [], x), Defect(b, x, c)) else 0.0)
  {
    hide MeanFrom, Emitted, Path, Times, Defect, StepMean;
    StepMeanIsWalk(b, Emitted(b, x + [c]));
    StepMeanIsWalk(b, Emitted(b, x));
    LawStep(b, [], x, c);
    assert x[0..] == x;
    if |x| == b.g {
      LeafDefect(b, x, c);
      TimesUnits(Path(b.q, [], x));
    }
  }

  lemma LawStarts(b: Block)
    requires Valid(b)
    ensures OutputLaw(b, []) == 1.0
  {
    hide MeanFrom, Emitted, StepMean;
    StepMeanIsWalk(b, Emitted(b, []));
    SettledMean(b, [], []);
    RootSurvives(b);
  }

  lemma RootSurvives(b: Block)
    requires b.g >= 1
    ensures Survive(b, []) == 1.0
  {
    assert Test(b, []) == 1.0;
    hide Test, Times, SurviveTerm;
    SurviveRoot(b);
    TimesUnits(1.0 - Sum(b.V, SurviveTerm(b, [])));
  }

  lemma SurviveRoot(b: Block)
    requires b.g >= 1
    ensures Survive(b, []) == Sum(b.V, SurviveTerm(b, [])) + Times(Test(b, []), 1.0 - Sum(b.V, SurviveTerm(b, [])))
  {
    hide Test, Times;
  }

  lemma {:induction false} BalancedLaw(b: Block, y: Tokens)
    requires Valid(b) && AllBalanced(b) && InVocabulary(b, y)
    ensures OutputLaw(b, y) == Path(b.p, [], y)
  {
    hide OutputLaw, Path, Times, Defect, Drafted;
    if y == [] {
      LawStarts(b);
      PathNone(b.p, []);
    } else {
      var x, c, none: Tokens := y[..|y| - 1], y[|y| - 1], [];
      assert y == x + [c] && y[0..] == y && x[0..] == x;
      BalancedLaw(b, x);
      LawExtends(b, x, c);
      PathSnoc(b.p, none, x, c);
      if |x| < b.g {
        NoneDrafted(b);
        PathPositive(b, none, x);
        if Drafted(b, x) { assert Balanced(b, x); }
        TimesUnits(Path(b.q, none, x));
        TimesUnits(Defect(b, x, c));
      }
    }
  }

  lemma NoneDrafted(b: Block)
    ensures Drafted(b, [])
  {}

  /**
   * Losslessness: what block verification emits, continued by the target, has the target's law on every
   * token sequence, for every vocabulary, block length, verified count and pair of models, whenever no
   * 1e-30 floor bites.
   */
  lemma Lossless(b: Block, y: Tokens)
    requires Valid(b) && FloorsClear(b) && InVocabulary(b, y)
    ensures OutputLaw(b, y) == Path(b.p, [], y)
  {
    hide FloorsClear, OutputLaw, Path, Defect;
    forall x: Tokens | Drafted(b, x) && |x| < b.g ensures Balanced(b, x) {
      forall c: nat | c < b.V ensures Defect(b, x, c) == 0.0 { ClearDefect(b, x, c); }
    }
    BalancedLaw(b, y);
  }

  /**
   * Exactly when the code is lossless: the law is the target's on all sequences, of every length, if and
   * only if each draft prefix of the block is balanced on its own.
   */
  lemma LosslessExactly(b: Block)
    requires Valid(b)
    ensures (forall y :: InVocabulary(b, y) ==> OutputLaw(b, y) == Path(b.p, [], y)) <==> AllBalanced(b)
  {
    hide OutputLaw, Path, Defect, Times;
    if AllBalanced(b) {
      forall y | InVocabulary(b, y) ensures OutputLaw(b, y) == Path(b.p, [], y) { BalancedLaw(b, y); }
    }
    if forall y :: InVocabulary(b, y) ==> OutputLaw(b, y) == Path(b.p, [], y) {
      forall x: Tokens | Drafted(b, x) && |x| < b.g ensures Balanced(b, x) {
        forall c: nat | c < b.V ensures Defect(b, x, c) == 0.0 { LosslessForces(b, x, c); }
      }
    }
  }

  lemma LosslessForces(b: Block, x: Tokens, c: nat)
    requires Valid(b) && Drafted(b, x) && |x| < b.g && c < b.V
    requires forall y :: InVocabulary(b, y) ==> OutputLaw(b, y) == Path(b.p, [], y)
    ensures Defect(b, x, c) == 0.0
  {
    hide OutputLaw, Path, Defect, Times;
    var none: Tokens := [];
    var y := x + [c];
    assert InVocabulary(b, x) && InVocabulary(b, y);
    assert OutputLaw(b, x) == Path(b.p, none, x) && OutputLaw(b, y) == Path(b.p, none, y);
    LawExtends(b, x, c);
    PathSnoc(b.p, none, x, c);
    assert y[0..] == y && x[0..] == x;
    PathPositive(b, none, x);
    TimesUnits(Path(b.q, none, x));
    if Defect(b, x, c) != 0.0 { TimesCancel(Path(b.q, none, x), Defect(b, x, c), 0.0); }
  }

  // ------------------------------------------------------------------------------------------
  // balance at one node
  // ------------------------------------------------------------------------------------------

  /** No floor bites at the drafted prefixes from x on. */
  ghost predicate ClearFrom(b: Block, x: Tokens) {
    forall y: Tokens :: x <= y && Drafted(b, y) && |y| < b.g ==> NodeClear(b, y)
  }

  /** No floor bites below x, nor under the divisor of its own h. */
  ghost predicate ClearBelow(b: Block, x: Tokens) {
    && (|x| > 0 && Alive(b, |x| - 1) ==> DivisorClear(b, x))
    && forall c: nat :: c < b.V ==> ClearFrom(b, x + [c])
  }

  /** Survival is w wherever the floors are clear from there on. */
  lemma {:induction false} SurvivalFrom(b: Block, x: Tokens)
    requires Valid(b) && ClearFrom(b, x) && Drafted(b, x) && |x| <= b.g
    ensures Survive(b, x) == W(b, x)
    decreases b.g - |x|, 1
  {
    assert |x| < b.g ==> NodeClear(b, x);
    StopMass(b, x);
    KeptPlusResidual(b, x);
    if |x| < b.g {
      forall c: nat | c < b.V ensures ClearFrom(b, x + [c]) {}
      KeptFrom(b, x);
    } else {
      KeptLeaf(b, x);
      TimesUnits(Test(b, x));
    }
    hide W, S, Test, Kept, Times, NodeClear, SurviveTerm;
  }

  lemma {:induction false} KeptFrom(b: Block, x: Tokens)
    requires Valid(b) && Drafted(b, x) && |x| < b.g && forall c: nat :: c < b.V ==> ClearFrom(b, x + [c])
    ensures Sum(b.V, SurviveTerm(b, x)) == Kept(b, x)
    decreases b.g - |x|, 0
  {
    hide W, Survive, Times;
    forall c: nat | c < b.V ensures SurviveTerm(b, x)(c) == WTerm(b, x)(c) {
      if b.q(x, c) > 0.0 {
        DraftedChild(b, x, c);
        SurvivalFrom(b, x + [c]);
      } else {
        TimesUnits(Survive(b, x + [c]));
        TimesUnits(W(b, x + [c]));
      }
    }
    SumEq(b.V, SurviveTerm(b, x), WTerm(b, x));
  }

  /** What the floor costs at one token, and at all of them. */
  function TokenLoss(b: Block, x: Tokens, c: nat): real {
    Times(W(b, x), b.p(x, c)) - Times(b.q(x, c), W(b, x + [c])) - Residual(b, x, c)
  }

  ghost function Loss(b: Block, x: Tokens): real { W(b, x) - Kept(b, x) - S(b, x) }

  /** Where the token lost at x reappears: corrected after a stop, drawn from the target otherwise. */
  ghost function Reappears(b: Block, x: Tokens, c: nat): real { Mix(Test(b, x), Correct(b, x, c), b.p(x, c)) }

  /** Stopping takes the residual mass and the tested share of the loss. */
  lemma StopWithLoss(b: Block, x: Tokens)
    requires Valid(b) && |x| < b.g && (|x| > 0 && Alive(b, |x| - 1) ==> DivisorClear(b, x))
    ensures Times(Test(b, x), 1.0 - Kept(b, x)) == S(b, x) + Times(Test(b, x), Loss(b, x))
  {
    KeptPlusResidual(b, x);
    WRange(b, x);
    SRange(b, x);
    KeptNonneg(b, x);
    var s, w, k, t := S(b, x), W(b, x), Kept(b, x), Test(b, x);
    hide W, S, Over, Kept, TokensClear;
    if x != [] && Alive(b, |x| - 1) { OverWhole(s, s + (1.0 - w)); }
    assert Times(t, 1.0 - k) == Times(t, s + (1.0 - w)) + Times(t, w - k - s) by {
      TimesAdd(t, s + (1.0 - w), w - k - s);
      assert s + (1.0 - w) + (w - k - s) == 1.0 - k;
    }
    assert x == [] ==> w == 1.0;
  }

  /** The defect of a node whose subtree is clear, in closed form. */
  lemma NodeDefect(b: Block, x: Tokens, c: nat)
    requires Valid(b) && Drafted(b, x) && |x| < b.g && c < b.V && ClearBelow(b, x)
    ensures Defect(b, x, c) == Times(Loss(b, x), Reappears(b, x, c)) - TokenLoss(b, x, c)
  {
    NodeStops(b, x);
    NodeAccepts(b, x, c);
    StopPick(b, x, c);
    var p, cor, l, t, s := b.p(x, c), Correct(b, x, c), Loss(b, x), Test(b, x), S(b, x);
    hide W, S, Test, Residual, Correct, Kept, Times, SurviveTerm, ClearBelow, Mix, Survive, Stop, Accepted, Drafted;
    LossArithmetic(p, cor, l, t, s, W(b, x));
  }

  lemma NodeStops(b: Block, x: Tokens)
    requires Valid(b) && Drafted(b, x) && |x| < b.g && ClearBelow(b, x)
    ensures Survive(b, x) == W(b, x) - Loss(b, x) + Times(Test(b, x), Loss(b, x))
    ensures Stop(b, x) == S(b, x) + Times(Test(b, x), Loss(b, x))
  {
    hide W, S, Test, Kept, Times, SurviveTerm, Drafted, Valid, DivisorClear;
    StopWithLoss(b, x);
    KeptFrom(b, x);
  }

  lemma NodeAccepts(b: Block, x: Tokens, c: nat)
    requires Valid(b) && Drafted(b, x) && |x| < b.g && c < b.V && ClearBelow(b, x)
    ensures Accepted(b, x, c) == Times(b.q(x, c), W(b, x + [c]))
  {
    if b.q(x, c) > 0.0 {
      DraftedChild(b, x, c);
      SurvivalFrom(b, x + [c]);
    } else {
      assert b.q(x, c) == 0.0;
      TimesUnits(Survive(b, x + [c]));
      TimesUnits(W(b, x + [c]));
    }
  }

  lemma LossArithmetic(p: real, cor: real, l: real, t: real, s: real, w: real)
    ensures Times(s + Times(t, l), cor) - Times(p, w - l + Times(t, l))
         == Times(s, cor) - Times(w, p) + Times(l, Mix(t, cor, p))
  {
    assert (s + t * l) * cor == s * cor + t * l * cor;
    assert p * (w - l + t * l) == w * p - l * p + t * l * p;
    assert l * (t * cor + (1.0 - t) * p) == t * l * cor + l * p - t * l * p by {
      assert l * (t * cor) == t * l * cor;
      assert l * ((1.0 - t) * p) == l * p - t * l * p;
    }
  }

  /** So such a node is balanced exactly when the floor takes from each token its part of the whole loss: the
      correction's choice at the root, where nothing is tested. */
  lemma BalancedExactly(b: Block, x: Tokens)
    requires Valid(b) && Drafted(b, x) && |x| < b.g && ClearBelow(b, x)
    ensures Balanced(b, x) <==> forall c: nat :: c < b.V ==> TokenLoss(b, x, c) == Times(Loss(b, x), Reappears(b, x, c))
  {
    hide Defect, Loss, TokenLoss, Reappears, Times, ClearBelow, Valid, Drafted;
    forall c: nat | c < b.V ensures Defect(b, x, c) == Times(Loss(b, x), Reappears(b, x, c)) - TokenLoss(b, x, c) {
      NodeDefect(b, x, c);
    }
  }

  lemma RootReappears(b: Block, c: nat)
    ensures Reappears(b, [], c) == Correct(b, [], c)
  {
    hide Correct;
  }

  // ------------------------------------------------------------------------------------------
  // a dead tail
  // ------------------------------------------------------------------------------------------

  /** The block cut down to its verified drafts. */
  function Cut(b: Block): Block
    requires 1 <= b.live <= b.g
  {
    b.(g := b.live)
  }

  lemma {:induction false} CutW(b: Block, x: Tokens)
    requires 1 <= b.live <= b.g
    ensures W(Cut(b), x) == W(b, x)
  {
    hide Capped;
    if |x| > 0 { CutW(b, x[..|x| - 1]); }
  }

  lemma CutResidual(b: Block, x: Tokens)
    requires 1 <= b.live <= b.g
    ensures S(Cut(b), x) == S(b, x)
    ensures forall c: nat :: Residual(Cut(b), x, c) == Residual(b, x, c)
  {
    CutW(b, x);
    hide W, Excess;
    SumEq(b.V, ResidualRow(Cut(b), x), ResidualRow(b, x));
  }

  lemma CutCorrect(b: Block, x: Tokens, c: nat)
    requires 1 <= b.live <= b.g && c < b.V
    ensures Correct(Cut(b), x, c) == Correct(b, x, c)
  {
    CutResidual(b, x);
    hide Residual, S, Over;
    SumEq(b.V, CorrectionRow(Cut(b), x), CorrectionRow(b, x));
  }

  lemma CutTest(b: Block, x: Tokens)
    requires Valid(b) && 1 <= b.live <= b.g && |x| <= b.live
    ensures Test(Cut(b), x) == Test(b, x)
  {
    CutW(b, x);
    CutResidual(b, x);
    hide W, S, Over;
    if |x| == b.live < b.g {
      CutLeaf(b, x);
      OverOne(W(b, x));
    }
  }

  lemma OverOne(w: real)
    ensures Over(w, w + (1.0 - w)) == w
  {}

  lemma CutLeaf(b: Block, x: Tokens)
    requires Valid(b) && 1 <= b.live <= b.g && |x| == b.live
    ensures S(b, x) == W(b, x)
  {
    hide W, S;
    KeptPlusResidual(Cut(b), x);
    CutW(b, x);
    CutResidual(b, x);
  }

  /** Nothing is accepted beyond the verified drafts. */
  lemma {:induction false} DeadMean(b: Block, F: Tokens -> real, x: Tokens)
    requires b.live < |x| <= b.g && x != []
    ensures MeanFrom(b, F, x) == 0.0 == Survive(b, x)
    decreases b.g - |x|
  {
    hide Times, MeanFrom, Survive, Test;
    WalkStep(b, F, x);
    DeadTest(b, x);
    DeadStop(b, x);
    TimesUnits(F(x));
    if |x| < b.g {
      forall c: nat | c < b.V ensures MeanTerm(b, F, x)(c) == 0.0 == SurviveTerm(b, x)(c) {
        DeadMean(b, F, x + [c]);
        TimesUnits(b.q(x, c));
      }
      SumZero(b.V, MeanTerm(b, F, x));
      SumZero(b.V, SurviveTerm(b, x));
    }
  }

  lemma DeadTest(b: Block, x: Tokens)
    requires b.live < |x| && x != []
    ensures Test(b, x) == 0.0
  {}

  lemma DeadStop(b: Block, x: Tokens)
    requires Test(b, x) == 0.0
    ensures Stop(b, x) == 0.0
  {
    hide Test, Times;
    if |x| < b.g { TimesUnits(1.0 - Sum(b.V, SurviveTerm(b, x))); }
  }

  lemma {:induction false} CutMean(b: Block, F: Tokens -> real, x: Tokens)
    requires Valid(b) && 1 <= b.live <= b.g && |x| <= b.live
    ensures MeanFrom(Cut(b), F, x) == MeanFrom(b, F, x)
    ensures Survive(Cut(b), x) == Survive(b, x)
    decreases b.live - |x|
  {
    hide Times, MeanFrom, Survive, Test;
    var k := Cut(b);
    CutTest(b, x);
    WalkStep(b, F, x);
    WalkStep(k, F, x);
    if |x| < b.live {
      forall c: nat | c < b.V
        ensures MeanTerm(k, F, x)(c) == MeanTerm(b, F, x)(c) && SurviveTerm(k, x)(c) == SurviveTerm(b, x)(c)
      {
        CutMean(b, F, x + [c]);
      }
      SumEq(b.V, MeanTerm(k, F, x), MeanTerm(b, F, x));
      SumEq(b.V, SurviveTerm(k, x), SurviveTerm(b, x));
    } else if |x| < b.g {
      forall c: nat | c < b.V ensures MeanTerm(b, F, x)(c) == 0.0 == SurviveTerm(b, x)(c) {
        DeadMean(b, F, x + [c]);
        TimesUnits(b.q(x, c));
      }
      SumZero(b.V, MeanTerm(b, F, x));
      SumZero(b.V, SurviveTerm(b, x));
      TimesUnits(Test(b, x));
    }
  }

  /**
   * A block with a dead tail is the shorter block of its verified drafts: every statistic of the accepted
   * prefix has the same mean, and the output the same law, floors included.
   */
  lemma DeadTail(b: Block, F: Tokens -> real, y: Tokens)
    requires Valid(b) && 1 <= b.live <= b.g && InVocabulary(b, y)
    ensures StepMean(Cut(b), F) == StepMean(b, F)
    ensures OutputLaw(Cut(b), y) == OutputLaw(b, y)
  {
    hide StepMean, MeanFrom, Emitted;
    StepMeanIsWalk(b, F);
    StepMeanIsWalk(Cut(b), F);
    CutMean(b, F, []);
    StepMeanIsWalk(b, Emitted(b, y));
    StepMeanIsWalk(Cut(b), Emitted(Cut(b), y));
    CutMean(b, Emitted(b, y), []);
    forall x: Tokens ensures Emitted(Cut(b), y)(x) == Emitted(b, y)(x) { CutEmitted(b, y, x); }
    MeanFromEq(Cut(b), Emitted(Cut(b), y), Emitted(b, y), []);
  }

  lemma CutEmitted(b: Block, y: Tokens, x: Tokens)
    requires 1 <= b.live <= b.g && InVocabulary(b, y)
    ensures Emitted(Cut(b), y)(x) == Emitted(b, y)(x)
  {
    hide Emitted, Path, Correct;
    if |y| <= |x| {
      EmittedPast(b, y, x);
      EmittedPast(Cut(b), y, x);
    } else if y[..|x|] == x {
      EmittedOn(b, y, x);
      EmittedOn(Cut(b), y, x);
      CutCorrect(b, x, y[|x|]);
    } else {
      EmittedOff(b, y, x);
      EmittedOff(Cut(b), y, x);
    }
  }

  lemma {:induction false} MeanFromEq(b: Block, F: Tokens -> real, G: Tokens -> real, x: Tokens)
    requires |x| <= b.g && forall z: Tokens :: F(z) == G(z)
    ensures MeanFrom(b, F, x) == MeanFrom(b, G, x)
    decreases b.g - |x|
  {
    hide Times, MeanFrom, Stop;
    WalkStep(b, F, x);
    WalkStep(b, G, x);
    if |x| < b.g {
      forall c: nat | c < b.V ensures MeanTerm(b, F, x)(c) == MeanTerm(b, G, x)(c) { MeanFromEq(b, F, G, x + [c]); }
      SumEq(b.V, MeanTerm(b, F, x), MeanTerm(b, G, x));
    }
  }
}
