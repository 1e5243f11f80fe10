/**
 * Accepted length of block verification against token-by-token verification, and what the 1e-30 floors
 * do when they bite.
 */
module BlockCompare {
  import opened RealSums
  import opened BlockVerify
  import opened BlockLaw

  // ------------------------------------------------------------------------------------------
  // accepted length
  // ------------------------------------------------------------------------------------------

  ghost function Length(): Tokens -> real { (x: Tokens) => |x| as real }

  /** Drafts accepted beyond x, in the mean over the drafts after x, weighted by w. */
  ghost function Further(b: Block, x: Tokens): real
    decreases b.g - |x|, 1
  {
    if |x| >= b.g then 0.0 else Sum(b.V, FurtherTerm(b, x))
  }

  ghost function FurtherTerm(b: Block, x: Tokens): nat -> real
    requires |x| < b.g
    decreases b.g - |x|, 0
  {
    (c: nat) => Times(b.q(x, c), W(b, x + [c]) + Further(b, x + [c]))
  }

  lemma {:induction false} WalkLength(b: Block, x: Tokens)
    requires Valid(b) && FloorsClear(b) && Drafted(b, x) && |x| <= b.g
    ensures MeanFrom(b, Length(), x) == Times(|x| as real, W(b, x)) + Further(b, x)
    decreases b.g - |x|, 1
  {
    assert |x| < b.g ==> NodeClear(b, x);
    var n := |x| as real;
    assert Length()(x) == n;
    KeptPlusResidual(b, x);
    WalkStep(b, Length(), x);
    StopIsResidual(b, x);
    TimesAdd(n, Kept(b, x), S(b, x));
    TimesComm(n, S(b, x));
    TimesUnits(n);
    if |x| < b.g { WalkLengthKept(b, x); }
    hide W, S, MeanFrom, MeanTerm, Length, FurtherTerm, NodeClear, TokensClear, Times, Stop;
  }

  lemma {:induction false} WalkLengthKept(b: Block, x: Tokens)
    requires Valid(b) && FloorsClear(b) && Drafted(b, x) && |x| < b.g
    ensures Sum(b.V, MeanTerm(b, Length(), x)) == Times(|x| as real, Kept(b, x)) + Further(b, x)
    decreases b.g - |x|, 0
  {
    hide W, MeanFrom, Length, Times;
    var mean, kept, further, n := MeanTerm(b, Length(), x), WTerm(b, x), FurtherTerm(b, x), |x| as real;
    var scaled := (c: nat) => Times(n, kept(c));
    forall c: nat | c < b.V ensures mean(c) == scaled(c) + further(c) {
      var xc := x + [c];
      if b.q(x, c) > 0.0 {
        DraftedChild(b, x, c);
        WalkLength(b, xc);
        LengthTerm(b.q(x, c), n, W(b, xc), Further(b, xc));
        assert |xc| as real == n + 1.0;
      } else {
        TimesUnits(MeanFrom(b, Length(), xc));
        TimesUnits(W(b, xc));
        TimesUnits(n);
        TimesUnits(W(b, xc) + Further(b, xc));
      }
    }
    SumAdd(b.V, mean, scaled, further);
    SumScale(b.V, scaled, n, kept);
  }

  lemma LengthTerm(q: real, n: real, w: real, u: real)
    ensures Times(q, Times(n + 1.0, w) + u) == Times(n, Times(q, w)) + Times(q, w + u)
  {}

  /** Token verification: each draft accepted on its own with min(1, p/q), up to the first refusal. */
  ghost function TokenSurvive(b: Block, x: Tokens): real {
    if |x| == 0 then 1.0 else Times(TokenSurvive(b, x[..|x| - 1]), Capped(1.0, Ratio(b, x)))
  }

  /** Drafts it accepts beyond x in the mean, once x is accepted. */
  ghost function TokenLength(b: Block, x: Tokens): real
    decreases b.g - |x|, 1
  {
    if |x| >= b.g then 0.0 else Sum(b.V, TokenTerm(b, x))
  }

  ghost function TokenTerm(b: Block, x: Tokens): nat -> real
    requires |x| < b.g
    decreases b.g - |x|, 0
  {
    (c: nat) => Times(b.q(x, c), Times(Capped(1.0, Ratio(b, x + [c])), 1.0 + TokenLength(b, x + [c])))
  }

  lemma CappedBeatsProduct(w: real, s: real, r: real)
    requires 0.0 <= s <= w && r >= 0.0
    ensures 0.0 <= Times(s, Capped(1.0, r)) <= Times(w, r)
    ensures Times(s, Capped(1.0, r)) <= s
  {
    TimesMono(s, w, r);
    if r <= 1.0 { TimesMono(r, 1.0, s); TimesNonneg(s, r); } else { assert s * 1.0 == s; TimesMono(1.0, r, s); }
  }

  /** Pointwise, on every draft prefix: block verification survives at least as often as token verification. */
  lemma {:induction false} SurvivalBeatsToken(b: Block, x: Tokens)
    requires Valid(b)
    ensures 0.0 <= TokenSurvive(b, x) <= W(b, x)
  {
    if |x| > 0 {
      var prefix := x[..|x| - 1];
      SurvivalBeatsToken(b, prefix);
      WRange(b, prefix);
      RatioNonneg(b, x);
      CappedBeatsProduct(W(b, prefix), TokenSurvive(b, prefix), Ratio(b, x));
      assert W(b, x) == Capped(W(b, prefix), Ratio(b, x));
      hide W, TokenSurvive, Ratio;
      assert TokenSurvive(b, x) == Times(TokenSurvive(b, prefix), Capped(1.0, Ratio(b, x))) by { TokenLast(b, x); }
    }
  }

  lemma TokenLast(b: Block, x: Tokens)
    requires |x| > 0
    ensures TokenSurvive(b, x) == Times(TokenSurvive(b, x[..|x| - 1]), Capped(1.0, Ratio(b, x)))
  {}

  lemma TokenChild(b: Block, x: Tokens, c: nat)
    ensures TokenSurvive(b, x + [c]) == Times(TokenSurvive(b, x), Capped(1.0, Ratio(b, x + [c])))
  {
    hide Capped, Ratio, Times;
    var xc := x + [c];
    assert xc[..|xc| - 1] == x;
  }

  lemma {:induction false} FurtherBeatsToken(b: Block, x: Tokens)
    requires Valid(b) && |x| <= b.g
    ensures Further(b, x) >= Times(TokenSurvive(b, x), TokenLength(b, x))
    decreases b.g - |x|
  {
    hide W, TokenSurvive, Capped, Ratio, Times;
    var s := TokenSurvive(b, x);
    if |x| < b.g {
      var token, further := TokenTerm(b, x), FurtherTerm(b, x);
      var scaled := (c: nat) => Times(s, token(c));
      forall c: nat | c < b.V ensures scaled(c) <= further(c) {
        FurtherBeatsToken(b, x + [c]);
        SurvivalBeatsToken(b, x + [c]);
        TokenChild(b, x, c);
        TokenBound(b.q(x, c), s, Capped(1.0, Ratio(b, x + [c])), TokenLength(b, x + [c]),
                   TokenSurvive(b, x + [c]), W(b, x + [c]), Further(b, x + [c]));
      }
      SumMono(b.V, scaled, further);
      SumScale(b.V, scaled, s, token);
    } else {
      TimesUnits(s);
    }
  }

  lemma TokenBound(q: real, s: real, a: real, len: real, survive: real, w: real, further: real)
    requires q >= 0.0 && survive == Times(s, a) && survive <= w && further >= Times(survive, len)
    ensures Times(s, Times(q, Times(a, 1.0 + len))) <= Times(q, w + further)
  {
    assert s * (q * (a * (1.0 + len))) == (survive + survive * len) * q;
    TimesMono(survive + survive * len, w + further, q);
  }

  /** The expected number of accepted drafts is never below that of token-by-token verification. */
  lemma BlockBeatsToken(b: Block)
    requires Valid(b) && FloorsClear(b)
    ensures StepMean(b, Length()) >= TokenLength(b, [])
  {
    StepMeanIsWalk(b, Length());
    WalkLength(b, []);
    FurtherBeatsToken(b, []);
    assert TokenSurvive(b, []) == 1.0;
    TimesUnits(TokenLength(b, []));
    TimesUnits(W(b, []));
    hide W, Further, TokenLength, MeanFrom, StepMean, TokenSurvive, Times;
  }

  // ------------------------------------------------------------------------------------------
  // when the floors bite
  // ------------------------------------------------------------------------------------------

  /**
   * What a caller can check at a verified prefix x before the block's end: the floors leave h and every
   * token alone, or w is saturated and the residual mass is at least the floor (then h is 1 anyway).
   */
  ghost predicate SurvivalClear(b: Block, x: Tokens) {
    (W(b, x) == 1.0 && S(b, x) >= FLOOR) || NodeClear(b, x)
  }

  ghost predicate Inside(b: Block, x: Tokens) {
    Drafted(b, x) && 0 < |x| < b.g && Alive(b, |x| - 1)
  }

  /** The survival law is w at every drafted prefix exactly when every verified inner prefix is clear. */
  lemma SurvivalExactly(b: Block)
    requires Valid(b)
    ensures (forall x :: Drafted(b, x) && |x| <= b.g ==> SurvivalLaw(b, x) == W(b, x))
            <==> (forall x :: Inside(b, x) ==> SurvivalClear(b, x))
  {
    hide SurvivalLaw, Survive, W, Inside, SurvivalClear;
    forall x: Tokens | |x| <= b.g ensures SurvivalLaw(b, x) == Survive(b, x) { SurvivalLawIsSurvive(b, x); }
    if forall x :: Inside(b, x) ==> SurvivalClear(b, x) {
      forall x | Drafted(b, x) && |x| <= b.g ensures Survive(b, x) == W(b, x) { SurvivalFrom(b, x); }
    }
    if forall x :: Drafted(b, x) && |x| <= b.g ==> SurvivalLaw(b, x) == W(b, x) {
      forall x | Inside(b, x) ensures SurvivalClear(b, x) { SurvivalForces(b, x); }
    }
  }

  lemma {:induction false} SurvivalFrom(b: Block, x: Tokens)
    requires Valid(b) && Drafted(b, x) && |x| <= b.g
    requires forall y :: Inside(b, y) ==> SurvivalClear(b, y)
    ensures Survive(b, x) == W(b, x)
    decreases b.g - |x|
  {
    if |x| < b.g {
      forall c: nat | c < b.V && b.q(x, c) > 0.0 ensures Survive(b, x + [c]) == W(b, x + [c]) {
        DraftedChild(b, x, c);
        SurvivalFrom(b, x + [c]);
      }
      SurviveStep(b, x);
      if Inside(b, x) { assert SurvivalClear(b, x); }
      hide Survive;
      SurvivalHere(b, x);
    } else {
      SurviveLeaf(b, x);
    }
  }

  lemma SurviveLeaf(b: Block, x: Tokens)
    requires Valid(b) && |x| == b.g
    ensures Survive(b, x) == W(b, x)
  {
    WRange(b, x);
    hide W, S;
  }

  /** Survival at x from survival w at its drafted children. */
  lemma SurviveStep(b: Block, x: Tokens)
    requires Valid(b) && |x| < b.g
    requires forall c: nat :: c < b.V && b.q(x, c) > 0.0 ==> Survive(b, x + [c]) == W(b, x + [c])
    ensures Survive(b, x) == Kept(b, x) + Times(Test(b, x), 1.0 - Kept(b, x))
  {
    SurviveUnfold(b, x);
    hide W, Times, Test, Survive;
    forall c: nat | c < b.V ensures SurviveTerm(b, x)(c) == WTerm(b, x)(c) {
      if b.q(x, c) <= 0.0 {
        assert b.q(x, c) == 0.0;
        TimesUnits(Survive(b, x + [c]));
        TimesUnits(W(b, x + [c]));
      }
    }
    SumEq(b.V, SurviveTerm(b, x), WTerm(b, x));
  }

  lemma SurviveUnfold(b: Block, x: Tokens)
    requires |x| < b.g
    ensures Survive(b, x) == Sum(b.V, SurviveTerm(b, x)) + Times(Test(b, x), 1.0 - Sum(b.V, SurviveTerm(b, x)))
  {
    hide Times, Test;
  }

  lemma TestInside(b: Block, x: Tokens)
    requires |x| < b.g
    ensures Test(b, x) == if |x| == 0 then 1.0
                          else if Alive(b, |x| - 1) then Over(S(b, x), S(b, x) + (1.0 - W(b, x))) else 0.0
  {
    hide S, W, Over;
  }

  lemma SurvivalHere(b: Block, x: Tokens)
    requires Valid(b) && |x| < b.g
    requires Survive(b, x) == Kept(b, x) + Times(Test(b, x), 1.0 - Kept(b, x))
    ensures Survive(b, x) == W(b, x) <==> |x| == 0 || !Alive(b, |x| - 1) || SurvivalClear(b, x)
  {
    hide *;
    WRange(b, x);
    WEmpty(b, x);
    SRange(b, x);
    KeptPlusResidual(b, x);
    KeptNonneg(b, x);
    TestInside(b, x);
    TimesUnits(1.0 - Kept(b, x));
    if |x| > 0 && Alive(b, |x| - 1) {
      Survival(Kept(b, x), W(b, x), S(b, x), Over(S(b, x), S(b, x) + (1.0 - W(b, x))));
      SurvivalClearIs(b, x);
    }
  }

  lemma WEmpty(b: Block, x: Tokens)
    ensures |x| == 0 ==> W(b, x) == 1.0
  {}

  lemma SurvivalClearIs(b: Block, x: Tokens)
    requires |x| > 0 && Alive(b, |x| - 1)
    ensures SurvivalClear(b, x)
            <==> ((W(b, x) == 1.0 && S(b, x) >= FLOOR)
                  || (TokensClear(b, x) && (S(b, x) == 0.0 || S(b, x) + (1.0 - W(b, x)) >= FLOOR)))
  {
    hide W, S, TokensClear;
  }

  lemma Survival(a: real, w: real, s: real, h: real)
    requires 0.0 <= a && 0.0 <= w <= 1.0 && s >= 0.0 && a + s <= w
    requires h == Over(s, s + (1.0 - w))
    ensures a + Times(h, 1.0 - a) == w
            <==> (w == 1.0 && s >= FLOOR) || (a + s == w && (s == 0.0 || s + (1.0 - w) >= FLOOR))
  {
    var d := s + (1.0 - w);
    var e := Max(d, FLOOR);
    var short := w - s - a;
    assert h * e == s;
    assert h * (1.0 - a) == h * d + h * short;
    if d >= FLOOR {
      assert h * d == s;
      if s < d { if h >= 1.0 { TimesMono(1.0, h, d); } if short > 0.0 { TimesStrict(h, 1.0, short); } }
      else { assert h == 1.0 by { if h > 1.0 { TimesStrict(1.0, h, d); } if h < 1.0 { TimesStrict(h, 1.0, d); } } }
    } else if s > 0.0 {
      if h >= 1.0 { TimesMono(1.0, h, e); }
      if h <= 0.0 { TimesMono(h, 0.0, e); }
      TimesStrict(d, e, h);
      TimesMono(h, 1.0, short);
    } else {
      assert h == 0.0 by { if h > 0.0 { TimesStrict(0.0, h, e); } if h < 0.0 { TimesStrict(h, 0.0, e); } }
    }
  }

  lemma SurvivalForces(b: Block, x: Tokens)
    requires Valid(b) && Inside(b, x)
    requires forall y :: Drafted(b, y) && |y| <= b.g ==> Survive(b, y) == W(b, y)
    ensures SurvivalClear(b, x)
  {
    forall c: nat | c < b.V && b.q(x, c) > 0.0 ensures Survive(b, x + [c]) == W(b, x + [c]) {
      DraftedChild(b, x, c);
    }
    SurviveStep(b, x);
    hide Survive, W, S, SurvivalClear, Kept, Test;
    SurvivalHere(b, x);
  }

  /** Two tokens: the draft gives the first one q0, the target gives it p0, both below the floor. */
  function TwoTokens(p0: real, q0: real): Block {
    Block(2, 1, 1, (x: Tokens, c: nat) => if c == 0 then p0 else if c == 1 then 1.0 - p0 else 0.0,
                   (x: Tokens, c: nat) => if c == 0 then q0 else if c == 1 then 1.0 - q0 else 0.0)
  }

  lemma TwoTokensValid(p0: real, q0: real)
    requires 0.0 < p0 < 1.0 && 0.0 < q0 < 1.0
    ensures Valid(TwoTokens(p0, q0))
  {
    var b := TwoTokens(p0, q0);
    forall x: Tokens ensures Sum(b.V, Row(b.p, x)) == 1.0 && Sum(b.V, Row(b.q, x)) == 1.0 {
      SumTwo(Row(b.p, x));
      SumTwo(Row(b.q, x));
    }
  }

  lemma SumTwo(f: nat -> real)
    ensures Sum(2, f) == f(0) + f(1)
  {
    assert Sum(1, f) == Sum(0, f) + f(0);
  }

  lemma TwoTokensW(p0: real, q0: real, c: nat)
    ensures W(TwoTokens(p0, q0), [c])
            == Capped(1.0, Over(TwoTokens(p0, q0).p([], c), TwoTokens(p0, q0).q([], c)))
  {
    var b := TwoTokens(p0, q0);
    var none: Tokens := [];
    assert none + [c] == [c];
    WChild(b, none, c);
    RatioChild(b, none, c);
  }

  lemma TwoTokensResidual(p0: real, q0: real)
    requires 0.0 < p0 < 1.0 && 0.0 < q0 < 1.0
    ensures Residual(TwoTokens(p0, q0), [], 0) == Max(p0 - q0, 0.0)
    ensures S(TwoTokens(p0, q0), []) == Abs(p0 - q0)
  {
    SumTwo(ResidualRow(TwoTokens(p0, q0), []));
  }

  /** After a refusal the correction is token 0 for sure or never, by the sign of p0 - q0. */
  lemma TwoTokensCorrect(p0: real, q0: real)
    requires 0.0 < p0 < 1.0 && 0.0 < q0 < 1.0 && p0 != q0
    ensures Correct(TwoTokens(p0, q0), [], 0) == if p0 > q0 then 1.0 else 0.0
  {
    hide Correct, S, Residual, Times;
    var b := TwoTokens(p0, q0);
    TwoTokensValid(p0, q0);
    TwoTokensResidual(p0, q0);
    StopPick(b, [], 0);
    TimesUnits(S(b, []));
    TimesCancel(S(b, []), Correct(b, [], 0), if p0 > q0 then 1.0 else 0.0);
  }

  lemma TwoTokensLeaf(p0: real, q0: real, c: nat)
    requires 0.0 < p0 < 1.0 && 0.0 < q0 < 1.0 && c < 2
    ensures SurviveTerm(TwoTokens(p0, q0), [])(c) == Times(TwoTokens(p0, q0).q([], c), W(TwoTokens(p0, q0), [c]))
    ensures Survive(TwoTokens(p0, q0), [c]) == W(TwoTokens(p0, q0), [c])
  {
    var b, none: Tokens := TwoTokens(p0, q0), [];
    assert none + [c] == [c];
    hide W, Times;
    assert Survive(b, [c]) == Test(b, [c]) == W(b, [c]);
  }

  lemma TwoTokensStop(p0: real, q0: real)
    requires 0.0 < p0 < 1.0 && 0.0 < q0 < 1.0
    ensures var b := TwoTokens(p0, q0);
            Stop(b, []) == 1.0 - (Times(q0, W(b, [0])) + Times(1.0 - q0, W(b, [1])))
  {
    var b := TwoTokens(p0, q0);
    TwoTokensLeaf(p0, q0, 0);
    TwoTokensLeaf(p0, q0, 1);
    SumTwo(SurviveTerm(b, []));
    RootStop(b);
    hide W, Times, SurviveTerm, Stop;
  }

  lemma RootStop(b: Block)
    requires b.g > 0
    ensures Stop(b, []) == 1.0 - Sum(b.V, SurviveTerm(b, []))
  {
    assert Test(b, []) == 1.0;
    hide Test;
  }

  /** The law of token 0 in a one-draft block over two tokens. */
  lemma TwoTokensLaw(p0: real, q0: real)
    requires 0.0 < p0 < 1.0 && 0.0 < q0 < 1.0 && p0 != q0
    ensures var b := TwoTokens(p0, q0);
            OutputLaw(b, [0]) == Times(q0, W(b, [0]))
              + (if p0 > q0 then 1.0 - (Times(q0, W(b, [0])) + Times(1.0 - q0, W(b, [1]))) else 0.0)
  {
    hide *;
    TwoTokensStart(p0, q0);
    TwoTokensLeaf(p0, q0, 0);
    TwoTokensStop(p0, q0);
    TwoTokensCorrect(p0, q0);
    TimesUnits(Stop(TwoTokens(p0, q0), []));
  }

  lemma TwoTokensStart(p0: real, q0: real)
    requires 0.0 < p0 < 1.0 && 0.0 < q0 < 1.0
    ensures var b := TwoTokens(p0, q0);
            OutputLaw(b, [0]) == Times(q0, Survive(b, [0])) + Times(Stop(b, []), Correct(b, [], 0))
  {
    var b, y, none: Tokens := TwoTokens(p0, q0), [0], [];
    TwoTokensValid(p0, q0);
    assert b.q(none, 0) == q0 && none + [0] == y && y[1..] == none;
    hide W, Times, Stop, Correct, StepMean, Survive, MeanFrom, Emitted, Path, Valid;
    StepMeanIsWalk(b, Emitted(b, y));
    AlongMean(b, none, y);
    SettledMean(b, y, y);
    PathNone(b.p, y);
    TimesUnits(Correct(b, none, 0));
  }

  lemma TwoTokensNotClear(p0: real, q0: real)
    requires 0.0 < p0 < FLOOR && 0.0 < q0 < FLOOR
    ensures !FloorsClear(TwoTokens(p0, q0))
  {
    var b, none: Tokens := TwoTokens(p0, q0), [];
    TimesUnits(p0);
    assert !TokenClear(b, none, 0);
    assert Drafted(b, none) && !NodeClear(b, none);
  }

  lemma TwoTokensPath(p0: real, q0: real)
    ensures Path(TwoTokens(p0, q0).p, [], [0]) == p0
  {
    var t, y, none: Tokens := TwoTokens(p0, q0).p, [0], [];
    PathStep(t, none, y);
    PathNone(t, none + [0]);
    TimesUnits(p0);
    hide Path;
    assert y[0..] == y && y[1..] == [];
  }

  /**
   * A floor that bites: with draft mass FLOOR/2 and target mass FLOOR/4 on a token, the code accepts the
   * token with probability 1/4 instead of 1/2 and emits it half as often as the target would.
   */
  lemma FloorBites()
    ensures var b := TwoTokens(FLOOR / 4.0, FLOOR / 2.0);
            Valid(b) && !FloorsClear(b) && OutputLaw(b, [0]) == FLOOR / 8.0 && Path(b.p, [], [0]) == FLOOR / 4.0
  {
    hide W, Path, OutputLaw, FloorsClear, Valid, TwoTokens, Times;
    var p0, q0, b := FLOOR / 4.0, FLOOR / 2.0, TwoTokens(FLOOR / 4.0, FLOOR / 2.0);
    TwoTokensValid(p0, q0);
    TwoTokensLaw(p0, q0);
    TwoTokensNotClear(p0, q0);
    TwoTokensPath(p0, q0);
    QuarterKept(W(b, [0])) by { QuarterW(); }
  }

  lemma QuarterW()
    ensures W(TwoTokens(FLOOR / 4.0, FLOOR / 2.0), [0]) == 0.25
  {
    hide W;
    TwoTokensW(FLOOR / 4.0, FLOOR / 2.0, 0);
  }

  lemma QuarterKept(w: real)
    requires w == 0.25
    ensures Times(FLOOR / 2.0, w) == FLOOR / 8.0
  {}

  /** A floor that bites without harm: the shortfall lands on the only token with a residual. */
  lemma FloorHarmless()
    ensures var b := TwoTokens(FLOOR / 2.0, FLOOR / 4.0);
            Valid(b) && !FloorsClear(b) && OutputLaw(b, [0]) == FLOOR / 2.0 == Path(b.p, [], [0])
  {
    hide W, Path, OutputLaw, FloorsClear, Valid, TwoTokens, Times;
    var p0, q0 := FLOOR / 2.0, FLOOR / 4.0;
    TwoTokensValid(p0, q0);
    TwoTokensLaw(p0, q0);
    TwoTokensNotClear(p0, q0);
    TwoTokensPath(p0, q0);
    OtherKept();
  }

  lemma OtherKept()
    ensures Times(1.0 - FLOOR / 4.0, W(TwoTokens(FLOOR / 2.0, FLOOR / 4.0), [1])) == 1.0 - FLOOR / 2.0
  {
    TwoTokensW(FLOOR / 2.0, FLOOR / 4.0, 1);
    hide W;
  }
}
