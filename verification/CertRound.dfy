/**
 * The rounded half of the certificate (adapter/cert_head.py, the tail of the screen kernel): floats with
 * infinities and NaN over abstract round-to-nearest operations, the interval [lo, hi] as the kernel computes
 * it, and the proof that the inflation and slop constants cover every rounding on the way.
 */
module CertFloat {
  import opened RealSums

  /** A float value; the two zeros are one. */
  datatype Float = NaN | NegInf | Fin(v: real) | PosInf

  /** IEEE <= : false when either side is NaN. */
  predicate AtMost(a: Float, b: Float) {
    match (a, b)
    case (NaN, _) => false
    case (_, NaN) => false
    case (NegInf, _) => true
    case (_, PosInf) => true
    case (Fin(x), Fin(y)) => x <= y
    case (_, _) => false
  }

  type Rounding = real -> Float

  // Half an ulp of a binary32 significand, and of the smallest subnormal.
  const U: real := 1.0 / 16777216.0
  const ETA: real := 1.0 / 1427247692705959881058285969449495136382746624.0

  ghost predicate Monotone(r: Rounding) {
    && (forall y: real :: r(y) != NaN)
    && (forall y: real, z: real :: y <= z ==> AtMost(r(y), r(z)))
  }

  /** Round to nearest in binary32 (section 4.3.1 of IEEE 754-2019): monotone, with the usual error bound below
      overflow. */
  ghost predicate Rounds(r: Rounding) {
    && Monotone(r)
    && r(0.0) == Fin(0.0)
    && (forall y: real :: r(y).Fin? ==> Abs(r(y).v - y) <= U * Abs(y) + ETA)
  }

  function Neg(a: Float): Float {
    match a
    case NaN => NaN
    case NegInf => PosInf
    case PosInf => NegInf
    case Fin(v) => Fin(-v)
  }

  function AbsOf(a: Float): Float {
    match a
    case NaN => NaN
    case Fin(v) => Fin(Abs(v))
    case _ => PosInf
  }

  function Add(r: Rounding, a: Float, b: Float): Float {
    if a == NaN || b == NaN then NaN
    else if a.Fin? && b.Fin? then r(a.v + b.v)
    else if a.Fin? then b
    else if b.Fin? || a == b then a
    else NaN
  }

  function Sub(r: Rounding, a: Float, b: Float): Float { Add(r, a, Neg(b)) }

  predicate Below0(a: Float) { a == NegInf || (a.Fin? && a.v < 0.0) }

  function Mul(r: Rounding, a: Float, b: Float): Float {
    if a == NaN || b == NaN then NaN
    else if a.Fin? && b.Fin? then r(Times(a.v, b.v))
    else if a == Fin(0.0) || b == Fin(0.0) then NaN
    else if Below0(a) == Below0(b) then PosInf else NegInf
  }

  /** A cast to a coarser format. */
  function Cast(r: Rounding, a: Float): Float { if a.Fin? then r(a.v) else a }

  /** Not negative, or NaN. */
  predicate AtLeast0(a: Float) { a != NegInf && (a.Fin? ==> a.v >= 0.0) }

  /** What rounding says at one point. */
  lemma RoundsAt(r: Rounding, y: real)
    requires Rounds(r)
    ensures r(y) != NaN && (r(y).Fin? ==> Abs(r(y).v - y) <= U * Abs(y) + ETA)
    ensures y >= 0.0 ==> AtLeast0(r(y)) && (r(y).Fin? ==> r(y).v >= (1.0 - U) * y - ETA)
  {
    assert AtMost(r(0.0), r(y)) || y < 0.0;
  }

  ghost predicate IsFloat(r: Rounding, a: Float) { a.Fin? ==> r(a.v) == a }

  /** Rounding what is at most a float value gives at most that value. */
  lemma RoundsBelow(r: Rounding, y: real, a: Float)
    requires Rounds(r) && a.Fin? && IsFloat(r, a) && y <= a.v
    ensures r(y) == NegInf || (r(y).Fin? && r(y).v <= a.v)
  {
    assert AtMost(r(y), r(a.v));
  }

  lemma RoundsAbove(r: Rounding, y: real, a: Float)
    requires Rounds(r) && a.Fin? && IsFloat(r, a) && y >= a.v
    ensures r(y) == PosInf || (r(y).Fin? && r(y).v >= a.v)
  {
    assert AtMost(r(a.v), r(y));
  }

  lemma AddNonneg(r: Rounding, a: Float, b: Float)
    requires Rounds(r) && AtLeast0(a) && AtLeast0(b)
    ensures AtLeast0(Add(r, a, b))
    ensures Add(r, a, b).Fin? ==> a.Fin? && b.Fin? && Add(r, a, b).v >= (1.0 - U) * (a.v + b.v) - ETA
  {
    if a.Fin? && b.Fin? { RoundsAt(r, a.v + b.v); }
    hide Rounds;
  }

  lemma MulNonneg(r: Rounding, a: Float, b: Float)
    requires Rounds(r) && AtLeast0(a) && AtLeast0(b)
    ensures AtLeast0(Mul(r, a, b))
    ensures Mul(r, a, b).Fin? ==> a.Fin? && b.Fin? && Mul(r, a, b).v >= (1.0 - U) * Times(a.v, b.v) - ETA
  {
    if a.Fin? && b.Fin? {
      TimesNonneg(a.v, b.v);
      RoundsAt(r, Times(a.v, b.v));
    }
    hide Rounds, Times;
  }
}

module CertRound {
  import opened RealSums
  import opened CertBound
  import opened CertFloat

  // INFL_Q = 1 + 2^-18, INFL_B = 1 + 2^-20, SLOP_REL = 2^-22, SLOP_ABS = 2^-126
  const INFL_Q: real := 1.0 + 64.0 * U
  const INFL_B: real := 1.0 + 16.0 * U
  const SLOP_REL: real := 4.0 * U
  const SLOP_ABS: real := 1.0 / 85070591730234615865843651857942052864.0

  /** The group chain: qb += xg[g] * r[g] over the first n groups. */
  function Qb(r: Rounding, xg: seq<Float>, rg: seq<Float>, n: nat): Float
    requires n <= |xg| && n <= |rg|
  {
    if n == 0 then Fin(0.0) else Add(r, Qb(r, xg, rg, n - 1), Mul(r, xg[n - 1], rg[n - 1]))
  }

  function BoundOf(r: Rounding, qb: Float, c2: real, xn: Float, nv: Float): Float {
    var b := Mul(r, Add(r, Mul(r, qb, Fin(INFL_Q)), Mul(r, Fin(c2), Mul(r, xn, nv))), Fin(INFL_B));
    if b == NaN then PosInf else b
  }

  function SlopOf(r: Rounding, acc: Float, b: Float): Float {
    Add(r, Mul(r, Add(r, AbsOf(acc), b), Fin(SLOP_REL)), Fin(SLOP_ABS))
  }

  /** The lower end before the stop rule. */
  function LoOf(r: Rounding, rb: Rounding, acc: Float, b: Float): Float {
    var lo := Cast(rb, Sub(r, Sub(r, acc, b), SlopOf(r, acc, b)));
    if !acc.Fin? || lo == NaN then NegInf else lo
  }

  function HiOf(r: Rounding, rb: Rounding, acc: Float, b: Float): Float {
    var hi := Cast(rb, Add(r, Add(r, acc, b), SlopOf(r, acc, b)));
    if !acc.Fin? || hi == NaN then PosInf else hi
  }

  /** The screen kernel's tail for one row and one token. */
  method Interval(r: Rounding, rb: Rounding, acc: Float, xg: seq<Float>, rg: seq<Float>, xn: Float, nv: Float, c2: real,
                  gid: int, stop: seq<int>) returns (lo: Float, hi: Float)
    requires |xg| == |rg|
    ensures lo == if gid in stop then NegInf else LoOf(r, rb, acc, BoundOf(r, Qb(r, xg, rg, |xg|), c2, xn, nv))
    ensures hi == if gid in stop then PosInf else HiOf(r, rb, acc, BoundOf(r, Qb(r, xg, rg, |xg|), c2, xn, nv))
  {
    var qb := Fin(0.0);
    for g := 0 to |xg|
      invariant qb == Qb(r, xg, rg, g)
    {
      qb := Add(r, qb, Mul(r, xg[g], rg[g]));
    }
    var b := Mul(r, Add(r, Mul(r, qb, Fin(INFL_Q)), Mul(r, Fin(c2), Mul(r, xn, nv))), Fin(INFL_B));
    if b == NaN { b := PosInf; }
    var slop := Add(r, Mul(r, Add(r, AbsOf(acc), b), Fin(SLOP_REL)), Fin(SLOP_ABS));
    lo := Cast(rb, Sub(r, Sub(r, acc, b), slop));
    hi := Cast(rb, Add(r, Add(r, acc, b), slop));
    var nonfin := acc == NaN || AbsOf(acc) == PosInf;
    if nonfin || lo == NaN { lo := NegInf; }
    if nonfin || hi == NaN { hi := PosInf; }
    var isstop := false;
    for j := 0 to |stop|
      invariant isstop <==> gid in stop[..j]
    {
      isstop := isstop || gid == stop[j];
    }
    assert stop[..|stop|] == stop;
    if isstop { lo, hi := NegInf, PosInf; }
  }

  // ------------------------------------------------------------------------------------------
  // the bound B covers the exact bound
  // ------------------------------------------------------------------------------------------

  function Val(a: Float): real { if a.Fin? then a.v else 0.0 }

  /** sum_g X_g · R_g over the table values, exactly */
  function Exact(xg: seq<Float>, rg: seq<Float>, n: nat): real
    requires n <= |xg| && n <= |rg|
  {
    if n == 0 then 0.0 else Exact(xg, rg, n - 1) + Times(Val(xg[n - 1]), Val(rg[n - 1]))
  }

  ghost predicate AllNonneg(s: seq<Float>) { forall i :: 0 <= i < |s| ==> AtLeast0(s[i]) }

  ghost predicate AllFin(s: seq<Float>, n: nat) { n <= |s| && forall i :: 0 <= i < n ==> s[i].Fin? }

  /** The rounded chain keeps all but one part in 2^24 per step of the exact sum. */
  lemma {:induction false} QbLower(r: Rounding, xg: seq<Float>, rg: seq<Float>, n: nat)
    requires Rounds(r) && AllNonneg(xg) && AllNonneg(rg) && n <= |xg| && n <= |rg| && n <= 300
    ensures AtLeast0(Qb(r, xg, rg, n)) && Exact(xg, rg, n) >= 0.0
    ensures Qb(r, xg, rg, n).Fin? ==>
              AllFin(xg, n) && AllFin(rg, n)
              && Qb(r, xg, rg, n).v >= Times(1.0 - (n as real + 1.0) * U, Exact(xg, rg, n)) - 2.0 * (n as real) * ETA
  {
    hide Rounds, Times, Mul, Add, AtLeast0;
    if n > 0 {
      var q, x, y := Qb(r, xg, rg, n - 1), xg[n - 1], rg[n - 1];
      QbLower(r, xg, rg, n - 1);
      assert AtLeast0(x) && AtLeast0(y);
      MulNonneg(r, x, y);
      AddNonneg(r, q, Mul(r, x, y));
      ValNonneg(x, y);
      if Qb(r, xg, rg, n).Fin? {
        QbStep(n as real, Exact(xg, rg, n - 1), Times(Val(x), Val(y)), q.v, Mul(r, x, y).v, Qb(r, xg, rg, n).v);
      }
    } else {
      TimesUnits(1.0 - U);
      ZeroAtLeast0();
    }
  }

  lemma ZeroAtLeast0()
    ensures AtLeast0(Fin(0.0)) && AtLeast0(Fin(INFL_Q)) && AtLeast0(Fin(INFL_B)) && AtLeast0(Fin(SLOP_REL))
    ensures AtLeast0(Fin(SLOP_ABS))
  {}

  lemma ValNonneg(x: Float, y: Float)
    requires AtLeast0(x) && AtLeast0(y)
    ensures Times(Val(x), Val(y)) >= 0.0
  {
    TimesNonneg(Val(x), Val(y));
  }

  lemma QbStep(n: real, s: real, p: real, q: real, m: real, next: real)
    requires 1.0 <= n <= 300.0 && s >= 0.0 && p >= 0.0
    requires q >= Times(1.0 - n * U, s) - 2.0 * (n - 1.0) * ETA
    requires m >= (1.0 - U) * p - ETA && next >= (1.0 - U) * (q + m) - ETA
    ensures next >= Times(1.0 - (n + 1.0) * U, s + p) - 2.0 * n * ETA
  {
    var c, c' := 1.0 - n * U, 1.0 - (n + 1.0) * U;
    TimesMono(c', (1.0 - U) * c, s);
    TimesMono(c', (1.0 - U) * (1.0 - U), p);
    TimesAdd(c', s, p);
    assert Times((1.0 - U) * c, s) == (1.0 - U) * Times(c, s);
    assert Times((1.0 - U) * (1.0 - U), p) == (1.0 - U) * (1.0 - U) * p;
    hide Times;
  }

  /** What is left of the exact sum: INFL_Q makes up for 52 steps, and the group norms' own slack for the rest. */
  lemma QbWhole(s: real, n: real, q: real, sigma: real)
    requires s >= 0.0 && 0.0 <= n <= 300.0 && n + 1.0 <= sigma + 52.0
    requires q >= Times(1.0 - (n + 1.0) * U, s) - 2.0 * n * ETA
    ensures q >= s - 52.0 * U * s - U * Times(sigma, s) - 600.0 * ETA
  {
    TimesMono(1.0 - (sigma + 52.0) * U, 1.0 - (n + 1.0) * U, s);
    assert Times(1.0 - (sigma + 52.0) * U, s) == s - 52.0 * U * s - U * Times(sigma, s) by {
      assert (1.0 - (sigma + 52.0) * U) * s == s - 52.0 * U * s - U * (sigma * s);
    }
  }

  /** The part in 2^24 by which the norms of groups added in d levels exceed the true ones. */
  function Sigma(d: nat): real { (499 - d) as real / 2.0 }

  /** The groups are few enough for the levels they are added in. */
  predicate Narrow(n: nat, d: nat) { d <= 480 && 2 * n + d <= 600 }

  /** When B is finite it is at least the exact bound less the norms' slack, up to a thousand half-subnormals. */
  lemma BoundCovers(r: Rounding, xg: seq<Float>, rg: seq<Float>, c2: real, xn: Float, nv: Float, d: nat)
    requires Rounds(r) && |xg| == |rg| && Narrow(|xg|, d) && AllNonneg(xg) && AllNonneg(rg)
    requires AtLeast0(xn) && AtLeast0(nv) && 0.0 <= c2 <= 1.0
    ensures var b := BoundOf(r, Qb(r, xg, rg, |xg|), c2, xn, nv);
            AtLeast0(b) && b != NaN
            && (b.Fin? ==> AllFin(xg, |xg|) && AllFin(rg, |rg|) && xn.Fin? && nv.Fin?
                           && b.v >= Exact(xg, rg, |xg|) - U * Times(Sigma(d), Exact(xg, rg, |xg|))
                                     + Times(c2, Times(xn.v, nv.v)) - 1000.0 * ETA)
  {
    hide Rounds, Mul, Add, Qb, Exact, AtLeast0, AllNonneg, AllFin, Times;
    var n, q := |xg|, Qb(r, xg, rg, |xg|);
    QbLower(r, xg, rg, n);
    ZeroAtLeast0();
    FinAtLeast0(c2);
    var qi, p := Mul(r, q, Fin(INFL_Q)), Mul(r, xn, nv);
    var p2 := Mul(r, Fin(c2), p);
    var sum := Add(r, qi, p2);
    MulNonneg(r, q, Fin(INFL_Q));
    MulNonneg(r, xn, nv);
    MulNonneg(r, Fin(c2), p);
    AddNonneg(r, qi, p2);
    MulNonneg(r, sum, Fin(INFL_B));
    FinAtLeast0(0.0);
    var b := Mul(r, sum, Fin(INFL_B));
    SigmaCovers(n, d);
    if b.Fin? {
      FiniteBound(Exact(xg, rg, n), n as real, Sigma(d), c2, q.v, xn.v, nv.v, qi.v, p.v, p2.v, sum.v, b.v) by {
        NonnegVal(xn);
        NonnegVal(nv);
      }
    }
  }

  lemma SigmaCovers(n: nat, d: nat)
    requires Narrow(n, d)
    ensures 9.0 <= Sigma(d) <= 250.0 && n as real + 1.0 <= Sigma(d) + 52.0
  {}

  lemma FinAtLeast0(y: real)
    ensures y >= 0.0 ==> AtLeast0(Fin(y))
    ensures AtLeast0(PosInf)
  {}

  lemma NonnegVal(a: Float)
    requires AtLeast0(a) && a.Fin?
    ensures a.v >= 0.0
  {}

  lemma FiniteBound(s: real, n: real, sigma: real, c2: real, q: real, xn: real, nv: real, qi: real, p: real, p2: real,
                    sum: real, b: real)
    requires s >= 0.0 && 0.0 <= n <= 300.0 && 0.0 <= c2 <= 1.0 && xn >= 0.0 && nv >= 0.0
    requires 0.0 <= sigma <= 250.0 && n + 1.0 <= sigma + 52.0
    requires q >= Times(1.0 - (n + 1.0) * U, s) - 2.0 * n * ETA
    requires qi >= (1.0 - U) * Times(q, INFL_Q) - ETA
    requires p >= (1.0 - U) * Times(xn, nv) - ETA
    requires p2 >= (1.0 - U) * Times(c2, p) - ETA
    requires sum >= (1.0 - U) * (qi + p2) - ETA
    requires b >= (1.0 - U) * Times(sum, INFL_B) - ETA
    ensures b >= s - U * Times(sigma, s) + Times(c2, Times(xn, nv)) - 1000.0 * ETA
  {
    TimesNonneg(xn, nv);
    QbWhole(s, n, q, sigma);
    TimesComm(q, INFL_Q);
    TimesComm(sum, INFL_B);
    TimesNonneg(sigma, s);
    TimesMono(sigma, 250.0, s);
    assert Times(250.0, s) == 250.0 * s;
    hide Times;
    BoundArithmetic(s, Times(sigma, s), Times(xn, nv), c2, q, qi, p, p2, sum, b);
  }

  lemma BoundArithmetic(s: real, g: real, t: real, c2: real, q: real, qi: real, p: real, p2: real, sum: real, b: real)
    requires s >= 0.0 && t >= 0.0 && 0.0 <= c2 <= 1.0 && 0.0 <= g <= 250.0 * s
    requires q >= s - 52.0 * U * s - U * g - 600.0 * ETA
    requires qi >= (1.0 - U) * Times(INFL_Q, q) - ETA
    requires p >= (1.0 - U) * t - ETA
    requires p2 >= (1.0 - U) * Times(c2, p) - ETA
    requires sum >= (1.0 - U) * (qi + p2) - ETA
    requires b >= (1.0 - U) * Times(INFL_B, sum) - ETA
    ensures b >= s - U * g + Times(c2, t) - 1000.0 * ETA
  {
    var ct := Times(c2, t);
    TimesNonneg(c2, t);
    TimesMono((1.0 - U) * t - ETA, p, c2);
    assert Times(c2, (1.0 - U) * t - ETA) == (1.0 - U) * ct - c2 * ETA;
    assert Times(INFL_Q, q) == q + 64.0 * U * q;
    assert Times(INFL_B, sum) == sum + 16.0 * U * sum;
    hide Times;
    assert c2 * ETA <= ETA;
    assert qi >= s - U * g - 650.0 * ETA;
    assert p2 >= (1.0 - 2.0 * U) * ct - 2.0 * ETA;
    assert sum >= (1.0 - 4.0 * U) * (s - U * g + ct) - 700.0 * ETA;
  }

  // ------------------------------------------------------------------------------------------
  // the interval holds the stock logit
  // ------------------------------------------------------------------------------------------

  /** The slop outweighs the rounding of the two additions and what B fell short by. */
  lemma SlopCovers(acc: real, b: real, y: real, z: real, slop: real)
    requires b >= 0.0
    requires Abs(y - (acc - b)) <= U * Abs(acc - b) + ETA
    requires slop >= 3.9 * U * (Abs(acc) + b) + 0.9 * SLOP_ABS
    requires Abs(z - (y - slop)) <= U * Abs(y - slop) + ETA
    ensures z <= acc - b - 1000.0 * ETA
  {
    var a := Abs(acc) + b;
    assert Abs(acc - b) <= a;
    assert y <= acc - b + U * a + ETA && Abs(y) <= (1.0 + U) * a + ETA;
    assert z <= y - slop + U * (Abs(y) + slop) + ETA;
    assert U * Abs(y) <= 1.1 * U * a + ETA;
  }

  /** The lower end, before the cast: never above the exact lower end. */
  lemma LowerEnd(r: Rounding, acc: Float, b: Float)
    requires Rounds(r) && acc.Fin? && IsFloat(r, acc) && AtLeast0(b) && b != NaN
    ensures var z := Sub(r, Sub(r, acc, b), SlopOf(r, acc, b));
            z == NaN || z == NegInf || (b.Fin? && z.Fin? && z.v <= acc.v - b.v - 1000.0 * ETA)
  {
    hide Rounds, Mul, Times, SlopOf, IsFloat;
    SlopNonneg(r, acc, b);
    if b.Fin? {
      var y, slop := r(acc.v - b.v), SlopOf(r, acc, b);
      RoundsAt(r, acc.v - b.v);
      RoundsBelow(r, acc.v - b.v, acc);
      if y.Fin? && slop.Fin? {
        RoundsAt(r, y.v - slop.v);
        RoundsBelow(r, y.v - slop.v, acc);
        if r(y.v - slop.v).Fin? { SlopCovers(acc.v, b.v, y.v, r(y.v - slop.v).v, slop.v); }
      }
    }
  }

  /** A finite slop is at least about 4u of |acc| + B, plus its floor. */
  lemma SlopNonneg(r: Rounding, acc: Float, b: Float)
    requires Rounds(r) && acc.Fin? && AtLeast0(b) && b != NaN
    ensures AtLeast0(SlopOf(r, acc, b)) && (b == PosInf ==> SlopOf(r, acc, b) == PosInf)
    ensures SlopOf(r, acc, b).Fin? ==> b.Fin? && SlopOf(r, acc, b).v >= 3.9 * U * (Abs(acc.v) + b.v) + 0.9 * SLOP_ABS
  {
    hide Rounds, Mul, Add, Times, AtLeast0, AbsOf;
    var big := Add(r, AbsOf(acc), b);
    var rel := Mul(r, big, Fin(SLOP_REL));
    ZeroAtLeast0();
    AbsOfFin(acc);
    AddNonneg(r, AbsOf(acc), b);
    MulNonneg(r, big, Fin(SLOP_REL));
    AddNonneg(r, rel, Fin(SLOP_ABS));
    if b == PosInf { InfiniteSlop(r, acc); }
    if SlopOf(r, acc, b).Fin? {
      NonnegVal(b);
      RelTimes(big.v);
      SlopArithmetic(Abs(acc.v) + b.v, big.v, rel.v, SlopOf(r, acc, b).v);
    }
  }

  lemma AbsOfFin(acc: Float)
    requires acc.Fin?
    ensures AbsOf(acc) == Fin(Abs(acc.v)) && AtLeast0(AbsOf(acc))
  {}

  lemma InfiniteSlop(r: Rounding, acc: Float)
    requires acc.Fin?
    ensures SlopOf(r, acc, PosInf) == PosInf
  {
    var rel := Mul(r, PosInf, Fin(SLOP_REL));
    assert SLOP_REL > 0.0;
  }

  lemma RelTimes(a: real)
    ensures Times(a, SLOP_REL) == 4.0 * U * a
  {}

  lemma SlopArithmetic(a: real, big: real, rel: real, slop: real)
    requires a >= 0.0
    requires big >= (1.0 - U) * a - ETA
    requires rel >= (1.0 - U) * (4.0 * U * big) - ETA
    requires slop >= (1.0 - U) * (rel + SLOP_ABS) - ETA
    ensures slop >= 3.9 * U * a + 0.9 * SLOP_ABS
  {}

  /** The upper end, before the cast: never below the exact upper end. */
  lemma UpperEnd(r: Rounding, acc: Float, b: Float)
    requires Rounds(r) && acc.Fin? && IsFloat(r, acc) && AtLeast0(b) && b != NaN
    ensures var z := Add(r, Add(r, acc, b), SlopOf(r, acc, b));
            z == NaN || z == PosInf || (b.Fin? && z.Fin? && z.v >= acc.v + b.v + 1000.0 * ETA)
  {
    hide Rounds, Mul, Times, SlopOf, IsFloat;
    SlopNonneg(r, acc, b);
    if b.Fin? {
      var y, slop := r(acc.v + b.v), SlopOf(r, acc, b);
      RoundsAt(r, acc.v + b.v);
      RoundsAbove(r, acc.v + b.v, acc);
      if y.Fin? && slop.Fin? {
        RoundsAt(r, y.v + slop.v);
        RoundsAbove(r, y.v + slop.v, acc);
        if r(y.v + slop.v).Fin? { SlopCovers(-acc.v, b.v, -y.v, -r(y.v + slop.v).v, slop.v); }
      }
    }
  }

  // ------------------------------------------------------------------------------------------
  // the certificate
  // ------------------------------------------------------------------------------------------

  function Vals(s: seq<Float>): nat -> real { (i: nat) => if i < |s| then Val(s[i]) else 0.0 }

  lemma {:induction false} ExactIsDot(xg: seq<Float>, rg: seq<Float>, n: nat)
    requires n <= |xg| && n <= |rg|
    ensures Exact(xg, rg, n) == Dot(n, Vals(rg), Vals(xg))
  {
    if n > 0 {
      ExactIsDot(xg, rg, n - 1);
      TimesComm(Val(xg[n - 1]), Val(rg[n - 1]));
    }
  }

  /** A float, when finite, is at least the norm of n entries of v. */
  ghost predicate AboveNorm(a: Float, n: nat, v: Vec) {
    AtLeast0(a) && (a.Fin? ==> Dot(n, v, v) <= Times(a.v, a.v))
  }

  /** And exceeds it by the slack that adding its squares in d levels leaves. */
  ghost predicate SlackNorm(a: Float, d: nat, n: nat, v: Vec) {
    AtLeast0(a) && (a.Fin? ==> Times(1.0 + (500 - d) as real * U, Dot(n, v, v)) <= Times(a.v, a.v))
  }

  /** What the tables and the row norms promise, and the accumulation model for both products. */
  ghost predicate Certified(NG: nat, G: nat, d: nat, W: Vec, D: Vec, x: Vec, xg: seq<Float>, rg: seq<Float>, xn: Float,
                            nv: Float, C: real, acc: Float, stock: real)
  {
    && |xg| == |rg| == NG && Narrow(NG, d) && 0.0 <= C <= 0.5
    && (forall g: nat :: g < NG ==> AboveNorm(rg[g], G, Group(G, Minus(W, D), g)))
    && (forall g: nat :: g < NG ==> SlackNorm(xg[g], d, G, Group(G, x, g)))
    && AboveNorm(nv, NG * G, W) && AboveNorm(nv, NG * G, D) && AboveNorm(xn, NG * G, x)
    && Accumulates(NG * G, C, W, x, stock)
    && (acc.Fin? ==> Accumulates(NG * G, C, D, x, acc.v))
  }

  /** Scaled down by its slack a group norm is still at least the true norm. */
  lemma SlackScale(a: real, y: real, d: nat)
    requires d <= 480 && y >= 0.0 && Times(1.0 + (500 - d) as real * U, y) <= Times(a, a)
    ensures y <= Times(Times(1.0 - Sigma(d) * U, a), Times(1.0 - Sigma(d) * U, a))
  {
    var o := Sigma(d);
    var t, k := 1.0 - o * U, 1.0 + (500 - d) as real * U;
    assert k == 1.0 + (2.0 * o + 1.0) * U;
    ScaleFactor(o, t, k);
    SquareNonneg(t);
    TimesMono(Times(k, y), Times(a, a), Times(t, t));
    assert Times(Times(t, t), Times(k, y)) == Times(Times(Times(t, t), k), y) by { TimesAssoc(Times(t, t), k, y); }
    TimesMono(1.0, Times(Times(t, t), k), y);
    TimesUnits(y);
    assert Times(Times(t, a), Times(t, a)) == Times(Times(t, t), Times(a, a)) by {
      assert (t * a) * (t * a) == (t * t) * (a * a) by { assert t * a * t == t * t * a; }
    }
  }

  lemma ScaleFactor(o: real, t: real, k: real)
    requires 0.0 <= o <= 250.0 && t == 1.0 - o * U && k == 1.0 + (2.0 * o + 1.0) * U
    ensures Times(Times(t, t), k) >= 1.0
  {
    var q := Times(o, o);
    TimesMono(o, 250.0, o);
    SquareNonneg(o);
    var w := Times(q, 2.0 * o + 1.0);
    TimesNonneg(q, 2.0 * o + 1.0);
    assert Times(t, t) == 1.0 - 2.0 * U * o + U * U * q;
    assert Times(1.0 - 2.0 * U * o + U * U * q, k)
        == 1.0 - 2.0 * U * o + U * U * q + (2.0 * o + 1.0) * U - 2.0 * U * U * Times(o, 2.0 * o + 1.0) + U * U * U * w;
    assert Times(o, 2.0 * o + 1.0) == 2.0 * q + o;
    assert Times(250.0, o) == 250.0 * o;
    hide Times;
    assert q <= 62500.0;
  }

  lemma FiniteCertificate(NG: nat, G: nat, d: nat, W: Vec, D: Vec, x: Vec, xg: seq<Float>, rg: seq<Float>, xn: Float,
                          nv: Float, C: real, acc: Float, stock: real)
    requires Certified(NG, G, d, W, D, x, xg, rg, xn, nv, C, acc, stock)
    requires AllFin(xg, NG) && AllFin(rg, NG) && xn.Fin? && nv.Fin? && acc.Fin?
    ensures Abs(stock - acc.v) <= Exact(xg, rg, NG) - U * Times(Sigma(d), Exact(xg, rg, NG))
                                  + Times(2.0 * C, Times(xn.v, nv.v))
  {
    hide Dot, Times, Exact, Sigma;
    var R, X := Vals(rg), Scaled(1.0 - Sigma(d) * U, Vals(xg));
    SigmaCovers(NG, d);
    forall g: nat | g < NG
      ensures R(g) >= 0.0 && Dot(G, Group(G, Minus(W, D), g), Group(G, Minus(W, D), g)) <= Times(R(g), R(g))
      ensures X(g) >= 0.0 && Dot(G, Group(G, x, g), Group(G, x, g)) <= Times(X(g), X(g))
    {
      assert AboveNorm(rg[g], G, Group(G, Minus(W, D), g)) && SlackNorm(xg[g], d, G, Group(G, x, g));
      CauchySchwarz(G, Group(G, x, g), Group(G, x, g));
      SlackScale(xg[g].v, Dot(G, Group(G, x, g), Group(G, x, g)), d);
      TimesNonneg(1.0 - Sigma(d) * U, xg[g].v);
    }
    ScreenDistance(NG, G, W, D, x, R, X, C, nv.v, xn.v, stock, acc.v);
    ScaledDot(NG, 1.0 - Sigma(d) * U, R, Vals(xg));
    ExactIsDot(xg, rg, NG);
    ScaleApart(Sigma(d), Exact(xg, rg, NG));
    TimesComm(nv.v, xn.v);
    TwiceTimes(C, Times(xn.v, nv.v));
  }

  function Scaled(t: real, v: Vec): Vec { (i: nat) => Times(t, v(i)) }

  lemma {:induction false} ScaledDot(n: nat, t: real, a: Vec, b: Vec)
    ensures Dot(n, a, Scaled(t, b)) == Times(t, Dot(n, a, b))
  {
    forall i: nat | i < n ensures Prod(a, Scaled(t, b))(i) == Times(t, Prod(a, b)(i)) {
      TimesAssoc(a(i), t, b(i));
      TimesAssoc(t, a(i), b(i));
      TimesComm(a(i), t);
    }
    SumScale(n, Prod(a, Scaled(t, b)), t, Prod(a, b));
  }

  lemma ScaleApart(o: real, e: real)
    ensures Times(1.0 - o * U, e) == e - U * Times(o, e)
  {
    assert (1.0 - o * U) * e == e - U * (o * e);
  }

  lemma TwiceTimes(c: real, t: real)
    ensures Times(2.0 * c, t) == 2.0 * Times(c, t)
  {}

  lemma CertifiedFloats(NG: nat, G: nat, d: nat, W: Vec, D: Vec, x: Vec, xg: seq<Float>, rg: seq<Float>, xn: Float,
                        nv: Float, C: real, acc: Float, stock: real)
    requires Certified(NG, G, d, W, D, x, xg, rg, xn, nv, C, acc, stock)
    ensures |xg| == |rg| == NG && Narrow(NG, d) && AllNonneg(xg) && AllNonneg(rg) && AtLeast0(xn) && AtLeast0(nv)
            && 0.0 <= 2.0 * C <= 1.0
  {
    hide AtLeast0, Dot, Times;
    assert forall i: nat :: i < NG ==>
      SlackNorm(xg[i], d, G, Group(G, x, i)) && AboveNorm(rg[i], G, Group(G, Minus(W, D), i));
  }

  /**
   * The certificate: for every row, token, grouping and rounding, overflow and NaN included, the interval
   * the screen kernel computes holds the stock logit, rounded to bf16 by any monotone rounding.
   */
  lemma Certificate(r: Rounding, rb: Rounding, NG: nat, G: nat, d: nat, W: Vec, D: Vec, x: Vec, xg: seq<Float>,
                    rg: seq<Float>,
                    xn: Float, nv: Float, C: real, acc: Float, stock: real)
    requires Rounds(r) && Monotone(rb) && IsFloat(r, acc)
    requires Certified(NG, G, d, W, D, x, xg, rg, xn, nv, C, acc, stock)
    ensures |xg| == |rg|
    ensures var b := BoundOf(r, Qb(r, xg, rg, NG), 2.0 * C, xn, nv);
            AtMost(LoOf(r, rb, acc, b), rb(stock)) && AtMost(rb(stock), HiOf(r, rb, acc, b))
  {
    hide Rounds, Certified, Narrow, AllNonneg, AtLeast0, Times, Exact, Qb, BoundOf, SlopOf, Sub, Add, AllFin;
    CertifiedFloats(NG, G, d, W, D, x, xg, rg, xn, nv, C, acc, stock);
    BoundCovers(r, xg, rg, 2.0 * C, xn, nv, d);
    var b := BoundOf(r, Qb(r, xg, rg, NG), 2.0 * C, xn, nv);
    if acc.Fin? {
      LowerEnd(r, acc, b);
      UpperEnd(r, acc, b);
      if b.Fin? { FiniteCertificate(NG, G, d, W, D, x, xg, rg, xn, nv, C, acc, stock); }
      IntervalHolds(rb, stock, Sub(r, Sub(r, acc, b), SlopOf(r, acc, b)), Add(r, Add(r, acc, b), SlopOf(r, acc, b)));
    } else {
      assert rb(stock) != NaN;
    }
  }

  lemma IntervalHolds(rb: Rounding, stock: real, lo: Float, hi: Float)
    requires Monotone(rb)
    requires lo == NaN || lo == NegInf || (lo.Fin? && lo.v <= stock)
    requires hi == NaN || hi == PosInf || (hi.Fin? && hi.v >= stock)
    ensures AtMost(if Cast(rb, lo) == NaN then NegInf else Cast(rb, lo), rb(stock))
    ensures AtMost(rb(stock), if Cast(rb, hi) == NaN then PosInf else Cast(rb, hi))
  {
    assert rb(stock) != NaN;
  }
}
