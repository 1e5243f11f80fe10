/**
 * The screening certificate of the LM head (adapter/cert_head.py): how far the stock accumulation can be
 * from the screen accumulation, by a Cauchy-Schwarz bound per column group, and why the rounded interval
 * [lo, hi] the screen kernel writes holds the stock logit.
 */
module CertBound {
  import opened RealSums

  type Vec = nat -> real

  function Prod(a: Vec, b: Vec): Vec { (i: nat) => Times(a(i), b(i)) }

  function Minus(a: Vec, b: Vec): Vec { (i: nat) => a(i) - b(i) }

  /** a · b over the first n entries */
  function Dot(n: nat, a: Vec, b: Vec): real { Sum(n, Prod(a, b)) }

  /** Entries of group g, groups of G columns. */
  function Group(G: nat, v: Vec, g: nat): Vec { (i: nat) => v(g * G + i) }

  // ------------------------------------------------------------------------------------------
  // Cauchy-Schwarz
  // ------------------------------------------------------------------------------------------

  lemma SquareNonneg(a: real)
    ensures Times(a, a) >= 0.0
  {}

  /** Comparing absolute values by their squares. */
  lemma SquareLe(a: real, b: real)
    requires b >= 0.0 && Times(a, a) <= Times(b, b)
    ensures -b <= a <= b
  {
    assert Times(-a, -a) == Times(a, a);
    if a > b { TimesStrict(b, a, a); TimesMono(b, a, b); }
    if a < -b { TimesStrict(b, -a, -a); TimesMono(b, -a, b); }
  }

  lemma Square4(s: real, d: real, x: real, a: real, b: real)
    requires a >= 0.0 && b >= 0.0 && Times(s, s) <= Times(a, b)
    ensures 2.0 * Times(s, Times(d, x)) <= Times(a, Times(x, x)) + Times(b, Times(d, d))
  {
    var u, v, m := Times(a, Times(x, x)), Times(b, Times(d, d)), Times(s, Times(d, x));
    SquareNonneg(x);
    SquareNonneg(d);
    TimesNonneg(a, Times(x, x));
    TimesNonneg(b, Times(d, d));
    SquareNonneg(Times(d, x));
    TimesMono(Times(s, s), Times(a, b), Times(Times(d, x), Times(d, x)));
    ProductSquares(s, a, b, d, x);
    FourTimes(u, v, m);
  }

  lemma ProductSquares(s: real, a: real, b: real, d: real, x: real)
    ensures var k := Times(d, x);
            Times(Times(s, s), Times(k, k)) == Times(Times(s, k), Times(s, k))
            && Times(Times(a, b), Times(k, k)) == Times(Times(a, Times(x, x)), Times(b, Times(d, d)))
  {
    var k := d * x;
    assert (s * s) * (k * k) == (s * k) * (s * k) by { assert s * s * k == s * (s * k); }
    assert k * k == (x * x) * (d * d) by { assert d * x * d == x * (d * d); }
    var p, q := x * x, d * d;
    assert (a * b) * (p * q) == (a * p) * (b * q) by { assert a * b * p == (a * p) * b; }
  }

  /** m² <= u·v gives 2m <= u + v. */
  lemma FourTimes(u: real, v: real, m: real)
    requires u >= 0.0 && v >= 0.0 && Times(m, m) <= Times(u, v)
    ensures 2.0 * m <= u + v
  {
    assert Times(2.0 * m, 2.0 * m) == 4.0 * Times(m, m);
    SquareNonneg(u - v);
    assert Times(u - v, u - v) == Times(u + v, u + v) - 4.0 * Times(u, v);
    SquareLe(2.0 * m, u + v);
  }

  lemma {:induction false} CauchySchwarz(n: nat, a: Vec, b: Vec)
    ensures Dot(n, a, a) >= 0.0 && Dot(n, b, b) >= 0.0
    ensures Times(Dot(n, a, b), Dot(n, a, b)) <= Times(Dot(n, a, a), Dot(n, b, b))
  {
    if n == 0 {
      TimesUnits(0.0);
    } else {
      var m := n - 1;
      CauchySchwarz(m, a, b);
      var d, x := a(m), b(m);
      var s, aa, bb := Dot(m, a, b), Dot(m, a, a), Dot(m, b, b);
      SquareNonneg(d);
      SquareNonneg(x);
      Square4(s, d, x, aa, bb);
      DotStep(m, a, b);
      hide Dot, Times;
      SquareOfSum(s, Times(d, x), aa, bb, d, x);
    }
  }

  lemma DotStep(m: nat, a: Vec, b: Vec)
    ensures Dot(m + 1, a, b) == Dot(m, a, b) + Times(a(m), b(m))
    ensures Dot(m + 1, a, a) == Dot(m, a, a) + Times(a(m), a(m))
    ensures Dot(m + 1, b, b) == Dot(m, b, b) + Times(b(m), b(m))
  {}

  lemma SquareOfSum(s: real, k: real, aa: real, bb: real, d: real, x: real)
    requires k == Times(d, x) && Times(s, s) <= Times(aa, bb)
    requires 2.0 * Times(s, k) <= Times(aa, Times(x, x)) + Times(bb, Times(d, d))
    ensures Times(s + k, s + k) <= Times(aa + Times(d, d), bb + Times(x, x))
  {
    assert Times(s + k, s + k) == Times(s, s) + 2.0 * Times(s, k) + Times(k, k);
    var p, q := Times(d, d), Times(x, x);
    assert Times(aa + p, bb + q) == Times(aa, bb) + Times(aa, q) + Times(bb, p) + Times(p, q);
    assert Times(k, k) == Times(p, q) by {
      assert (d * x) * (d * x) == (d * d) * (x * x) by { assert d * x * d == d * d * x; }
    }
  }

  /** |a · b| <= na · nb for any numbers at least the two norms. */
  lemma DotBound(n: nat, a: Vec, b: Vec, na: real, nb: real)
    requires na >= 0.0 && nb >= 0.0
    requires Dot(n, a, a) <= Times(na, na) && Dot(n, b, b) <= Times(nb, nb)
    ensures -Times(na, nb) <= Dot(n, a, b) <= Times(na, nb)
  {
    CauchySchwarz(n, a, b);
    var aa, bb := Dot(n, a, a), Dot(n, b, b);
    hide Dot;
    TimesMono(aa, Times(na, na), bb);
    SquareNonneg(na);
    TimesMono(bb, Times(nb, nb), Times(na, na));
    TimesNonneg(na, nb);
    assert Times(Times(na, na), Times(nb, nb)) == Times(Times(na, nb), Times(na, nb)) by {
      assert na * na * nb == (na * nb) * na;
    }
    SquareLe(Dot(n, a, b), Times(na, nb));
  }

  // ------------------------------------------------------------------------------------------
  // column groups
  // ------------------------------------------------------------------------------------------

  function GroupSums(G: nat, f: Vec): Vec { (g: nat) => Sum(G, Group(G, f, g)) }

  lemma {:induction false} SumTail(n: nat, m: nat, f: Vec)
    ensures Sum(n + m, f) == Sum(n, f) + Sum(m, (i: nat) => f(n + i))
  {
    var t := (i: nat) => f(n + i);
    if m > 0 {
      SumTail(n, m - 1, f);
      SumEq(m - 1, t, (i: nat) => f(n + i));
    }
  }

  /** A sum over all columns is the sum of the group sums. */
  lemma {:induction false} SumGroups(NG: nat, G: nat, f: Vec)
    ensures Sum(NG * G, f) == Sum(NG, GroupSums(G, f))
  {
    if NG > 0 {
      SumGroups(NG - 1, G, f);
      assert NG * G == (NG - 1) * G + G;
      SumTail((NG - 1) * G, G, f);
      SumEq(G, (i: nat) => f((NG - 1) * G + i), Group(G, f, NG - 1));
    }
  }

  /** The dot product of the residual with x, group by group. */
  lemma GroupedBound(NG: nat, G: nat, d: Vec, x: Vec, R: Vec, X: Vec)
    requires forall g: nat :: g < NG ==> R(g) >= 0.0 && Dot(G, Group(G, d, g), Group(G, d, g)) <= Times(R(g), R(g))
    requires forall g: nat :: g < NG ==> X(g) >= 0.0 && Dot(G, Group(G, x, g), Group(G, x, g)) <= Times(X(g), X(g))
    ensures -Dot(NG, R, X) <= Dot(NG * G, d, x) <= Dot(NG, R, X)
  {
    var sums, bound := GroupSums(G, Prod(d, x)), Prod(R, X);
    var low := (g: nat) => Times(-1.0, bound(g));
    SumGroups(NG, G, Prod(d, x));
    forall g: nat | g < NG ensures low(g) <= sums(g) <= bound(g) {
      DotBound(G, Group(G, d, g), Group(G, x, g), R(g), X(g));
      SumEq(G, Group(G, Prod(d, x), g), Prod(Group(G, d, g), Group(G, x, g)));
      assert sums(g) == Dot(G, Group(G, d, g), Group(G, x, g));
      assert bound(g) == Times(R(g), X(g)) && low(g) == -bound(g);
    }
    SumMono(NG, sums, bound);
    SumMono(NG, low, sums);
    SumScale(NG, low, -1.0, bound);
  }

  // ------------------------------------------------------------------------------------------
  // the accumulation bound
  // ------------------------------------------------------------------------------------------

  /** The accumulation model: computed minus exact is at most C·||w||·||x|| (stated on squares, free of roots). */
  ghost predicate Accumulates(K: nat, C: real, w: Vec, x: Vec, computed: real) {
    var err := computed - Dot(K, w, x);
    Times(err, err) <= Times(Times(C, C), Times(Dot(K, w, w), Dot(K, x, x)))
  }

  lemma AccumulationError(K: nat, C: real, w: Vec, x: Vec, computed: real, n: real, m: real)
    requires C >= 0.0 && n >= 0.0 && m >= 0.0 && Accumulates(K, C, w, x, computed)
    requires Dot(K, w, w) <= Times(n, n) && Dot(K, x, x) <= Times(m, m)
    ensures -Times(C, Times(n, m)) <= computed - Dot(K, w, x) <= Times(C, Times(n, m))
  {
    CauchySchwarz(K, w, x);
    var ww, xx, err := Dot(K, w, w), Dot(K, x, x), computed - Dot(K, w, x);
    hide Dot;
    SquareNonneg(n);
    TimesMono(ww, Times(n, n), xx);
    TimesMono(xx, Times(m, m), Times(n, n));
    SquareNonneg(C);
    TimesMono(Times(ww, xx), Times(Times(n, n), Times(m, m)), Times(C, C));
    CubeSquare(C, n, m);
    TimesNonneg(n, m);
    TimesNonneg(C, Times(n, m));
    SquareLe(err, Times(C, Times(n, m)));
  }

  lemma CubeSquare(c: real, n: real, m: real)
    ensures Times(Times(c, c), Times(Times(n, n), Times(m, m))) == Times(Times(c, Times(n, m)), Times(c, Times(n, m)))
  {
    assert (n * n) * (m * m) == (n * m) * (n * m) by { assert n * n * m == (n * m) * n; }
    var k := n * m;
    assert (c * c) * (k * k) == (c * k) * (c * k) by { assert c * c * k == (c * k) * c; }
  }

  /**
   * The certificate on accumulations: for any weights W, screening copy D, input x and grouping, the stock
   * accumulation and the screen accumulation differ by at most sum_g R_g·X_g + 2·C·N·X.
   */
  lemma ScreenDistance(NG: nat, G: nat, W: Vec, D: Vec, x: Vec, R: Vec, X: Vec, C: real, N: real, XN: real,
                       stock: real, screen: real)
    requires C >= 0.0 && N >= 0.0 && XN >= 0.0
    requires forall g: nat :: g < NG ==>
               R(g) >= 0.0 && Dot(G, Group(G, Minus(W, D), g), Group(G, Minus(W, D), g)) <= Times(R(g), R(g))
    requires forall g: nat :: g < NG ==> X(g) >= 0.0 && Dot(G, Group(G, x, g), Group(G, x, g)) <= Times(X(g), X(g))
    requires Dot(NG * G, W, W) <= Times(N, N) && Dot(NG * G, D, D) <= Times(N, N)
    requires Dot(NG * G, x, x) <= Times(XN, XN)
    requires Accumulates(NG * G, C, W, x, stock) && Accumulates(NG * G, C, D, x, screen)
    ensures Abs(stock - screen) <= Dot(NG, R, X) + 2.0 * Times(C, Times(N, XN))
  {
    var K := NG * G;
    AccumulationError(K, C, W, x, stock, N, XN);
    AccumulationError(K, C, D, x, screen, N, XN);
    GroupedBound(NG, G, Minus(W, D), x, R, X);
    DotMinus(K, W, D, x);
    hide Dot, Times;
  }

  lemma DotMinus(K: nat, W: Vec, D: Vec, x: Vec)
    ensures Dot(K, Minus(W, D), x) == Dot(K, W, x) - Dot(K, D, x)
  {
    hide Times;
    forall i: nat | i < K ensures Prod(W, x)(i) == Prod(Minus(W, D), x)(i) + Prod(D, x)(i) {
      TimesAdd(x(i), W(i), D(i));
      TimesComm(x(i), W(i));
      TimesComm(x(i), D(i));
      TimesComm(x(i), W(i) - D(i));
    }
    SumAdd(K, Prod(W, x), Prod(Minus(W, D), x), Prod(D, x));
  }
}
