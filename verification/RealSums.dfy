/**
 * Finite sums of reals over an index range, and the few laws the probability and bound proofs use.
 * Products go through `Times`, so that a proof can hide the arithmetic and keep the algebra.
 */
module RealSums {

  function Max(a: real, b: real): real { if a >= b then a else b }

  function Min(a: real, b: real): real { if a <= b then a else b }

  function Abs(a: real): real { if a >= 0.0 then a else -a }

  function Times(a: real, b: real): real { a * b }

  /** u with probability t, else v */
  function Mix(t: real, u: real, v: real): real { t * u + (1.0 - t) * v }

  lemma TimesUnits(a: real)
    ensures Times(a, 0.0) == 0.0 == Times(0.0, a)
    ensures Times(a, 1.0) == a == Times(1.0, a)
  {}

  lemma TimesComm(a: real, b: real)
    ensures Times(a, b) == Times(b, a)
  {}

  lemma TimesAssoc(a: real, b: real, c: real)
    ensures Times(a, Times(b, c)) == Times(Times(a, b), c)
  {}

  lemma TimesAdd(a: real, b: real, c: real)
    ensures Times(a, b + c) == Times(a, b) + Times(a, c)
    ensures Times(b + c, a) == Times(b, a) + Times(c, a)
    ensures Times(a, b - c) == Times(a, b) - Times(a, c)
  {}

  lemma TimesNonneg(a: real, b: real)
    requires a >= 0.0 && b >= 0.0
    ensures Times(a, b) >= 0.0
  {}

  lemma TimesMono(a: real, b: real, c: real)
    requires a <= b && c >= 0.0
    ensures Times(a, c) <= Times(b, c) && Times(c, a) <= Times(c, b)
  {}

  lemma TimesStrict(a: real, b: real, c: real)
    requires a < b && c > 0.0
    ensures Times(a, c) < Times(b, c) && Times(c, a) < Times(c, b)
  {}

  lemma MixMix(h: real, t: real, u: real, v: real, w: real)
    ensures Mix(h, Mix(t, u, v), Mix(t, u, w)) == Mix(t, u, Mix(h, v, w))
  {
    var x := t * u;
    assert h * (x + (1.0 - t) * v) == h * x + h * ((1.0 - t) * v);
    assert (1.0 - h) * (x + (1.0 - t) * w) == (1.0 - h) * x + (1.0 - h) * ((1.0 - t) * w);
    assert h * x + (1.0 - h) * x == x;
    assert (1.0 - t) * (h * v + (1.0 - h) * w) == (1.0 - t) * (h * v) + (1.0 - t) * ((1.0 - h) * w);
  }

  /** f(0) + ... + f(n - 1) */
  function Sum(n: nat, f: nat -> real): real {
    if n == 0 then 0.0 else Sum(n - 1, f) + f(n - 1)
  }

  lemma {:induction false} SumEq(n: nat, f: nat -> real, g: nat -> real)
    requires forall i: nat :: i < n ==> f(i) == g(i)
    ensures Sum(n, f) == Sum(n, g)
  {
    if n > 0 { SumEq(n - 1, f, g); }
  }

  lemma {:induction false} SumAdd(n: nat, h: nat -> real, f: nat -> real, g: nat -> real)
    requires forall i: nat :: i < n ==> h(i) == f(i) + g(i)
    ensures Sum(n, h) == Sum(n, f) + Sum(n, g)
  {
    if n > 0 { SumAdd(n - 1, h, f, g); }
  }

  lemma {:induction false} SumScale(n: nat, h: nat -> real, a: real, f: nat -> real)
    requires forall i: nat :: i < n ==> h(i) == Times(a, f(i))
    ensures Sum(n, h) == Times(a, Sum(n, f))
  {
    if n > 0 {
      SumScale(n - 1, h, a, f);
      TimesAdd(a, Sum(n - 1, f), f(n - 1));
    }
  }

  lemma {:induction false} SumMono(n: nat, f: nat -> real, g: nat -> real)
    requires forall i: nat :: i < n ==> f(i) <= g(i)
    ensures Sum(n, f) <= Sum(n, g)
    ensures Sum(n, f) == Sum(n, g) ==> forall i: nat :: i < n ==> f(i) == g(i)
  {
    if n > 0 { SumMono(n - 1, f, g); }
  }

  lemma {:induction false} SumNonneg(n: nat, f: nat -> real)
    requires forall i: nat :: i < n ==> f(i) >= 0.0
    ensures Sum(n, f) >= 0.0
    ensures forall i: nat :: i < n ==> f(i) <= Sum(n, f)
  {
    if n > 0 { SumNonneg(n - 1, f); }
  }

  /** A sum with a single non-zero term is that term. */
  lemma {:induction false} SumSingle(n: nat, f: nat -> real, k: nat)
    requires k < n
    requires forall i: nat :: i < n && i != k ==> f(i) == 0.0
    ensures Sum(n, f) == f(k)
  {
    if k < n - 1 { SumSingle(n - 1, f, k); } else { SumZero(n - 1, f); }
  }

  lemma {:induction false} SumZero(n: nat, f: nat -> real)
    requires forall i: nat :: i < n ==> f(i) == 0.0
    ensures Sum(n, f) == 0.0
  {
    if n > 0 { SumZero(n - 1, f); }
  }
}
