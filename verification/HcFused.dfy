/**
 * Hyper-connection mix statistics in one walk over K (adapter/hc_fused.py), against the engine's split-K kernels.
 * The float operations are uninterpreted, so equality means the same expression tree: addition is not associative.
 */
module HcFused {

  /** The engine's float32 addition, tensor-core dot of one 64-wide chunk, and tf32 rounding of the chunk's operands. */
  datatype Ops<!F, !C> = Ops(
    zero: F, add: (F, F) -> F, dot: (C, C, F) -> F, big: C -> C, small: C -> C, none: C)

  /** Addition commutes, and a dot with an all-zero operand onto zero is zero. */
  ghost predicate Laws<F(!new), C(!new)>(o: Ops<F, C>) {
    && (forall a, b :: o.add(a, b) == o.add(b, a))
    && (forall c :: o.dot(o.none, c, o.zero) == o.zero)
  }

  /** A bf16 activation is exactly representable in tf32. */
  ghost predicate Exact<F, C>(o: Ops<F, C>, x: C) { o.big(x) == x && o.small(x) == o.none }

  // ---- the engine ----

  /** tf32x3: three dots, smallest first. */
  function StockDot<F, C>(o: Ops<F, C>, x: C, w: C): F {
    o.dot(o.big(x), o.big(w), o.dot(o.big(x), o.small(w), o.dot(o.small(x), o.big(w), o.zero)))
  }

  /** The first n chunks of the slice that begins at `start`, from zero, in order. */
  function Partial<F, C>(o: Ops<F, C>, d: seq<F>, start: nat, n: nat): F
    requires start + n <= |d|
  {
    if n == 0 then o.zero else o.add(d[start + n - 1], Partial(o, d, start, n - 1))
  }

  function SliceStart(s: nat, per: nat): nat { s * per }

  lemma SliceInside(s: nat, slices: nat, per: nat)
    requires s < slices
    ensures SliceStart(s, per) + per == SliceStart(s + 1, per) <= slices * per
  {
    assert (slices - s - 1) * per >= 0;
    assert slices * per == (slices - s - 1) * per + s * per + per;
  }

  /** The reduce: the first n slice partials added in slice order, from zero. */
  function Reduced<F, C>(o: Ops<F, C>, d: seq<F>, slices: nat, per: nat, n: nat): F
    requires n <= slices && |d| == slices * per
  {
    if n == 0 then o.zero
    else
      SliceInside(n - 1, slices, per);
      o.add(Reduced(o, d, slices, per, n - 1), Partial(o, d, SliceStart(n - 1, per), per))
  }

  // ---- the single walk ----

  /** One chunk of the fused kernel: the dot of the small half of x is left out. */
  function FusedDot<F, C>(o: Ops<F, C>, x: C, w: C): F { o.dot(x, o.big(w), o.dot(x, o.small(w), o.zero)) }

  lemma SameDot<F(!new), C(!new)>(o: Ops<F, C>, x: C, w: C)
    requires Laws(o) && Exact(o, x)
    ensures FusedDot(o, x, w) == StockDot(o, x, w)
  {}

  /** i = s·per + r has remainder r. */
  lemma SlicePosition(i: nat, s: nat, r: nat, per: nat)
    requires r < per && i == SliceStart(s, per) + r
    ensures i % per == r
  {
    var q, m := i / per, i % per;
    assert i == q * per + m;
    AtLeast(q, s, per);
    AtLeast(s, q, per);
  }

  lemma AtLeast(a: nat, b: nat, per: nat)
    ensures a > b ==> a * per >= b * per + per
  {
    if a > b {
      assert (a - b - 1) * per >= 0;
      assert a * per == (a - b - 1) * per + b * per + per;
    }
  }

  /** The walk over all chunks with a running slice total that resets after each slice is exactly the engine's
      slice partials followed by its ordered reduce. */
  method Walk<F(!new), C(!new)>(o: Ops<F, C>, d: seq<F>, slices: nat, per: nat) returns (tot: F)
    requires Laws(o) && per >= 1 && |d| == slices * per
    ensures tot == Reduced(o, d, slices, per, slices)
  {
    var acc := o.zero;
    tot := o.zero;
    ghost var s, r := 0, 0;
    for i := 0 to |d|
      invariant r < per && s <= slices && i == SliceStart(s, per) + r && (s == slices ==> r == 0)
      invariant tot == Reduced(o, d, slices, per, s)
      invariant acc == Partial(o, d, SliceStart(s, per), r)
    {
      SlicePosition(i, s, r, per);
      Whole(s, i, r, slices, per);
      SliceInside(s, slices, per);
      acc := o.add(acc, d[i]);
      assert acc == Partial(o, d, SliceStart(s, per), r + 1);
      var last := i % per == per - 1;
      if last {
        tot := o.add(tot, acc);
        acc := o.zero;
        s, r := s + 1, 0;
      } else {
        r := r + 1;
      }
    }
    Whole(s, |d|, r, slices, per);
  }

  lemma Whole(s: nat, i: nat, r: nat, slices: nat, per: nat)
    requires r < per && s <= slices && i == SliceStart(s, per) + r
    ensures i >= slices * per ==> s == slices
    ensures i < slices * per ==> s < slices || r > 0
  {
    if s < slices { SliceInside(s, slices, per); }
  }

  /** A row's mix value: chunk by chunk the fused dots, walked once, give the engine's bits. */
  method MixValue<F(!new), C(!new)>(o: Ops<F, C>, x: seq<C>, w: seq<C>, slices: nat, per: nat) returns (mix: F)
    requires Laws(o) && per >= 1 && |x| == |w| == slices * per
    requires forall i :: 0 <= i < |x| ==> Exact(o, x[i])
    ensures mix == Reduced(o, seq(|x|, i requires 0 <= i < |x| => StockDot(o, x[i], w[i])), slices, per, slices)
  {
    var d := seq(|x|, i requires 0 <= i < |x| => FusedDot(o, x[i], w[i]));
    forall i | 0 <= i < |x| ensures d[i] == StockDot(o, x[i], w[i]) { SameDot(o, x[i], w[i]); }
    assert d == seq(|x|, i requires 0 <= i < |x| => StockDot(o, x[i], w[i]));
    mix := Walk(o, d, slices, per);
  }

  /** The engine's tree adds every chunk once: over the reals it is the sum of all of them. */
  lemma {:induction false} PartialTotal<C>(o: Ops<real, C>, d: seq<real>, start: nat, n: nat)
    requires o.zero == 0.0 && (forall a, b :: o.add(a, b) == a + b) && start + n <= |d|
    ensures Total(d[..start + n]) == Total(d[..start]) + Partial(o, d, start, n)
  {
    if n > 0 {
      PartialTotal(o, d, start, n - 1);
      assert d[..start + n][..start + n - 1] == d[..start + n - 1];
    } else {
      assert d[..start + n] == d[..start];
    }
  }

  lemma {:induction false} ReducedTotal<C>(o: Ops<real, C>, d: seq<real>, slices: nat, per: nat, n: nat)
    requires o.zero == 0.0 && (forall a, b :: o.add(a, b) == a + b) && n <= slices && |d| == slices * per
    ensures SliceStart(n, per) <= |d| && Reduced(o, d, slices, per, n) == Total(d[..SliceStart(n, per)])
    ensures n == slices ==> Reduced(o, d, slices, per, n) == Total(d)
  {
    if n > 0 {
      ReducedTotal(o, d, slices, per, n - 1);
      SliceInside(n - 1, slices, per);
      PartialTotal(o, d, SliceStart(n - 1, per), per);
    }
    if n == slices { assert d[..SliceStart(n, per)] == d; }
  }

  function Total(d: seq<real>): real { if d == [] then 0.0 else Total(d[..|d| - 1]) + d[|d| - 1] }

  /** Where the activation is exact in tf32 and the weight is the sum of its two halves, the three dots add up to the
      product. */
  lemma DotExact(o: Ops<real, real>, x: real, w: real)
    requires o.zero == 0.0 && (forall a, b, c :: o.dot(a, b, c) == a * b + c)
    requires o.none == 0.0 && Exact(o, x) && o.big(w) + o.small(w) == w
    ensures StockDot(o, x, w) == x * w
  {
    assert x * (o.big(w) + o.small(w)) == x * o.big(w) + x * o.small(w);
  }

  // ---- the sum of squares of a chunk ----

  /** The fused kernel's tree over 2^n lanes, lanes named by their bits from the highest: each step adds the two
      halves of the axis of the highest bit left. */
  function Tree<F>(add: (F, F) -> F, v: seq<bool> -> F, n: nat): F {
    if n == 0 then v([]) else Tree(add, Halves(add, v, false), n - 1)
  }

  /** Lanes that agree with x in the highest bit, each plus its partner across that bit. */
  function Halves<F>(add: (F, F) -> F, v: seq<bool> -> F, x: bool): seq<bool> -> F {
    (rest: seq<bool>) => add(v([x] + rest), v([!x] + rest))
  }

  /** What lane `bits` of a warp holds after the xor butterfly from the highest bit down: in every step it adds the
      value of the lane that differs in that bit, and later partners share the bits already done. */
  function Butterfly<F>(add: (F, F) -> F, v: seq<bool> -> F, bits: seq<bool>): F {
    if bits == [] then v([]) else Butterfly(add, Halves(add, v, bits[0]), bits[1..])
  }

  lemma {:induction false} TreeEqual<F>(add: (F, F) -> F, v: seq<bool> -> F, u: seq<bool> -> F, n: nat)
    requires forall bits :: |bits| == n ==> v(bits) == u(bits)
    ensures Tree(add, v, n) == Tree(add, u, n)
  {
    if n > 0 {
      forall rest: seq<bool> | |rest| == n - 1 ensures Halves(add, v, false)(rest) == Halves(add, u, false)(rest) {
        assert v([false] + rest) == u([false] + rest) && v([true] + rest) == u([true] + rest);
      }
      TreeEqual(add, Halves(add, v, false), Halves(add, u, false), n - 1);
    }
  }

  /** Every lane of the butterfly ends with the tree's value: the sums pair the same operands, up to the order
      within a pair. */
  lemma {:induction false} ButterflyIsTree<F(!new)>(add: (F, F) -> F, v: seq<bool> -> F, bits: seq<bool>)
    requires forall a, b :: add(a, b) == add(b, a)
    ensures Butterfly(add, v, bits) == Tree(add, v, |bits|)
  {
    if bits != [] {
      ButterflyIsTree(add, Halves(add, v, bits[0]), bits[1..]);
      TreeEqual(add, Halves(add, v, bits[0]), Halves(add, v, false), |bits| - 1);
    }
  }

  function Plus(a: int, b: int): int { a + b }

  function Only(lane: seq<bool>): seq<bool> -> int { (bits: seq<bool>) => if bits == lane then 1 else 0 }

  lemma OnlyRest(lane: seq<bool>, x: bool, rest: seq<bool>)
    requires lane != []
    ensures Only(lane)([x] + rest) == if x == lane[0] then Only(lane[1..])(rest) else 0
  {
    assert ([x] + rest)[0] == x && ([x] + rest)[1..] == rest;
    assert lane == [lane[0]] + lane[1..];
  }

  /** The tree adds every lane exactly once: with 1 in a single lane and 0 in the others its value is 1. */
  lemma {:induction false} EveryLaneOnce(lane: seq<bool>)
    ensures Tree(Plus, Only(lane), |lane|) == 1
  {
    if lane != [] {
      var v, u := Halves(Plus, Only(lane), false), Only(lane[1..]);
      forall rest: seq<bool> | |rest| == |lane| - 1 ensures v(rest) == u(rest) {
        assert v(rest) == Only(lane)([false] + rest) + Only(lane)([true] + rest);
        OnlyRest(lane, false, rest);
        OnlyRest(lane, true, rest);
      }
      TreeEqual(Plus, v, u, |lane| - 1);
      EveryLaneOnce(lane[1..]);
    }
  }

  /** One row of a chunk: lane k % 32 of warp k / 32 holds value k, so bit 5 of k is the warp. */
  function StockSquares<F>(add: (F, F) -> F, v: seq<bool> -> F, lane: seq<bool>): F {
    add(Butterfly(add, (rest: seq<bool>) => v([false] + rest), lane),
        Butterfly(add, (rest: seq<bool>) => v([true] + rest), lane))
  }

  function FusedSquares<F>(add: (F, F) -> F, v: seq<bool> -> F): F {
    add(Tree(add, (rest: seq<bool>) => v([false] + rest), 5), Tree(add, (rest: seq<bool>) => v([true] + rest), 5))
  }

  lemma SquaresMatch<F(!new)>(add: (F, F) -> F, v: seq<bool> -> F, lane: seq<bool>)
    requires |lane| == 5 && forall a, b :: add(a, b) == add(b, a)
    ensures FusedSquares(add, v) == StockSquares(add, v, lane)
  {
    ButterflyIsTree(add, (rest: seq<bool>) => v([false] + rest), lane);
    ButterflyIsTree(add, (rest: seq<bool>) => v([true] + rest), lane);
  }

  /** A row's square total: the tree sums of its chunks, walked once, are the engine's butterflies summed slice by
      slice, whichever lane the engine reads them from. */
  method SquareTotal<F(!new), C(!new)>(o: Ops<F, C>, v: seq<seq<bool> -> F>, lane: seq<bool>, slices: nat, per: nat)
    returns (sq: F)
    requires Laws(o) && per >= 1 && |v| == slices * per && |lane| == 5
    ensures sq == Reduced(o, seq(|v|, i requires 0 <= i < |v| => StockSquares(o.add, v[i], lane)), slices, per, slices)
  {
    var d := seq(|v|, i requires 0 <= i < |v| => FusedSquares(o.add, v[i]));
    forall i | 0 <= i < |v| ensures d[i] == StockSquares(o.add, v[i], lane) { SquaresMatch(o.add, v[i], lane); }
    assert d == seq(|v|, i requires 0 <= i < |v| => StockSquares(o.add, v[i], lane));
    sq := Walk(o, d, slices, per);
  }

  // ---- the guarded call ----

  /** The process-wide switch: the first fused call outside graph capture is compared with the engine. */
  class Switch<R(==)> {
    var checked: bool
    var disabled: bool

    constructor ()
      ensures !checked && !disabled
    {
      checked, disabled := false, false;
    }

    /** The result is the engine's unless an earlier call compared equal and the kernels differ on this input; one
        mismatch turns the fused path off for good. */
    method Call(stock: R, fused: R, eligible: bool, capturing: bool) returns (r: R)
      modifies this
      ensures r == stock || (r == fused && old(checked) && !old(disabled) && eligible)
      ensures old(disabled) ==> disabled && r == stock
      ensures disabled && !old(disabled) ==> stock != fused && !old(checked)
      ensures !old(disabled) && eligible && !old(checked) && !capturing ==> checked && (disabled <==> stock != fused)
      ensures old(checked) ==> checked
    {
      if disabled || !eligible { return stock; }
      if !checked {
        if capturing { return stock; }
        checked := true;
        if stock != fused { disabled := true; }
        return stock;
      }
      r := fused;
    }
  }
}
