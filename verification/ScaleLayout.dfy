/**
 * The 128x4 tiled layout of MXFP8 scales (swizzle_128x4 in adapter/prefill_sp.py) and the slices of whole
 * 128-row tiles that the column split takes out of it (_proxy in adapter/replicated_split.py).
 */
module ScaleLayout {

  const TILE_ROWS: nat := 128

  /** A scale matrix with 4·h columns. */
  ghost predicate IsScales<V>(s: seq<seq<V>>, h: nat) { forall m :: 0 <= m < |s| ==> |s[m]| == 4 * h }

  function Tiles(rows: nat): nat { (rows + 127) / TILE_ROWS }

  // Position p of the flat tensor is (tile row a, tile column d, c, b, e) of shape [_, h, 32, 4, 4].

  /** The row of the matrix that lands at p. */
  function RowAt(p: nat, h: nat): nat
    requires h > 0
  {
    p / 512 / h * 128 + p / 4 % 4 * 32 + p / 16 % 32
  }

  function ColumnAt(p: nat, h: nat): (g: nat)
    requires h > 0
    ensures g < 4 * h
  {
    p / 512 % h * 4 + p % 4
  }

  /** Where element (m, g) is stored: tile (m / 128, g / 4), inside it [m % 32][(m % 128) / 32][g % 4]. */
  function Place(m: nat, g: nat, h: nat): nat {
    (m / 128 * h + g / 4) * 512 + m % 32 * 16 + m % 128 / 32 * 4 + g % 4
  }

  /** Pad the rows to whole tiles, view as [tiles, 4, 32, h, 4], permute to [tiles, h, 32, 4, 4], flatten. */
  function Swizzle<V>(s: seq<seq<V>>, h: nat, zero: V): (out: seq<V>)
    requires h > 0 && IsScales(s, h)
    ensures |out| == Size(Tiles(|s|), h)
  {
    seq(Size(Tiles(|s|), h), p requires 0 <= p =>
      if RowAt(p, h) < |s| then s[RowAt(p, h)][ColumnAt(p, h)] else zero)
  }

  /** Elements in n row tiles. */
  function Size(n: nat, h: nat): nat { n * h * 512 }

  lemma Digits(q: nat, h: nat, a: nat, d: nat)
    requires h > 0 && d < h && q == a * h + d
    ensures q / h == a && q % h == d
  {
    var x, y := q / h, q % h;
    assert q == x * h + y;
    Apart(x, a, h);
    Apart(a, x, h);
  }

  lemma Apart(a: nat, b: nat, h: nat)
    ensures a > b ==> a * h >= b * h + h
  {
    if a > b {
      assert (a - b - 1) * h >= 0;
      assert a * h == (a - b - 1) * h + b * h + h;
    }
  }

  /** The place of an element leads back to it. */
  lemma PlaceRow(m: nat, g: nat, h: nat)
    requires h > 0 && g < 4 * h
    ensures RowAt(Place(m, g, h), h) == m && ColumnAt(Place(m, g, h), h) == g
  {
    var q := m / 128 * h + g / 4;
    Inner(q, m % 32, m % 128 / 32, g % 4);
    Digits(q, h, m / 128, g / 4);
    Split(m);
  }

  lemma Split(m: nat)
    ensures m == m / 128 * 128 + m % 128 / 32 * 32 + m % 32
  {
    assert m == m / 32 * 32 + m % 32;
    assert m / 32 == m / 128 * 4 + m % 128 / 32;
  }

  lemma Inner(q: nat, c: nat, b: nat, e: nat)
    requires c < 32 && b < 4 && e < 4
    ensures var p := q * 512 + c * 16 + b * 4 + e; p % 4 == e && p / 4 % 4 == b && p / 16 % 32 == c && p / 512 == q
  {
    var p := q * 512 + c * 16 + b * 4 + e;
    assert p / 4 == q * 128 + c * 4 + b;
    assert p / 16 == q * 32 + c;
  }

  /** Every position is the place of the element it names, so the layout is a bijection of the padded matrix. */
  lemma RowPlace(p: nat, h: nat)
    requires h > 0
    ensures Place(RowAt(p, h), ColumnAt(p, h), h) == p
  {
    var q := p / 512;
    RowDigits(q / h, p / 4 % 4, p / 16 % 32);
    ColumnDigits(q % h, p % 4);
    Recompose(p);
    Rejoin(q, h);
  }

  lemma RowDigits(a: nat, b: nat, c: nat)
    requires b < 4 && c < 32
    ensures var m := a * 128 + b * 32 + c; m / 128 == a && m % 128 / 32 == b && m % 32 == c
  {
    var m := a * 128 + b * 32 + c;
    assert m / 32 == a * 4 + b;
  }

  lemma ColumnDigits(d: nat, e: nat)
    requires e < 4
    ensures (d * 4 + e) / 4 == d && (d * 4 + e) % 4 == e
  {}

  lemma Recompose(p: nat)
    ensures p == p / 512 * 512 + p / 16 % 32 * 16 + p / 4 % 4 * 4 + p % 4
  {
    assert p == p / 4 * 4 + p % 4;
    assert p / 4 == p / 16 * 4 + p / 4 % 4;
    assert p / 16 == p / 512 * 32 + p / 16 % 32;
  }

  lemma Rejoin(q: nat, h: nat)
    requires h > 0
    ensures q == q / h * h + q % h
  {}

  lemma PlaceInside(m: nat, g: nat, h: nat, n: nat)
    requires h > 0 && g < 4 * h && m / 128 < n
    ensures Place(m, g, h) < Size(n, h)
  {
    Apart(n, m / 128, h);
    assert m / 128 * h + g / 4 < n * h;
  }

  lemma RowInside(p: nat, h: nat, n: nat)
    requires h > 0 && p < Size(n, h)
    ensures RowAt(p, h) < n * 128
  {
    var q := p / 512;
    assert q < n * h;
    assert q == q / h * h + q % h;
    Apart(q / h + 1, n, h);
    assert (q / h + 1) * h == q / h * h + h;
  }

  /** The layout holds every scale at its place and zeros at the places of the padding rows. */
  lemma SwizzleHolds<V>(s: seq<seq<V>>, h: nat, zero: V, m: nat, g: nat)
    requires h > 0 && IsScales(s, h) && g < 4 * h && m < Tiles(|s|) * 128
    ensures Place(m, g, h) < |Swizzle(s, h, zero)|
    ensures Swizzle(s, h, zero)[Place(m, g, h)] == if m < |s| then s[m][g] else zero
  {
    PlaceInside(m, g, h, Tiles(|s|));
    PlaceRow(m, g, h);
    hide Place, RowAt, ColumnAt;
  }

  /** The view and the permutation: the padded matrix as [tiles, 4, 32, h, 4] with its axes in the order (0, 3, 2, 1, 4)
      and flattened. Index (a, b, c, d, e) of the view is flat element (((a·4 + b)·32 + c)·h + d)·4 + e, and lands at
      (((a·h + d)·32 + c)·4 + b)·4 + e. */
  lemma ViewPermute<V>(s: seq<seq<V>>, h: nat, zero: V, a: nat, b: nat, c: nat, d: nat, e: nat)
    requires h > 0 && IsScales(s, h) && a < Tiles(|s|) && b < 4 && c < 32 && d < h && e < 4
    ensures var row, at := (a * 4 + b) * 32 + c, (((a * h + d) * 32 + c) * 4 + b) * 4 + e;
            && ((row * h + d) * 4 + e) == row * (4 * h) + (d * 4 + e)
            && at < |Swizzle(s, h, zero)|
            && d * 4 + e < 4 * h
            && Swizzle(s, h, zero)[at] == if row < |s| then s[row][d * 4 + e] else zero
  {
    hide Swizzle, Place;
    var row := (a * 4 + b) * 32 + c;
    ViewPlace(h, a, b, c, d, e);
    SwizzleHolds(s, h, zero, row, d * 4 + e);
    ViewFlat(row, h, d, e);
  }

  lemma ViewFlat(row: nat, h: nat, d: nat, e: nat)
    requires d < h && e < 4
    ensures (row * h + d) * 4 + e == row * (4 * h) + (d * 4 + e) && d * 4 + e < 4 * h
  {
    assert row * h * 4 == row * (4 * h);
  }

  lemma ViewPlace(h: nat, a: nat, b: nat, c: nat, d: nat, e: nat)
    requires b < 4 && c < 32 && e < 4
    ensures Place((a * 4 + b) * 32 + c, d * 4 + e, h) == (((a * h + d) * 32 + c) * 4 + b) * 4 + e
    ensures forall n: nat :: a < n ==> (a * 4 + b) * 32 + c < n * 128
  {
    RowDigits(a, b, c);
    ColumnDigits(d, e);
    var row := (a * 4 + b) * 32 + c;
    assert row == a * 128 + b * 32 + c;
  }

  /** Rows of whole tiles are contiguous: swizzling a tile-aligned slice of the rows is slicing the swizzled
      tensor, which is how the column split cuts a weight's scales. */
  lemma TileSlice<V>(s: seq<seq<V>>, h: nat, zero: V, lo: nat, hi: nat)
    requires h > 0 && IsScales(s, h) && lo <= hi <= |s| && lo % 128 == 0 && hi % 128 == 0
    ensures lo * (4 * h) <= hi * (4 * h) <= |Swizzle(s, h, zero)|
    ensures Swizzle(s[lo..hi], h, zero) == Swizzle(s, h, zero)[lo * (4 * h)..hi * (4 * h)]
  {
    var part, whole := Swizzle(s[lo..hi], h, zero), Swizzle(s, h, zero);
    var a, b := lo / 128, hi / 128;
    Spans(a, h);
    Spans(b, h);
    assert Tiles(|s[lo..hi]|) == b - a;
    assert Size(b - a, h) == Size(b, h) - Size(a, h);
    assert b <= Tiles(|s|);
    SizeMono(a, b, h);
    SizeMono(b, Tiles(|s|), h);
    hide Swizzle;
    forall p | 0 <= p < |part| ensures part[p] == whole[Size(a, h) + p] { SlicePoint(s, h, zero, a, b, p); }
    assert part == whole[Size(a, h)..Size(b, h)];
  }

  lemma SlicePoint<V>(s: seq<seq<V>>, h: nat, zero: V, a: nat, b: nat, p: nat)
    requires h > 0 && IsScales(s, h) && a <= b && b * 128 <= |s| && p < Size(b - a, h)
    requires p < |Swizzle(s[a * 128..b * 128], h, zero)| && Size(a, h) + p < |Swizzle(s, h, zero)|
    ensures Swizzle(s[a * 128..b * 128], h, zero)[p] == Swizzle(s, h, zero)[Size(a, h) + p]
  {
    Shifted(p, a, h);
    RowInside(p, h, b - a);
    hide RowAt, ColumnAt, Size;
  }

  lemma Spans(a: nat, h: nat)
    ensures a * 128 * (4 * h) == Size(a, h)
  {}

  lemma SizeMono(a: nat, b: nat, h: nat)
    requires a <= b
    ensures Size(a, h) <= Size(b, h)
  {
    assert (b - a) * h * 512 >= 0;
    assert b * h == (b - a) * h + a * h;
  }

  lemma Shifted(p: nat, a: nat, h: nat)
    requires h > 0
    ensures RowAt(Size(a, h) + p, h) == a * 128 + RowAt(p, h)
    ensures ColumnAt(Size(a, h) + p, h) == ColumnAt(p, h)
  {
    var q, c, b, e := p / 512, p / 16 % 32, p / 4 % 4, p % 4;
    Recompose(p);
    Rejoin(q, h);
    Inner(a * h + q, c, b, e);
    assert Size(a, h) + p == (a * h + q) * 512 + c * 16 + b * 4 + e;
    assert (a + q / h) * h == a * h + q / h * h;
    Digits(a * h + q, h, a + q / h, q % h);
  }
}
