/** A set of ids kept as the sorted tuple of its members. */
module SortedIds {
  predicate Increasing(t: seq<int>) { forall i, j :: 0 <= i < j < |t| ==> t[i] < t[j] }

  /** x put in its place in an increasing sequence. */
  method Insert(t: seq<int>, x: int) returns (u: seq<int>)
    requires Increasing(t) && x !in t
    ensures Increasing(u) && |u| == |t| + 1 && forall y :: y in u <==> y in t || y == x
  {
    var k := 0;
    while k < |t| && t[k] < x
      invariant k <= |t| && forall i :: 0 <= i < k ==> t[i] < x
    {
      k := k + 1;
    }
    u := t[..k] + [x] + t[k..];
    assert forall y :: y in t <==> y in t[..k] || y in t[k..] by { assert t == t[..k] + t[k..]; }
  }

  function Members(t: seq<int>): set<int> { set x | x in t }

  /** An increasing sequence has as many members as entries. */
  lemma {:induction false} IncreasingCount(t: seq<int>)
    requires Increasing(t)
    ensures |Members(t)| == |t|
  {
    if t != [] {
      var n := |t| - 1;
      IncreasingCount(t[..n]);
      assert t == t[..n] + [t[n]];
      assert Members(t) == Members(t[..n]) + {t[n]};
      assert t[n] !in t[..n];
    }
  }
}
