/** Lane reductions: the order in which the lanes are added, and how many lanes a launch takes. */
module Lanes {
  import opened RealSums

  /** The order in which a reduction adds its lanes. */
  datatype Tree = Leaf(lane: nat) | Node(left: Tree, right: Tree)

  function Count(t: Tree, i: nat): nat {
    match t
    case Leaf(j) => if i == j then 1 else 0
    case Node(l, r) => Count(l, i) + Count(r, i)
  }

  /** Every lane below n exactly once, and no other. */
  ghost predicate Covers(t: Tree, n: nat) {
    forall i: nat :: Count(t, i) == if i < n then 1 else 0
  }

  function Depth(t: Tree): (d: nat)
    ensures d >= 1
  {
    match t
    case Leaf(_) => 1
    case Node(a, b) => 1 + if Depth(a) > Depth(b) then Depth(a) else Depth(b)
  }

  /** Leaves and nodes. */
  function Size(t: Tree): (n: nat)
    ensures n >= 1
  {
    match t
    case Leaf(_) => 1
    case Node(a, b) => Size(a) + Size(b) + 1
  }

  function Leaves(t: Tree): (n: nat)
    ensures n >= 1
  {
    match t
    case Leaf(_) => 1
    case Node(a, b) => Leaves(a) + Leaves(b)
  }

  function Counts(t: Tree): nat -> real { (i: nat) => Count(t, i) as real }

  lemma {:induction false} LeavesCounted(t: Tree, n: nat)
    requires forall i: nat :: i >= n ==> Count(t, i) == 0
    ensures Sum(n, Counts(t)) == Leaves(t) as real
  {
    match t
    case Leaf(j) =>
      assert Count(t, j) == 1;
      SumSingle(n, Counts(t), j);
    case Node(a, b) =>
      forall i: nat | i >= n ensures Count(a, i) == 0 && Count(b, i) == 0 { assert Count(t, i) == 0; }
      LeavesCounted(a, n);
      LeavesCounted(b, n);
      SumAdd(n, Counts(t), Counts(a), Counts(b));
  }

  lemma {:induction false} SumOnes(n: nat, f: nat -> real)
    requires forall i: nat :: i < n ==> f(i) == 1.0
    ensures Sum(n, f) == n as real
  {
    if n > 0 { SumOnes(n - 1, f); }
  }

  lemma {:induction false} TreeShape(t: Tree)
    ensures Size(t) == 2 * Leaves(t) - 1 && Depth(t) <= Leaves(t)
  {
    if t.Node? {
      TreeShape(t.left);
      TreeShape(t.right);
    }
  }

  /** Adding n lanes takes n leaves in any order, and at most n levels. */
  lemma CoverShape(t: Tree, n: nat)
    requires Covers(t, n)
    ensures Leaves(t) == n && Size(t) == 2 * n - 1 && Depth(t) <= n
  {
    LeavesCounted(t, n);
    SumOnes(n, Counts(t));
    TreeShape(t);
  }

  method Pow2(n: nat) returns (p: nat)
    ensures p >= n && p >= 1 && (p > 1 ==> p < 2 * n)
  {
    p := 1;
    while p < n
      invariant p >= 1 && (p > 1 ==> p < 2 * n)
    {
      p := p * 2;
    }
  }
}
