/**
 * The fast weight loader (adapter/fast_load.py): the monitor that paces copies by the bytes they keep
 * alive, the packing of tensors into slabs, and the reading of tensor slices.
 */
module LoadPacing {
  import opened Wrappers

  /** A copy in flight: what it is charged under (None: on its own) and its size. */
  datatype Copy = Copy(id: nat, key: Option<nat>, size: nat)

  /** A slab in flight and what it was charged. */
  datatype Slab = Slab(key: nat, bytes: nat)

  datatype Hold = Hold(copies: nat, bytes: nat)

  function LooseSize(c: Copy): nat { if c.key.None? then c.size else 0 }

  function Loose(copies: seq<Copy>): nat {
    if copies == [] then 0 else Loose(copies[..|copies| - 1]) + LooseSize(copies[|copies| - 1])
  }

  function SlabBytes(slabs: seq<Slab>): nat {
    if slabs == [] then 0 else SlabBytes(slabs[..|slabs| - 1]) + slabs[|slabs| - 1].bytes
  }

  function Uses(copies: seq<Copy>, key: nat): nat {
    if copies == [] then 0
    else Uses(copies[..|copies| - 1], key) + if copies[|copies| - 1].key == Some(key) then 1 else 0
  }

  function Without<T>(s: seq<T>, i: nat): seq<T>
    requires i < |s|
  {
    s[..i] + s[i + 1..]
  }

  lemma {:induction false} LooseWithout(copies: seq<Copy>, i: nat)
    requires i < |copies|
    ensures Loose(copies) == Loose(Without(copies, i)) + LooseSize(copies[i])
    ensures forall key: nat ::
              Uses(copies, key) == Uses(Without(copies, i), key) + if copies[i].key == Some(key) then 1 else 0
  {
    var n, rest := |copies| - 1, Without(copies, i);
    if i == n {
      assert rest == copies[..n];
    } else {
      LooseWithout(copies[..n], i);
      assert rest[..|rest| - 1] == Without(copies[..n], i) && rest[|rest| - 1] == copies[n];
    }
  }

  lemma {:induction false} SlabsWithout(slabs: seq<Slab>, i: nat)
    requires i < |slabs|
    ensures SlabBytes(slabs) == SlabBytes(Without(slabs, i)) + slabs[i].bytes
  {
    var n, rest := |slabs| - 1, Without(slabs, i);
    if i == n {
      assert rest == slabs[..n];
    } else {
      SlabsWithout(slabs[..n], i);
      assert rest[..|rest| - 1] == Without(slabs[..n], i) && rest[|rest| - 1] == slabs[n];
    }
  }

  lemma {:induction false} UsesPositive(copies: seq<Copy>, key: nat)
    ensures Uses(copies, key) > 0 <==> exists i :: 0 <= i < |copies| && copies[i].key == Some(key)
  {
    if copies != [] {
      var head := copies[..|copies| - 1];
      UsesPositive(head, key);
      assert forall i :: 0 <= i < |head| ==> head[i] == copies[i];
    }
  }

  lemma UsesAppend(copies: seq<Copy>, c: Copy)
    ensures Loose(copies + [c]) == Loose(copies) + LooseSize(c)
    ensures forall key: nat :: Uses(copies + [c], key) == Uses(copies, key) + if c.key == Some(key) then 1 else 0
  {
    assert (copies + [c])[..|copies|] == copies;
  }

  lemma SlabsAppend(slabs: seq<Slab>, s: Slab)
    ensures SlabBytes(slabs + [s]) == SlabBytes(slabs) + s.bytes
  {
    assert (slabs + [s])[..|slabs|] == slabs;
  }

  ghost predicate DistinctIds(copies: seq<Copy>) {
    forall i, j :: 0 <= i < j < |copies| ==> copies[i].id != copies[j].id
  }

  ghost predicate DistinctKeys(slabs: seq<Slab>) {
    forall i, j :: 0 <= i < j < |slabs| ==> slabs[i].key != slabs[j].key
  }

  lemma DistinctAppend(copies: seq<Copy>, c: Copy)
    requires DistinctIds(copies) && forall i :: 0 <= i < |copies| ==> copies[i].id != c.id
    ensures DistinctIds(copies + [c])
  {}

  lemma DistinctRest(copies: seq<Copy>, slabs: seq<Slab>, i: nat)
    ensures i < |copies| && DistinctIds(copies) ==> DistinctIds(Without(copies, i))
    ensures i < |slabs| && DistinctKeys(slabs) ==>
              DistinctKeys(Without(slabs, i)) && forall q :: 0 <= q < |slabs| - 1 ==>
                Without(slabs, i)[q].key != slabs[i].key
  {}

  lemma WithoutAt<T>(s: seq<T>, i: nat, q: nat)
    requires i < |s| && q < |s| && q != i
    ensures |Without(s, i)| == |s| - 1 && Without(s, i)[if q < i then q else q - 1] == s[q]
  {}

  lemma WithoutFrom<T>(s: seq<T>, i: nat)
    requires i < |s|
    ensures |Without(s, i)| == |s| - 1 && forall q :: 0 <= q < |s| - 1 ==>
              Without(s, i)[q] == s[if q < i then q else q + 1]
  {}

  /** The table of held slabs is what the copies in flight use, and each of its slabs is listed once. */
  ghost predicate Table(held: map<nat, Hold>, copies: seq<Copy>, slabs: seq<Slab>) {
    && DistinctKeys(slabs)
    && (forall i :: 0 <= i < |slabs| ==> slabs[i].key in held && held[slabs[i].key].bytes == slabs[i].bytes)
    && (forall k :: k in held ==> held[k].copies == Uses(copies, k) > 0 && Listed(slabs, k))
    && (forall k: nat :: Uses(copies, k) > 0 ==> k in held)
  }

  ghost predicate Listed(slabs: seq<Slab>, k: nat) { exists i :: 0 <= i < |slabs| && slabs[i].key == k }

  lemma JoinTable(held: map<nat, Hold>, copies: seq<Copy>, slabs: seq<Slab>, c: Copy)
    requires Table(held, copies, slabs) && c.key.Some? && c.key.value in held
    ensures Table(held[c.key.value := Hold(held[c.key.value].copies + 1, held[c.key.value].bytes)], copies + [c], slabs)
  {
    UsesAppend(copies, c);
    hide Uses;
  }

  lemma NewSlabTable(held: map<nat, Hold>, copies: seq<Copy>, slabs: seq<Slab>, c: Copy, size: nat)
    requires Table(held, copies, slabs) && c.key.Some? && c.key.value !in held
    ensures Table(held[c.key.value := Hold(1, size)], copies + [c], slabs + [Slab(c.key.value, size)])
  {
    hide Uses, Loose;
    UsesAppend(copies, c);
    var grown := slabs + [Slab(c.key.value, size)];
    assert grown[|slabs|].key == c.key.value;
    forall k | k in held ensures Listed(grown, k) {
      var i :| 0 <= i < |slabs| && slabs[i].key == k;
      assert grown[i].key == k;
    }
  }

  lemma LooseTable(held: map<nat, Hold>, copies: seq<Copy>, slabs: seq<Slab>, c: Copy)
    requires Table(held, copies, slabs) && c.key.None?
    ensures Table(held, copies + [c], slabs)
  {
    UsesAppend(copies, c);
    hide Uses;
  }

  lemma LooseReleased(held: map<nat, Hold>, copies: seq<Copy>, slabs: seq<Slab>, i: nat)
    requires Table(held, copies, slabs) && i < |copies| && copies[i].key.None?
    ensures Table(held, Without(copies, i), slabs)
  {
    LooseWithout(copies, i);
    hide Uses, Without;
  }

  lemma SharedReleased(held: map<nat, Hold>, copies: seq<Copy>, slabs: seq<Slab>, i: nat)
    requires Table(held, copies, slabs) && i < |copies| && copies[i].key.Some?
    ensures copies[i].key.value in held
    ensures held[copies[i].key.value].copies > 1 ==>
              Table(held[copies[i].key.value := Hold(held[copies[i].key.value].copies - 1,
                                                     held[copies[i].key.value].bytes)],
                    Without(copies, i), slabs)
  {
    LooseWithout(copies, i);
    UsesPositive(copies, copies[i].key.value);
    hide Uses, Without;
  }

  /** The last copy of a slab takes the slab with it. */
  lemma LastReleased(held: map<nat, Hold>, copies: seq<Copy>, slabs: seq<Slab>, i: nat) returns (j: nat)
    requires Table(held, copies, slabs) && i < |copies| && copies[i].key.Some?
    requires copies[i].key.value in held && held[copies[i].key.value].copies == 1
    ensures j < |slabs| && slabs[j].bytes == held[copies[i].key.value].bytes
    ensures SlabBytes(slabs) == SlabBytes(Without(slabs, j)) + slabs[j].bytes
    ensures Table(held - {copies[i].key.value}, Without(copies, i), Without(slabs, j))
  {
    var key := copies[i].key.value;
    assert Listed(slabs, key);
    j :| 0 <= j < |slabs| && slabs[j].key == key;
    LooseWithout(copies, i);
    SlabsWithout(slabs, j);
    DistinctRest(copies, slabs, j);
    WithoutFrom(slabs, j);
    RestListed(held, copies, slabs, j, key);
    hide Uses, SlabBytes, Without, DistinctKeys, Listed;
  }

  /** Every other slab is still listed. */
  lemma RestListed(held: map<nat, Hold>, copies: seq<Copy>, slabs: seq<Slab>, j: nat, key: nat)
    requires Table(held, copies, slabs) && j < |slabs| && slabs[j].key == key
    ensures forall k :: k in held - {key} ==> Listed(Without(slabs, j), k)
  {
    hide Uses, Without;
    forall k | k in held - {key} ensures Listed(Without(slabs, j), k) {
      var q :| 0 <= q < |slabs| && slabs[q].key == k;
      WithoutAt(slabs, j, q);
    }
  }

  /** The monitor's numbers against what is in flight. */
  ghost predicate Books(inflight: int, held: map<nat, Hold>, copies: seq<Copy>, slabs: seq<Slab>, budget: nat,
                        largest: nat) {
    && inflight == SlabBytes(slabs) + Loose(copies) && DistinctIds(copies) && Table(held, copies, slabs)
    && inflight <= if budget >= largest then budget else largest
  }

  predicate Fresh(copies: seq<Copy>, id: nat) { forall i :: 0 <= i < |copies| ==> copies[i].id != id }

  lemma BooksJoin(inflight: int, held: map<nat, Hold>, copies: seq<Copy>, slabs: seq<Slab>, budget: nat, largest: nat,
                  c: Copy)
    requires Books(inflight, held, copies, slabs, budget, largest) && Fresh(copies, c.id)
    requires c.key.Some? && c.key.value in held
    ensures Books(inflight, held[c.key.value := Hold(held[c.key.value].copies + 1, held[c.key.value].bytes)],
                  copies + [c], slabs, budget, largest)
  {
    UsesAppend(copies, c);
    DistinctAppend(copies, c);
    JoinTable(held, copies, slabs, c);
    hide Table, Loose, SlabBytes, Uses, DistinctIds;
  }

  lemma BooksCharge(inflight: int, held: map<nat, Hold>, copies: seq<Copy>, slabs: seq<Slab>, budget: nat,
                    largest: nat, c: Copy)
    requires Books(inflight, held, copies, slabs, budget, largest) && Fresh(copies, c.id)
    requires inflight <= 0 || inflight + c.size <= budget
    ensures c.key.Some? && c.key.value !in held ==>
              Books(inflight + c.size, held[c.key.value := Hold(1, c.size)], copies + [c],
                    slabs + [Slab(c.key.value, c.size)],
                    budget, if largest >= c.size then largest else c.size)
    ensures c.key.None? ==>
              Books(inflight + c.size, held, copies + [c], slabs, budget, if largest >= c.size then largest else c.size)
  {
    if c.key.Some? && c.key.value !in held { BooksNewSlab(inflight, held, copies, slabs, budget, largest, c); }
    if c.key.None? { BooksLoose(inflight, held, copies, slabs, budget, largest, c); }
    hide Books;
  }

  lemma BooksNewSlab(inflight: int, held: map<nat, Hold>, copies: seq<Copy>, slabs: seq<Slab>, budget: nat,
                     largest: nat, c: Copy)
    requires Books(inflight, held, copies, slabs, budget, largest) && Fresh(copies, c.id)
    requires inflight <= 0 || inflight + c.size <= budget
    requires c.key.Some? && c.key.value !in held
    ensures Books(inflight + c.size, held[c.key.value := Hold(1, c.size)], copies + [c],
                  slabs + [Slab(c.key.value, c.size)],
                  budget, if largest >= c.size then largest else c.size)
  {
    UsesAppend(copies, c);
    DistinctAppend(copies, c);
    NewSlabTable(held, copies, slabs, c, c.size);
    SlabsAppend(slabs, Slab(c.key.value, c.size));
    hide Table, Loose, SlabBytes, Uses, DistinctIds;
  }

  lemma BooksLoose(inflight: int, held: map<nat, Hold>, copies: seq<Copy>, slabs: seq<Slab>, budget: nat,
                   largest: nat, c: Copy)
    requires Books(inflight, held, copies, slabs, budget, largest) && Fresh(copies, c.id)
    requires inflight <= 0 || inflight + c.size <= budget
    requires c.key.None?
    ensures Books(inflight + c.size, held, copies + [c], slabs, budget, if largest >= c.size then largest else c.size)
  {
    UsesAppend(copies, c);
    DistinctAppend(copies, c);
    LooseTable(held, copies, slabs, c);
    hide Table, Loose, SlabBytes, Uses, DistinctIds;
  }

  lemma BooksRelease(inflight: int, held: map<nat, Hold>, copies: seq<Copy>, slabs: seq<Slab>, budget: nat,
                     largest: nat, i: nat)
    requires Books(inflight, held, copies, slabs, budget, largest) && i < |copies| && copies[i].key.None?
    ensures Books(inflight - copies[i].size, held, Without(copies, i), slabs, budget, largest)
  {
    LooseWithout(copies, i);
    LooseReleased(held, copies, slabs, i);
    DistinctRest(copies, [], i);
    hide Table, Loose, SlabBytes, Uses, DistinctIds, Without;
  }

  lemma BooksShare(inflight: int, held: map<nat, Hold>, copies: seq<Copy>, slabs: seq<Slab>, budget: nat,
                   largest: nat, i: nat)
    requires Books(inflight, held, copies, slabs, budget, largest) && i < |copies| && copies[i].key.Some?
    ensures copies[i].key.value in held && held[copies[i].key.value].copies > 0
    ensures held[copies[i].key.value].copies > 1 ==>
              Books(inflight, held[copies[i].key.value := Hold(held[copies[i].key.value].copies - 1,
                                                               held[copies[i].key.value].bytes)],
                    Without(copies, i), slabs, budget, largest)
  {
    LooseWithout(copies, i);
    SharedReleased(held, copies, slabs, i);
    TableCounts(held, copies, slabs, copies[i].key.value);
    DistinctRest(copies, [], i);
    hide Table, Loose, SlabBytes, Uses, DistinctIds, Without;
  }

  lemma BooksLast(inflight: int, held: map<nat, Hold>, copies: seq<Copy>, slabs: seq<Slab>, budget: nat, largest: nat,
                  i: nat)
    returns (j: nat)
    requires Books(inflight, held, copies, slabs, budget, largest) && i < |copies| && copies[i].key.Some?
    requires copies[i].key.value in held && held[copies[i].key.value].copies == 1
    ensures j < |slabs|
    ensures Books(inflight - held[copies[i].key.value].bytes, held - {copies[i].key.value}, Without(copies, i),
                  Without(slabs, j),
                  budget, largest)
  {
    LooseWithout(copies, i);
    j := LastReleased(held, copies, slabs, i);
    DistinctRest(copies, [], i);
    hide Table, Loose, SlabBytes, Uses, DistinctIds, Without;
  }

  lemma TableCounts(held: map<nat, Hold>, copies: seq<Copy>, slabs: seq<Slab>, key: nat)
    requires Table(held, copies, slabs) && key in held
    ensures held[key].copies > 0
  {}

  ghost predicate SomeCopy(copies: seq<Copy>, key: nat) { exists k :: 0 <= k < |copies| && copies[k].key == Some(key) }

  lemma SlabHasCopy(held: map<nat, Hold>, copies: seq<Copy>, slabs: seq<Slab>, i: nat)
    requires Table(held, copies, slabs) && i < |slabs|
    ensures SomeCopy(copies, slabs[i].key)
  {
    UsesPositive(copies, slabs[i].key);
  }

  /** How one submission ends: the copy is on its way, or the submit raised, or it ran without a future. */
  datatype Outcome = Pending | Raised | NoFuture

  /**
   * The pacing monitor. `copies` and `slabs` are what is really in flight: every copy whose charge has not
   * been released, and each slab some such copy keeps alive, once.
   */
  class Pacer {
    const budget: nat
    var inflight: int
    var held: map<nat, Hold>
    ghost var copies: seq<Copy>
    ghost var slabs: seq<Slab>
    ghost var largest: nat

    ghost predicate Valid()
      reads this
    {
      Books(inflight, held, copies, slabs, budget, largest)
    }

    constructor (limit: nat)
      ensures Valid() && inflight == 0 && copies == [] && budget == limit
    {
      budget, inflight, held := limit, 0, map[];
      copies, slabs, largest := [], [], 0;
    }

    /** The wait condition of a submission. */
    predicate Admits(key: Option<nat>, size: nat)
      reads this
    {
      (key.Some? && key.value in held) || inflight <= 0 || inflight + size <= budget
    }

    /**
     * One pass of the wait loop under the lock. A copy of a slab already in flight joins it; any other copy
     * is charged, and only if that fits the budget or nothing is in flight.
     */
    method TryCharge(id: nat, key: Option<nat>, bytes: nat) returns (charged: bool)
      requires Valid() && Fresh(copies, id)
      modifies this
      ensures Valid() && charged == old(Admits(key, if bytes < 1 then 1 else bytes))
      ensures charged <==>
                || (key.Some? && key.value in old(held)) || old(inflight) <= 0
                || old(inflight) + (if bytes < 1 then 1 else bytes) <= budget
      ensures charged && key.Some? && key.value in old(held) ==> inflight == old(inflight)
      ensures charged && !(key.Some? && key.value in old(held)) ==>
                inflight == old(inflight) + if bytes < 1 then 1 else bytes
      ensures copies == if charged then old(copies) + [Copy(id, key, if bytes < 1 then 1 else bytes)] else old(copies)
      ensures !charged ==> inflight == old(inflight) && held == old(held)
    {
      hide Books;
      var size := if bytes < 1 then 1 else bytes;
      if !(key.Some? && key.value in held) && inflight > 0 && inflight + size > budget { return false; }
      ghost var c := Copy(id, key, size);
      if key.Some? && key.value in held {
        BooksJoin(inflight, held, copies, slabs, budget, largest, c);
        held := held[key.value := Hold(held[key.value].copies + 1, held[key.value].bytes)];
      } else {
        BooksCharge(inflight, held, copies, slabs, budget, largest, c);
        inflight := inflight + size;
        largest := if largest >= size then largest else size;
        if key.Some? {
          held := held[key.value := Hold(1, size)];
          slabs := slabs + [Slab(key.value, size)];
        }
      }
      copies := copies + [c];
      charged := true;
    }

    /** release: what a done callback, an exception or a missing future runs, once per charge. */
    method Release(ghost i: nat, id: nat, key: Option<nat>, size: nat)
      requires Valid() && i < |copies| && copies[i] == Copy(id, key, size)
      modifies this
      ensures Valid() && copies == Without(old(copies), i)
    {
      hide Books, Without;
      if key.None? {
        BooksRelease(inflight, held, copies, slabs, budget, largest, i);
        inflight := inflight - size;
      } else {
        BooksShare(inflight, held, copies, slabs, budget, largest, i);
        var h := held[key.value];
        if h.copies - 1 == 0 {
          ghost var j := BooksLast(inflight, held, copies, slabs, budget, largest, i);
          inflight := inflight - h.bytes;
          held := held - {key.value};
          slabs := Without(slabs, j);
        } else {
          held := held[key.value := Hold(h.copies - 1, h.bytes)];
        }
      }
      copies := Without(copies, i);
    }

    /** The rest of a submission once charged: the charge stays with a pending copy, and ends with anything else. */
    method Submit(ghost i: nat, id: nat, key: Option<nat>, size: nat, outcome: Outcome)
      requires Valid() && i < |copies| && copies[i] == Copy(id, key, size)
      modifies this
      ensures Valid() && copies == if outcome.Pending? then old(copies) else Without(old(copies), i)
    {
      if !outcome.Pending? { Release(i, id, key, size); }
    }

    /** Once every charge is released nothing is in flight, and whoever waits is let in. */
    lemma Drained(key: Option<nat>, size: nat)
      requires Valid() && copies == []
      ensures inflight == 0 && Admits(key, size)
    {
      if slabs != [] { SlabHasCopy(held, copies, slabs, 0); }
    }

    /** What is charged: each slab some unreleased copy is in, once, and each other unreleased copy. */
    lemma ChargedOnce()
      requires Valid()
      ensures inflight == SlabBytes(slabs) + Loose(copies)
      ensures forall i :: 0 <= i < |slabs| ==> SomeCopy(copies, slabs[i].key)
      ensures forall k :: 0 <= k < |copies| && copies[k].key.Some? ==> Listed(slabs, copies[k].key.value)
      ensures forall i, j :: 0 <= i < j < |slabs| ==> slabs[i].key != slabs[j].key
      ensures inflight <= if budget >= largest then budget else largest
    {
      forall i | 0 <= i < |slabs| ensures SomeCopy(copies, slabs[i].key) { SlabHasCopy(held, copies, slabs, i); }
      forall k | 0 <= k < |copies| && copies[k].key.Some? ensures Listed(slabs, copies[k].key.value) {
        UsesPositive(copies, copies[k].key.value);
      }
    }
  }
}

/** Packing a shard's tensors into slabs. */
module LoadSlabs {

  const SLAB_ALIGN: nat := 4096

  function Align(n: nat): (r: nat)
    ensures r % SLAB_ALIGN == 0 && n <= r < n + SLAB_ALIGN
  {
    (n + SLAB_ALIGN - 1) / SLAB_ALIGN * SLAB_ALIGN
  }

  /** A tensor's place in its slab; `name` is its index in sorted order. */
  datatype Member = Member(name: nat, offset: nat, kept: nat)

  datatype Slab = Slab(nbytes: nat, members: seq<Member>)

  /** The tensors with bytes to keep, in order. */
  function NonEmpty(kept: seq<int>, n: nat): seq<nat>
    requires n <= |kept|
  {
    if n == 0 then [] else if kept[n - 1] > 0 then NonEmpty(kept, n - 1) + [n - 1] else NonEmpty(kept, n - 1)
  }

  function NamesOf(members: seq<Member>): (names: seq<nat>)
    ensures |names| == |members|
  {
    seq(|members|, k requires 0 <= k < |members| => members[k].name)
  }

  function Names(slabs: seq<Slab>): seq<nat> {
    if slabs == [] then [] else Names(slabs[..|slabs| - 1]) + NamesOf(slabs[|slabs| - 1].members)
  }

  /** Aligned, inside the first `used` bytes, in order and apart, with the sizes asked for. */
  ghost predicate Laid(kept: seq<int>, members: seq<Member>, used: nat) {
    && (forall k :: 0 <= k < |members| ==> members[k].name < |kept| && kept[members[k].name] == members[k].kept
                                           && members[k].kept > 0 && members[k].offset % 4096 == 0
                                           && members[k].offset + members[k].kept <= used)
    && (forall j, k :: 0 <= j < k < |members| ==> members[j].offset + members[j].kept <= members[k].offset)
  }

  /** A slab holds its members, and more than the slab size only for a single larger tensor. */
  ghost predicate SlabRight(kept: seq<int>, slab: nat, s: Slab) {
    && Laid(kept, s.members, s.nbytes) && s.members != []
    && (s.nbytes <= slab || (|s.members| == 1 && s.members[0].kept == s.nbytes))
  }

  lemma NamesAppend(slabs: seq<Slab>, s: Slab)
    ensures Names(slabs + [s]) == Names(slabs) + NamesOf(s.members)
  {
    assert (slabs + [s])[..|slabs|] == slabs;
  }

  /** Every tensor with bytes to keep, up to n, placed once: in a finished slab or in the current one. */
  ghost predicate Placed(out: seq<Slab>, cur: seq<Member>, kept: seq<int>, n: nat)
    requires n <= |kept|
  {
    multiset(Names(out)) + multiset(NamesOf(cur)) == multiset(NonEmpty(kept, n))
  }

  lemma SkipPlaced(out: seq<Slab>, cur: seq<Member>, kept: seq<int>, n: nat)
    requires n < |kept| && Placed(out, cur, kept, n) && kept[n] <= 0
    ensures Placed(out, cur, kept, n + 1)
  {}

  lemma BigPlaced(out: seq<Slab>, cur: seq<Member>, kept: seq<int>, n: nat)
    requires n < |kept| && Placed(out, cur, kept, n) && kept[n] > 0
    ensures Placed(out + [Slab(kept[n], [Member(n, 0, kept[n])])], cur, kept, n + 1)
  {
    var s := Slab(kept[n], [Member(n, 0, kept[n])]);
    NamesAppend(out, s);
    assert NamesOf(s.members) == [n];
  }

  lemma MemberPlaced(out: seq<Slab>, cur: seq<Member>, kept: seq<int>, n: nat, m: Member)
    requires n < |kept| && Placed(out, cur, kept, n) && kept[n] > 0 && m.name == n
    ensures Placed(out, cur + [m], kept, n + 1)
  {
    assert NamesOf(cur + [m]) == NamesOf(cur) + [n];
  }

  lemma FlushPlaced(out: seq<Slab>, cur: seq<Member>, kept: seq<int>, n: nat, s: Slab)
    requires n <= |kept| && Placed(out, cur, kept, n) && s.members == cur
    ensures Placed(out + [s], [], kept, n)
  {
    NamesAppend(out, s);
    assert NamesOf([]) == [];
  }

  lemma AddLaid(kept: seq<int>, cur: seq<Member>, used: nat, n: nat, used': nat)
    requires Laid(kept, cur, used) && n < |kept| && kept[n] > 0 && used % SLAB_ALIGN == 0 && used + kept[n] <= used'
    ensures Laid(kept, cur + [Member(n, used, kept[n])], used')
  {}

  ghost predicate AllRight(kept: seq<int>, slab: nat, out: seq<Slab>) {
    forall i :: 0 <= i < |out| ==> SlabRight(kept, slab, out[i])
  }

  lemma BigRight(kept: seq<int>, slab: nat, out: seq<Slab>, n: nat)
    requires n < |kept| && kept[n] > 0 && AllRight(kept, slab, out)
    ensures AllRight(kept, slab, out + [Slab(kept[n], [Member(n, 0, kept[n])])])
  {
    assert SlabRight(kept, slab, Slab(kept[n], [Member(n, 0, kept[n])]));
    hide SlabRight;
  }

  lemma FlushRight(kept: seq<int>, slab: nat, out: seq<Slab>, cur: seq<Member>, used: nat)
    requires AllRight(kept, slab, out) && cur != [] && Laid(kept, cur, used) && used <= slab
    ensures AllRight(kept, slab, out + [Slab(used, cur)])
  {
    assert SlabRight(kept, slab, Slab(used, cur));
    hide SlabRight;
  }

  predicate Aligned(n: nat) { n % SLAB_ALIGN == 0 }

  lemma NothingLaid(kept: seq<int>)
    ensures Laid(kept, [], 0) && Aligned(0)
  {}

  lemma NothingPlaced(kept: seq<int>, slab: nat)
    ensures Placed([], [], kept, 0) && AllRight(kept, slab, [])
  {
    assert NamesOf([]) == [];
  }

  lemma AllPlaced(out: seq<Slab>, kept: seq<int>)
    requires Placed(out, [], kept, |kept|)
    ensures multiset(Names(out)) == multiset(NonEmpty(kept, |kept|))
  {
    assert NamesOf([]) == [];
  }

  /** The next tensor after `used` bytes, and where the one after it starts. */
  lemma NextOffset(kept: seq<int>, cur: seq<Member>, used: nat, n: nat, slab: nat)
    requires Laid(kept, cur, used) && n < |kept| && kept[n] > 0 && Aligned(used) && used + kept[n] <= slab
    requires slab % SLAB_ALIGN == 0
    ensures Align(used + kept[n]) <= slab && Aligned(Align(used + kept[n]))
    ensures Laid(kept, cur + [Member(n, used, kept[n])], Align(used + kept[n]))
  {
    AlignFits(used + kept[n], slab);
    AddLaid(kept, cur, used, n, Align(used + kept[n]));
  }

  /** The loop invariant of the packing. */
  ghost predicate Packing(kept: seq<int>, slab: nat, out: seq<Slab>, cur: seq<Member>, used: nat, n: nat) {
    && n <= |kept| && AllRight(kept, slab, out) && Placed(out, cur, kept, n)
    && Laid(kept, cur, used) && Aligned(used) && used <= slab && (cur == [] ==> used == 0)
  }

  lemma Skip(kept: seq<int>, slab: nat, out: seq<Slab>, cur: seq<Member>, used: nat, n: nat)
    requires Packing(kept, slab, out, cur, used, n) && n < |kept| && kept[n] <= 0
    ensures Packing(kept, slab, out, cur, used, n + 1)
  {
    SkipPlaced(out, cur, kept, n);
    hide Placed, AllRight, Laid;
  }

  /** A tensor larger than a slab is a slab of its own. */
  method Oversized(kept: seq<int>, slab: nat, out: seq<Slab>, ghost cur: seq<Member>, ghost used: nat, n: nat)
    returns (out': seq<Slab>)
    requires Packing(kept, slab, out, cur, used, n) && n < |kept| && kept[n] > slab
    ensures Packing(kept, slab, out', cur, used, n + 1)
  {
    hide Placed, AllRight, Laid;
    BigPlaced(out, cur, kept, n);
    BigRight(kept, slab, out, n);
    out' := out + [Slab(kept[n], [Member(n, 0, kept[n])])];
  }

  /** Any other tensor goes at the end of the current slab, or starts a new one. */
  method Append(kept: seq<int>, slab: nat, out: seq<Slab>, cur: seq<Member>, used: nat, n: nat)
    returns (out': seq<Slab>, cur': seq<Member>, used': nat)
    requires Packing(kept, slab, out, cur, used, n) && n < |kept| && 0 < kept[n] <= slab && slab % SLAB_ALIGN == 0
    ensures Packing(kept, slab, out', cur', used', n + 1)
  {
    hide Placed, AllRight, Laid, Align, Aligned;
    out', cur', used' := out, cur, used;
    if cur != [] && used + kept[n] > slab {
      FlushPlaced(out, cur, kept, n, Slab(used, cur));
      FlushRight(kept, slab, out, cur, used);
      NothingLaid(kept);
      out', cur', used' := out + [Slab(used, cur)], [], 0;
    }
    NextOffset(kept, cur', used', n, slab);
    MemberPlaced(out', cur', kept, n, Member(n, used', kept[n]));
    cur' := cur' + [Member(n, used', kept[n])];
    used' := Align(used' + kept[n]);
  }

  /**
   * slab_layout: with a slab size that is a multiple of the alignment, every tensor that keeps bytes gets
   * exactly one region, aligned, inside its slab and apart from every other, and no slab is larger than
   * the size asked for unless a single tensor is.
   */
  method SlabLayout(kept: seq<int>, slab: nat) returns (out: seq<Slab>)
    requires slab % SLAB_ALIGN == 0
    ensures multiset(Names(out)) == multiset(NonEmpty(kept, |kept|)) && AllRight(kept, slab, out)
    ensures forall n :: 0 <= n < |kept| && kept[n] > 0 ==> Somewhere(out, n)
    ensures forall i, k :: 0 <= i < |out| && 0 <= k < |out[i].members| ==>
              && 0 <= out[i].members[k].name < |kept| && kept[out[i].members[k].name] > 0
              && OnlyThere(out, i, k)
  {
    out := [];
    var cur: seq<Member>, used: nat := [], 0;
    NothingPlaced(kept, slab);
    NothingLaid(kept);
    hide Placed, Align, Aligned, Names, NamesOf, NonEmpty, AllRight, Laid;
    for n := 0 to |kept|
      invariant Packing(kept, slab, out, cur, used, n)
    {
      if kept[n] > slab {
        out := Oversized(kept, slab, out, cur, used, n);
      } else if kept[n] > 0 {
        out, cur, used := Append(kept, slab, out, cur, used, n);
      } else {
        Skip(kept, slab, out, cur, used, n);
      }
    }
    if cur != [] {
      FlushPlaced(out, cur, kept, |kept|, Slab(used, cur));
      FlushRight(kept, slab, out, cur, used);
      out := out + [Slab(if used <= slab then used else slab, cur)];
    }
    AllPlaced(out, kept);
    EachOnce(out, kept, slab);
  }

  /** Some member of some slab is tensor n. */
  ghost predicate Somewhere(out: seq<Slab>, n: nat) {
    exists i, k :: 0 <= i < |out| && 0 <= k < |out[i].members| && out[i].members[k].name == n
  }

  /** No other member is the tensor that member k of slab i is. */
  ghost predicate OnlyThere(out: seq<Slab>, i: nat, k: nat)
    requires i < |out| && k < |out[i].members|
  {
    forall j, l :: 0 <= j < |out| && 0 <= l < |out[j].members| && out[j].members[l].name == out[i].members[k].name ==>
      j == i && l == k
  }

  /** Member k of slab i stands after the names of the slabs before it. */
  lemma {:induction false} NameAt(out: seq<Slab>, i: nat, k: nat)
    requires i < |out| && k < |out[i].members|
    ensures |Names(out[..i])| + k < |Names(out[..i + 1])| <= |Names(out)|
    ensures Names(out)[|Names(out[..i])| + k] == out[i].members[k].name
  {
    var n := |out| - 1;
    if i == n {
      assert out[..i + 1] == out;
    } else {
      NameAt(out[..n], i, k);
      assert out[..n][..i] == out[..i] && out[..n][..i + 1] == out[..i + 1];
    }
  }

  lemma {:induction false} NamesMono(out: seq<Slab>, i: nat, j: nat)
    requires i <= j <= |out|
    ensures |Names(out[..i])| <= |Names(out[..j])|
  {
    if i < j {
      NamesMono(out, i, j - 1);
      assert out[..j][..j - 1] == out[..j - 1];
    }
  }

  /** Every name in the list is some member's. */
  lemma {:induction false} NamePlace(out: seq<Slab>, n: nat)
    requires n in Names(out)
    ensures Somewhere(out, n)
  {
    var m := |out| - 1;
    if n in Names(out[..m]) {
      NamePlace(out[..m], n);
      var i, k :| 0 <= i < m && 0 <= k < |out[..m][i].members| && out[..m][i].members[k].name == n;
      assert out[i].members[k].name == n;
    } else {
      var k :| 0 <= k < |out[m].members| && NamesOf(out[m].members)[k] == n;
      assert out[m].members[k].name == n;
    }
  }

  lemma Twice(s: seq<nat>, a: nat, b: nat)
    requires a < b < |s| && s[a] == s[b]
    ensures multiset(s)[s[a]] >= 2
  {
    assert s == s[..b] + s[b..] && s[..b][a] == s[a] && s[b..][0] == s[b];
  }

  lemma {:induction false} NonEmptyOnce(kept: seq<int>, n: nat)
    requires n <= |kept|
    ensures forall x :: x in NonEmpty(kept, n) <==> 0 <= x < n && kept[x] > 0
    ensures forall x :: multiset(NonEmpty(kept, n))[x] <= 1
  {
    if n > 0 { NonEmptyOnce(kept, n - 1); }
  }

  lemma EachOnce(out: seq<Slab>, kept: seq<int>, slab: nat)
    requires multiset(Names(out)) == multiset(NonEmpty(kept, |kept|))
    ensures forall n :: 0 <= n < |kept| && kept[n] > 0 ==> Somewhere(out, n)
    ensures forall i, k :: 0 <= i < |out| && 0 <= k < |out[i].members| ==>
              && 0 <= out[i].members[k].name < |kept| && kept[out[i].members[k].name] > 0
              && OnlyThere(out, i, k)
  {
    NonEmptyOnce(kept, |kept|);
    var names, want := Names(out), NonEmpty(kept, |kept|);
    assert forall x :: x in names <==> x in multiset(names);
    assert forall x :: x in want <==> x in multiset(want);
    hide Names, NonEmpty, Somewhere, OnlyThere;
    forall n | 0 <= n < |kept| && kept[n] > 0 ensures Somewhere(out, n) { NamePlace(out, n); }
    forall i, k | 0 <= i < |out| && 0 <= k < |out[i].members|
      ensures 0 <= out[i].members[k].name < |kept| && kept[out[i].members[k].name] > 0 && OnlyThere(out, i, k)
    {
      NameAt(out, i, k);
      assert out[i].members[k].name in names;
      OneName(out, i, k);
    }
  }

  lemma OneName(out: seq<Slab>, i: nat, k: nat)
    requires i < |out| && k < |out[i].members| && forall x :: multiset(Names(out))[x] <= 1
    ensures OnlyThere(out, i, k)
  {
    hide Names;
    forall j, l | 0 <= j < |out| && 0 <= l < |out[j].members| && out[j].members[l].name == out[i].members[k].name
      ensures j == i && l == k
    {
      NameAt(out, i, k);
      NameAt(out, j, l);
      var a, b := |Names(out[..i])| + k, |Names(out[..j])| + l;
      if a < b { Twice(Names(out), a, b); }
      if b < a { Twice(Names(out), b, a); }
      if i < j { NamesMono(out, i + 1, j); }
      if j < i { NamesMono(out, j + 1, i); }
    }
  }

  lemma AlignFits(n: nat, slab: nat)
    requires n <= slab && slab % SLAB_ALIGN == 0
    ensures Align(n) <= slab
  {
    var q := slab / SLAB_ALIGN;
    assert slab == q * SLAB_ALIGN;
  }

  // ------------------------------------------------------------------------------------------
  // merging byte ranges
  // ------------------------------------------------------------------------------------------

  datatype Range = Range(a: nat, b: nat)

  predicate InRange(r: Range, x: nat) { r.a <= x < r.b }

  predicate Covers(rs: seq<Range>, x: nat) { exists i :: 0 <= i < |rs| && InRange(rs[i], x) }

  lemma CoversAppend(rs: seq<Range>, r: Range, x: nat)
    ensures Covers(rs + [r], x) <==> Covers(rs, x) || InRange(r, x)
  {
    var all := rs + [r];
    if Covers(rs, x) { var i :| 0 <= i < |rs| && InRange(rs[i], x); assert InRange(all[i], x); }
    if InRange(r, x) { assert InRange(all[|rs|], x); }
  }

  /**
   * needed_ranges and plan_ranges: merging ranges sorted by start covers the same bytes with ranges that
   * neither overlap nor touch, so no byte is read twice and adjacent reads are one.
   */
  method Merge(ranges: seq<Range>) returns (merged: seq<Range>)
    requires forall i :: 0 <= i < |ranges| ==> ranges[i].a < ranges[i].b
    requires forall i, j :: 0 <= i < j < |ranges| ==> ranges[i].a <= ranges[j].a
    ensures forall x :: Covers(merged, x) <==> Covers(ranges, x)
    ensures forall i, j :: 0 <= i < j < |merged| ==> merged[i].b < merged[j].a
    ensures forall i :: 0 <= i < |merged| ==> merged[i].a < merged[i].b
  {
    merged := [];
    for n := 0 to |ranges|
      invariant forall x :: Covers(merged, x) <==> Covers(ranges[..n], x)
      invariant forall i, j :: 0 <= i < j < |merged| ==> merged[i].b < merged[j].a
      invariant forall i :: 0 <= i < |merged| ==> merged[i].a < merged[i].b
      invariant forall i, j :: 0 <= i < |merged| && n <= j < |ranges| ==> merged[i].a <= ranges[j].a
    {
      var r := ranges[n];
      ghost var before := merged;
      assert ranges[..n + 1] == ranges[..n] + [r];
      if merged != [] && r.a <= merged[|merged| - 1].b {
        var last := merged[|merged| - 1];
        merged := merged[|merged| - 1 := Range(last.a, if last.b >= r.b then last.b else r.b)];
        forall x ensures Covers(merged, x) <==> Covers(ranges[..n + 1], x) {
          assert before == before[..|before| - 1] + [last];
          assert merged == before[..|before| - 1] + [merged[|merged| - 1]];
          CoversAppend(before[..|before| - 1], last, x);
          CoversAppend(before[..|before| - 1], merged[|merged| - 1], x);
          CoversAppend(ranges[..n], r, x);
        }
      } else {
        merged := merged + [r];
        forall x ensures Covers(merged, x) <==> Covers(ranges[..n + 1], x) {
          CoversAppend(before, r, x);
          CoversAppend(ranges[..n], r, x);
        }
      }
    }
    assert ranges[..|ranges|] == ranges;
  }
}

/** Reading one rank's slice of a tensor. */
module LoadSlices {
  import opened Wrappers

  /** A tensor as [outer, rows, inner] bytes along the sliced dimension. */
  datatype Geometry = Geometry(outer: nat, rows: nat, inner: nat)

  /** Where byte (o, d, i) of the tensor is, from the tensor's first byte. */
  function At(g: Geometry, o: nat, d: nat, i: nat): nat { (o * g.rows + d) * g.inner + i }

  /** The byte at an offset from the tensor's start. */
  type File = nat -> int

  const CHUNK: nat := 8388608

  /** The narrow of the full tensor: byte (o, r, i) is byte (o, start + r, i) of the file. */
  ghost predicate IsNarrow(file: File, g: Geometry, start: nat, length: nat, out: array3<int>)
    reads out
  {
    && out.Length0 == g.outer && out.Length1 == length && out.Length2 == g.inner
    && forall o, r, i :: 0 <= o < g.outer && 0 <= r < length && 0 <= i < g.inner ==>
         out[o, r, i] == file(At(g, o, start + r, i))
  }

  /** Row r0 + j of a block read from row r0. */
  lemma BlockOffset(g: Geometry, r0: nat, j: nat, d: nat, i: nat)
    ensures At(g, r0 + j, d, i) == r0 * (g.rows * g.inner) + (j * (g.rows * g.inner) + d * g.inner + i)
  {
    var row := g.rows * g.inner;
    assert (r0 + j) * g.rows * g.inner == (r0 + j) * row;
    assert ((r0 + j) * g.rows + d) * g.inner == (r0 + j) * g.rows * g.inner + d * g.inner;
    assert (r0 + j) * row == r0 * row + j * row;
  }

  /** A leading-dimension slice is one contiguous block. */
  lemma LeadingOffset(g: Geometry, start: nat, r: nat, i: nat)
    ensures At(g, 0, start + r, i) == start * g.inner + (r * g.inner + i)
  {
    assert (start + r) * g.inner == start * g.inner + r * g.inner;
  }

  /**
   * _read_slice: a leading-dimension slice straight from the file, any other through a bounce buffer of
   * whole rows, a block of rows at a time. Either way the result is the narrow of the full tensor.
   */
  method ReadSlice(file: File, g: Geometry, start: nat, length: nat) returns (out: array3<int>)
    requires start + length <= g.rows
    ensures IsNarrow(file, g, start, length, out)
  {
    out := new int[g.outer, length, g.inner]((_, _, _) => 0);
    if g.outer == 0 || length == 0 || g.inner == 0 { return; }
    if g.outer == 1 {
      forall r, i | 0 <= r < length && 0 <= i < g.inner {
        out[0, r, i] := file(start * g.inner + (r * g.inner + i));
      }
      forall r, i | 0 <= r < length && 0 <= i < g.inner ensures out[0, r, i] == file(At(g, 0, start + r, i)) {
        LeadingOffset(g, start, r, i);
      }
      return;
    }
    var row := g.rows * g.inner;
    var block := BlockRows(row);
    var r0 := 0;
    while r0 < g.outer
      invariant r0 <= g.outer
      invariant forall o, r, i :: 0 <= o < r0 && 0 <= r < length && 0 <= i < g.inner ==>
                  out[o, r, i] == file(At(g, o, start + r, i))
    {
      var k := if block <= g.outer - r0 then block else g.outer - r0;
      var buffer := ReadBlock(file, r0 * row, k * row);
      CopyBlock(file, g, start, length, r0, k, buffer, out);
      r0 := r0 + k;
    }
  }

  function BlockRows(row: nat): (n: nat)
    ensures n >= 1
  {
    if row == 0 || CHUNK / row < 1 then 1 else CHUNK / row
  }

  method ReadBlock(file: File, at: nat, n: nat) returns (buffer: seq<int>)
    ensures |buffer| == n && forall k :: 0 <= k < n ==> buffer[k] == file(at + k)
  {
    buffer := seq(n, k requires 0 <= k => file(at + k));
  }

  lemma InBlock(k: nat, g: Geometry, j: nat, d: nat, i: nat)
    requires j < k && d < g.rows && i < g.inner
    ensures j * (g.rows * g.inner) + d * g.inner + i < k * (g.rows * g.inner)
  {
    MulMono(d + 1, g.rows, g.inner);
    MulMono(j + 1, k, g.rows * g.inner);
  }

  /** The strided copy out of the bounce buffer. */
  method CopyBlock(file: File, g: Geometry, start: nat, length: nat, r0: nat, k: nat, buffer: seq<int>,
                   out: array3<int>)
    requires start + length <= g.rows && r0 + k <= g.outer
    requires out.Length0 == g.outer && out.Length1 == length && out.Length2 == g.inner
    requires |buffer| == k * (g.rows * g.inner)
    requires forall q :: 0 <= q < |buffer| ==> buffer[q] == file(r0 * (g.rows * g.inner) + q)
    modifies out
    ensures forall o, r, i :: 0 <= o < g.outer && 0 <= r < length && 0 <= i < g.inner ==>
              out[o, r, i] == if r0 <= o < r0 + k then file(At(g, o, start + r, i)) else old(out[o, r, i])
  {
    var row := g.rows * g.inner;
    for j := 0 to k
      invariant forall o, r, i :: 0 <= o < g.outer && 0 <= r < length && 0 <= i < g.inner ==>
                  out[o, r, i] == if r0 <= o < r0 + j then file(At(g, o, start + r, i)) else old(out[o, r, i])
    {
      var values := RowValues(file, g, start, length, r0, k, j, buffer);
      hide At;
      forall r, i | 0 <= r < length && 0 <= i < g.inner { out[r0 + j, r, i] := values[r][i]; }
    }
  }

  method RowValues(file: File, g: Geometry, start: nat, length: nat, r0: nat, k: nat, j: nat, buffer: seq<int>)
    returns (values: seq<seq<int>>)
    requires start + length <= g.rows && j < k && |buffer| == k * (g.rows * g.inner)
    requires forall q :: 0 <= q < |buffer| ==> buffer[q] == file(r0 * (g.rows * g.inner) + q)
    ensures |values| == length && forall r :: 0 <= r < length ==> |values[r]| == g.inner
    ensures forall r, i :: 0 <= r < length && 0 <= i < g.inner ==> values[r][i] == file(At(g, r0 + j, start + r, i))
  {
    var row := g.rows * g.inner;
    values := [];
    for r := 0 to length
      invariant |values| == r && forall q :: 0 <= q < r ==> |values[q]| == g.inner
      invariant forall q, i :: 0 <= q < r && 0 <= i < g.inner ==> values[q][i] == file(At(g, r0 + j, start + q, i))
    {
      hide At;
      var line := Line(file, g, r0, k, j, start + r, row, buffer);
      values := values + [line];
    }
  }

  method Line(file: File, g: Geometry, r0: nat, k: nat, j: nat, d: nat, row: nat, buffer: seq<int>)
    returns (line: seq<int>)
    requires d < g.rows && j < k && row == g.rows * g.inner && |buffer| == k * row
    requires forall q :: 0 <= q < |buffer| ==> buffer[q] == file(r0 * row + q)
    ensures |line| == g.inner && forall i :: 0 <= i < g.inner ==> line[i] == file(At(g, r0 + j, d, i))
  {
    hide At;
    line := [];
    for i := 0 to g.inner
      invariant |line| == i && forall q :: 0 <= q < i ==> line[q] == file(At(g, r0 + j, d, q))
    {
      InBlock(k, g, j, d, i);
      BlockOffset(g, r0, j, d, i);
      line := line + [buffer[j * row + d * g.inner + i]];
    }
  }

  /** The ranks' slices put together are the tensor: every row along the dimension is in exactly one of them. */
  lemma SlicesReassemble(rows: nat, world: nat, d: nat)
    requires world > 0 && rows % world == 0 && d < rows
    ensures var length := rows / world;
            && length > 0 && d / length < world && (d / length) * length + d % length == d && d % length < length
            && forall rank: nat :: rank * length <= d < rank * length + length ==> rank == d / length
  {
    var length := rows / world;
    assert rows == world * length + rows % world;
    assert world * 0 == 0;
    var q := d / length;
    assert d == q * length + d % length;
    MulMono(world, q, length);
    forall rank: nat | rank * length <= d < rank * length + length ensures rank == q {
      MulMono(rank + 1, q, length);
      MulMono(q + 1, rank, length);
    }
  }

  lemma MulMono(a: nat, b: nat, n: nat)
    ensures a <= b ==> a * n <= b * n
    ensures a > 0 ==> a * n == (a - 1) * n + n
  {
    if a <= b { assert (b - a) * n >= 0; }
  }

  // ------------------------------------------------------------------------------------------
  // the stand-in tensor
  // ------------------------------------------------------------------------------------------

  /** A stand-in of a tensor of `ndim` dimensions: only rows [start, start + |part|) along `dim` are resident. */
  datatype StandIn<T> = StandIn(ndim: nat, dim: nat, start: nat, part: seq<T>)

  function NormalDim(ndim: nat, dim: int): int { if dim < 0 then dim + ndim else dim }

  /** TpSliceTensor._narrow: None when it raises. */
  function Narrow<T>(s: StandIn<T>, dim: int, start: int, length: int): Option<seq<T>> {
    var lo, hi := s.start, s.start + |s.part|;
    if NormalDim(s.ndim, dim) != s.dim || start < lo || start + length > hi || length < 0 then None
    else if start == lo && length == |s.part| then Some(s.part)
    else Some(s.part[start - lo..start - lo + length])
  }

  /**
   * Every narrow the stand-in permits returns what the full tensor would, and it permits exactly those
   * along its own dimension, inside its slice.
   */
  lemma NarrowIsFull<T>(s: StandIn<T>, full: seq<T>, dim: int, start: int, length: int)
    requires s.start + |s.part| <= |full| && s.part == full[s.start..s.start + |s.part|]
    ensures Narrow(s, dim, start, length).Some? <==>
              && (if dim < 0 then dim + s.ndim else dim) == s.dim
              && s.start <= start && 0 <= length && start + length <= s.start + |s.part|
    ensures Narrow(s, dim, start, length).Some? ==> Narrow(s, dim, start, length).value == full[start..start + length]
  {
    var lo, n := s.start, |s.part|;
    if lo <= start && 0 <= length && start + length <= lo + n {
      var x, y := full[lo..lo + n][start - lo..start - lo + length], full[start..start + length];
      assert |x| == |y| && forall k :: 0 <= k < length ==> x[k] == y[k];
    }
  }
}
