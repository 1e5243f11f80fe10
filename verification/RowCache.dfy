/**
 * The striped, set-associative row cache (adapter/row_store.cpp, fetch_row): any number of threads, a
 * locked probe, an unlocked read and a locked fill, interleaved at every lock, way, copy and store.
 */
module RowCache {
  import opened Wrappers

  type Bytes = seq<int>

  /** The rows of the table: what a read of the disk returns. */
  datatype Rows = Rows(weight: nat -> Bytes, scale: nat -> Bytes)

  datatype Row = Row(weight: Bytes, scale: Bytes)

  /** One way of a set: key 0 is empty, key id + 1 holds row id. */
  datatype Way = Way(key: nat, weight: Bytes, scale: Bytes)

  datatype Thread =
    Idle
  | WantProbe(id: nat)
  | Scan(id: nat, w: nat)
  | Copy(id: nat, w: nat)
  | Read(id: nat)
  | ReadScale(id: nat, weight: Bytes)
  | WantFill(id: nat, row: Row)
  | PickVictim(id: nat, row: Row)
  | FillWeight(id: nat, row: Row, w: nat)
  | FillScale(id: nat, row: Row, w: nat)
  | FillKey(id: nat, row: Row, w: nat)
  | Done(id: nat, row: Row)

  datatype Owner = Free | Held(thread: nat)

  datatype State = State(
    ways: nat, sets: seq<seq<Way>>, victim: seq<nat>, locks: seq<Owner>, threads: seq<Thread>)

  const STRIPES := 256

  datatype Event = Begin(i: nat, id: nat) | Step(i: nat)

  function Init(n: nat, sets: nat, ways: nat): State {
    State(ways, seq(sets, _ => seq(ways, _ => Way(0, [], []))), seq(sets, _ => 0), seq(STRIPES, _ => Free),
          seq(n, _ => Idle))
  }

  function SetOf(s: State, id: nat): (k: nat)
    ensures |s.sets| > 0 ==> k < |s.sets|
  {
    if |s.sets| > 0 then id % |s.sets| else 0
  }

  function StripeOf(s: State, id: nat): (k: nat)
    ensures k < STRIPES
  {
    SetOf(s, id) % STRIPES
  }

  function Goto(s: State, i: nat, t: Thread): State
    requires i < |s.threads|
  {
    s.(threads := s.threads[i := t])
  }

  function Lock(s: State, id: nat, o: Owner): State
    requires |s.locks| == STRIPES
  {
    s.(locks := s.locks[StripeOf(s, id) := o])
  }

  function Store(s: State, id: nat, w: nat, way: Way): State
    requires 0 < |s.sets| && w < |s.sets[SetOf(s, id)]|
  {
    var k := SetOf(s, id);
    s.(sets := s.sets[k := s.sets[k][w := way]])
  }

  /** Everything has its size, so that a step can index. */
  predicate Shape(s: State) {
    && s.ways >= 1 && |s.locks| == STRIPES && |s.victim| == |s.sets|
    && (forall k :: 0 <= k < |s.sets| ==> |s.sets[k]| == s.ways && s.victim[k] < s.ways)
    && (forall i :: 0 <= i < |s.threads| ==> ThreadShape(s, s.threads[i]))
  }

  predicate ThreadShape(s: State, t: Thread) {
    match t
    case Scan(_, w) => |s.sets| > 0 && w <= s.ways
    case Copy(_, w) => |s.sets| > 0 && w < s.ways
    case WantProbe(_) => |s.sets| > 0
    case WantFill(_, _) => |s.sets| > 0
    case PickVictim(_, _) => |s.sets| > 0
    case FillWeight(_, _, w) => |s.sets| > 0 && w < s.ways
    case FillScale(_, _, w) => |s.sets| > 0 && w < s.ways
    case FillKey(_, _, w) => |s.sets| > 0 && w < s.ways
    case _ => true
  }

  /** One step of fetch_row by thread i. */
  function ThreadNext(rows: Rows, s: State, i: nat): Option<State>
    requires Shape(s) && i < |s.threads|
  {
    match s.threads[i]
    case Idle => None
    case Done(_, _) => Some(Goto(s, i, Idle))
    case WantProbe(id) =>
      if s.locks[StripeOf(s, id)] == Free then Some(Goto(Lock(s, id, Held(i)), i, Scan(id, 0))) else None
    case Scan(id, w) =>
      if w == s.ways then Some(Goto(Lock(s, id, Free), i, Read(id)))
      else if s.sets[SetOf(s, id)][w].key == id + 1 then Some(Goto(s, i, Copy(id, w)))
      else Some(Goto(s, i, Scan(id, w + 1)))
    case Copy(id, w) =>
      var way := s.sets[SetOf(s, id)][w];
      Some(Goto(Lock(s, id, Free), i, Done(id, Row(way.weight, way.scale))))
    case Read(id) => Some(Goto(s, i, ReadScale(id, rows.weight(id))))
    case ReadScale(id, weight) =>
      var row := Row(weight, rows.scale(id));
      Some(Goto(s, i, if |s.sets| > 0 then WantFill(id, row) else Done(id, row)))
    case WantFill(id, row) =>
      if s.locks[StripeOf(s, id)] == Free then Some(Goto(Lock(s, id, Held(i)), i, PickVictim(id, row))) else None
    case PickVictim(id, row) =>
      var k := SetOf(s, id);
      var w := s.victim[k] % s.ways;
      Some(Goto(s.(victim := s.victim[k := (s.victim[k] + 1) % s.ways]), i, FillWeight(id, row, w)))
    case FillWeight(id, row, w) =>
      var way := s.sets[SetOf(s, id)][w];
      Some(Goto(Store(s, id, w, way.(weight := row.weight)), i, FillScale(id, row, w)))
    case FillScale(id, row, w) =>
      var way := s.sets[SetOf(s, id)][w];
      Some(Goto(Store(s, id, w, way.(scale := row.scale)), i, FillKey(id, row, w)))
    case FillKey(id, row, w) =>
      var way := s.sets[SetOf(s, id)][w];
      Some(Goto(Lock(Store(s, id, w, way.(key := id + 1)), id, Free), i, Done(id, row)))
  }

  function Next(rows: Rows, s: State, e: Event): Option<State>
    requires Shape(s)
  {
    match e
    case Begin(i, id) =>
      if i < |s.threads| && s.threads[i] == Idle then
        Some(Goto(s, i, if |s.sets| > 0 then WantProbe(id) else Read(id)))
      else None
    case Step(i) => if i < |s.threads| then ThreadNext(rows, s, i) else None
  }

  // ------------------------------------------------------------------------------------------
  // the invariant
  // ------------------------------------------------------------------------------------------

  /** The thread holds the lock of its row's stripe. */
  predicate Holds(t: Thread) {
    t.Scan? || t.Copy? || t.PickVictim? || t.FillWeight? || t.FillScale? || t.FillKey?
  }

  /** The thread is between the first and the last store into way w of its row's set. */
  predicate Filling(s: State, t: Thread, k: nat, w: nat) {
    (t.FillScale? || t.FillKey?) && SetOf(s, t.id) == k && t.w == w
  }

  predicate SomeFilling(s: State, k: nat, w: nat) {
    exists i :: 0 <= i < |s.threads| && Filling(s, s.threads[i], k, w)
  }

  predicate RightRow(rows: Rows, id: nat, row: Row) { row == Row(rows.weight(id), rows.scale(id)) }

  /** The way holds exactly the row its key names, in the set that row belongs to. */
  predicate RightWay(rows: Rows, s: State, k: nat, way: Way) {
    way.key > 0 ==> SetOf(s, way.key - 1) == k && RightRow(rows, way.key - 1, Row(way.weight, way.scale))
  }

  predicate RightThread(rows: Rows, s: State, t: Thread)
    requires Shape(s) && ThreadShape(s, t)
  {
    match t
    case Copy(id, w) => s.sets[SetOf(s, id)][w].key == id + 1
    case ReadScale(id, weight) => weight == rows.weight(id)
    case WantFill(id, row) => RightRow(rows, id, row)
    case PickVictim(id, row) => RightRow(rows, id, row)
    case FillWeight(id, row, w) => RightRow(rows, id, row)
    case FillScale(id, row, w) => RightRow(rows, id, row) && s.sets[SetOf(s, id)][w].weight == row.weight
    case FillKey(id, row, w) =>
      RightRow(rows, id, row) && s.sets[SetOf(s, id)][w].weight == row.weight
      && s.sets[SetOf(s, id)][w].scale == row.scale
    case Done(id, row) => RightRow(rows, id, row)
    case _ => true
  }

  /** A held stripe is held by the thread that names it, and nobody else is inside it. */
  predicate Locking(s: State)
    requires Shape(s)
  {
    forall i :: 0 <= i < |s.threads| && Holds(s.threads[i]) ==> s.locks[StripeOf(s, s.threads[i].id)] == Held(i)
  }

  /** Every way tagged with a row holds it, except while a thread is filling that way. */
  predicate Ways(rows: Rows, s: State)
    requires Shape(s)
  {
    forall k, w :: 0 <= k < |s.sets| && 0 <= w < s.ways && !SomeFilling(s, k, w) ==> RightWay(rows, s, k, s.sets[k][w])
  }

  predicate Inv(rows: Rows, s: State) {
    && Shape(s) && Locking(s) && Ways(rows, s)
    && forall i :: 0 <= i < |s.threads| ==> RightThread(rows, s, s.threads[i])
  }

  lemma InitInv(rows: Rows, n: nat, sets: nat, ways: nat)
    requires ways >= 1
    ensures Inv(rows, Init(n, sets, ways))
  {}

  /** Two threads inside the same set are the same thread. */
  lemma Exclusive(s: State, i: nat, j: nat)
    requires Shape(s) && Locking(s) && i < |s.threads| && j < |s.threads|
    requires Holds(s.threads[i]) && Holds(s.threads[j]) && SetOf(s, s.threads[i].id) == SetOf(s, s.threads[j].id)
    ensures i == j
  {}

  lemma Apart(s: State, i: nat, j: nat)
    requires Shape(s) && Locking(s) && i < |s.threads| && j < |s.threads| && i != j
    requires Holds(s.threads[i]) && Holds(s.threads[j])
    ensures SetOf(s, s.threads[i].id) != SetOf(s, s.threads[j].id)
  {}

  // ------------------------------------------------------------------------------------------
  // steps that leave the cache alone
  // ------------------------------------------------------------------------------------------

  /** Thread i moves on without touching the ways and without starting or ending a fill. */
  lemma QuietStep(rows: Rows, s: State, u: State, i: nat)
    requires Inv(rows, s) && Shape(u) && i < |s.threads|
    requires u.ways == s.ways && u.sets == s.sets && |u.threads| == |s.threads|
    requires u.threads == s.threads[i := u.threads[i]]
    requires !s.threads[i].FillScale? && !s.threads[i].FillKey? && !u.threads[i].FillScale? && !u.threads[i].FillKey?
    requires Locking(u) && RightThread(rows, u, u.threads[i])
    ensures Inv(rows, u)
  {
    forall k, w | 0 <= k < |s.sets| && 0 <= w < s.ways && !SomeFilling(u, k, w) ensures !SomeFilling(s, k, w) {
      assert forall j :: 0 <= j < |s.threads| && Filling(s, s.threads[j], k, w) ==> Filling(u, u.threads[j], k, w);
    }
    forall j | 0 <= j < |u.threads| ensures RightThread(rows, u, u.threads[j]) {
      assert j != i ==> u.threads[j] == s.threads[j] && RightThread(rows, s, s.threads[j]);
    }
  }

  lemma Acquire(s: State, u: State, i: nat)
    requires Shape(s) && Shape(u) && Locking(s) && i < |s.threads| == |u.threads| && u.sets == s.sets
    requires u.threads[i] != Idle && s.locks[StripeOf(s, u.threads[i].id)] == Free
    requires u.locks == s.locks[StripeOf(s, u.threads[i].id) := Held(i)]
    requires u.threads == s.threads[i := u.threads[i]] && !Holds(s.threads[i])
    ensures Locking(u)
  {
    forall j | 0 <= j < |u.threads| && Holds(u.threads[j]) ensures u.locks[StripeOf(u, u.threads[j].id)] == Held(j) {
      if j != i { assert Holds(s.threads[j]); }
    }
  }

  lemma Release(s: State, u: State, i: nat)
    requires Shape(s) && Shape(u) && Locking(s) && i < |s.threads| && |u.sets| == |s.sets|
    requires Holds(s.threads[i]) && u.locks == s.locks[StripeOf(s, s.threads[i].id) := Free]
    requires |u.threads| == |s.threads| && u.threads == s.threads[i := u.threads[i]] && !Holds(u.threads[i])
    ensures Locking(u)
  {
    forall j | 0 <= j < |u.threads| && Holds(u.threads[j]) ensures u.locks[StripeOf(u, u.threads[j].id)] == Held(j) {
      assert j != i && Holds(s.threads[j]) && u.threads[j] == s.threads[j];
    }
  }

  lemma KeepLocks(s: State, u: State, i: nat)
    requires Shape(s) && Shape(u) && Locking(s) && i < |s.threads| && |u.sets| == |s.sets| && u.locks == s.locks
    requires |u.threads| == |s.threads| && u.threads == s.threads[i := u.threads[i]]
    requires Holds(u.threads[i]) ==> Holds(s.threads[i]) && s.threads[i].id == u.threads[i].id
    ensures Locking(u)
  {
    forall j | 0 <= j < |u.threads| && Holds(u.threads[j]) ensures u.locks[StripeOf(u, u.threads[j].id)] == Held(j) {
      if j != i { assert u.threads[j] == s.threads[j]; }
    }
  }

  /** Everything except the three stores. */
  lemma ReadSideStep(rows: Rows, s: State, i: nat)
    requires Inv(rows, s) && i < |s.threads| && ThreadNext(rows, s, i).Some?
    requires !s.threads[i].FillWeight? && !s.threads[i].FillScale? && !s.threads[i].FillKey?
    ensures Inv(rows, ThreadNext(rows, s, i).value)
  {
    var u, t := ThreadNext(rows, s, i).value, s.threads[i];
    assert RightThread(rows, s, t);
    NextShape(rows, s, i);
    if t.WantProbe? || t.WantFill? {
      hide Locking;
      Acquire(s, u, i);
    } else if t.Copy? || (t.Scan? && t.w == s.ways) {
      hide Locking;
      Release(s, u, i);
    } else {
      hide Locking;
      KeepLocks(s, u, i);
    }
    if t.Copy? { CopiesRight(rows, s, i); }
    hide Ways, SetOf;
    QuietStep(rows, s, u, i);
  }

  lemma NextShape(rows: Rows, s: State, i: nat)
    requires Shape(s) && i < |s.threads| && ThreadNext(rows, s, i).Some?
    ensures Shape(ThreadNext(rows, s, i).value)
    ensures |ThreadNext(rows, s, i).value.threads| == |s.threads|
    ensures ThreadNext(rows, s, i).value.threads == s.threads[i := ThreadNext(rows, s, i).value.threads[i]]
  {}

  /** A hit copies a way that nobody is filling, because this thread holds its stripe. */
  lemma CopiesRight(rows: Rows, s: State, i: nat)
    requires Inv(rows, s) && i < |s.threads| && s.threads[i].Copy?
    ensures var t := s.threads[i];
            var way := s.sets[SetOf(s, t.id)][t.w];
            RightRow(rows, t.id, Row(way.weight, way.scale))
  {
    var t := s.threads[i];
    var k := SetOf(s, t.id);
    assert RightThread(rows, s, t);
    NobodyFills(s, i, k, t.w);
  }

  lemma NobodyFills(s: State, i: nat, k: nat, w: nat)
    requires Shape(s) && Locking(s) && i < |s.threads| && Holds(s.threads[i]) && SetOf(s, s.threads[i].id) == k
    requires !Filling(s, s.threads[i], k, w)
    ensures !SomeFilling(s, k, w)
  {
    forall j | 0 <= j < |s.threads| ensures !Filling(s, s.threads[j], k, w) {
      if Filling(s, s.threads[j], k, w) { Exclusive(s, i, j); }
    }
  }

  // ------------------------------------------------------------------------------------------
  // the stores of a fill
  // ------------------------------------------------------------------------------------------

  /** A store into one way leaves every other way, and every thread outside its set, as they were. */
  lemma StoreStep(rows: Rows, s: State, u: State, i: nat)
    requires Inv(rows, s) && Shape(u) && i < |s.threads| && Holds(s.threads[i])
    requires s.threads[i].FillWeight? || s.threads[i].FillScale? || s.threads[i].FillKey?
    requires u.ways == s.ways && |u.sets| == |s.sets| && |u.threads| == |s.threads|
    requires var t := s.threads[i]; var k := SetOf(s, t.id);
             u.sets == s.sets[k := s.sets[k][t.w := u.sets[k][t.w]]]
    requires u.threads == s.threads[i := u.threads[i]]
    requires Locking(u) && RightThread(rows, u, u.threads[i])
    requires var t := s.threads[i]; var k := SetOf(s, t.id);
             Filling(u, u.threads[i], k, t.w) || (!Holds(u.threads[i]) && RightWay(rows, u, k, u.sets[k][t.w]))
    ensures Inv(rows, u)
  {
    var t := s.threads[i];
    var k := SetOf(s, t.id);
    forall j | 0 <= j < |u.threads| ensures RightThread(rows, u, u.threads[j]) {
      if j != i {
        assert RightThread(rows, s, s.threads[j]);
        if Holds(s.threads[j]) { Apart(s, i, j); }
      }
    }
    forall k', w' | 0 <= k' < |u.sets| && 0 <= w' < u.ways && !SomeFilling(u, k', w')
      ensures RightWay(rows, u, k', u.sets[k'][w'])
    {
      if k' != k || w' != t.w {
        OtherFillers(s, u, i, k', w');
        assert RightWay(rows, s, k', s.sets[k'][w']);
      }
    }
  }

  lemma OtherFillers(s: State, u: State, i: nat, k: nat, w: nat)
    requires Shape(s) && Shape(u) && i < |s.threads| == |u.threads| && |u.sets| == |s.sets|
    requires u.threads == s.threads[i := u.threads[i]] && !SomeFilling(u, k, w) && !Filling(s, s.threads[i], k, w)
    ensures !SomeFilling(s, k, w)
  {
    assert forall j :: 0 <= j < |s.threads| && Filling(s, s.threads[j], k, w) ==> Filling(u, u.threads[j], k, w);
  }

  lemma FillStep(rows: Rows, s: State, i: nat)
    requires Inv(rows, s) && i < |s.threads|
    requires s.threads[i].FillWeight? || s.threads[i].FillScale? || s.threads[i].FillKey?
    ensures ThreadNext(rows, s, i).Some? && Inv(rows, ThreadNext(rows, s, i).value)
  {
    var u, t := ThreadNext(rows, s, i).value, s.threads[i];
    assert RightThread(rows, s, t);
    NextShape(rows, s, i);
    if t.FillKey? { Release(s, u, i); } else { KeepLocks(s, u, i); }
    hide Locking, Ways, SetOf;
    StoreStep(rows, s, u, i);
  }

  lemma StepInv(rows: Rows, s: State, e: Event)
    requires Inv(rows, s) && Next(rows, s, e).Some?
    ensures Inv(rows, Next(rows, s, e).value)
  {
    match e
    case Begin(i, id) =>
      hide Ways;
      KeepLocks(s, Next(rows, s, e).value, i);
      QuietStep(rows, s, Next(rows, s, e).value, i);
    case Step(i) =>
      hide Inv;
      if s.threads[i].FillWeight? || s.threads[i].FillScale? || s.threads[i].FillKey? { FillStep(rows, s, i); }
      else { ReadSideStep(rows, s, i); }
  }

  ghost predicate Leads(rows: Rows, s: State, es: seq<Event>, u: State)
    decreases |es|
  {
    if es == [] then u == s
    else Shape(s) && Next(rows, s, es[0]).Some? && Leads(rows, Next(rows, s, es[0]).value, es[1..], u)
  }

  lemma {:induction false} RunInv(rows: Rows, s: State, es: seq<Event>, u: State)
    requires Inv(rows, s) && Leads(rows, s, es, u)
    ensures Inv(rows, u)
    decreases |es|
  {
    hide Inv;
    if es != [] {
      StepInv(rows, s, es[0]);
      RunInv(rows, Next(rows, s, es[0]).value, es[1..], u);
    }
  }

  /**
   * Coherence: in every reachable state of any number of concurrent fetches, every finished fetch returned
   * exactly its row, hit or miss; every tagged way that is not being filled holds exactly its row, in the
   * set of that row; and the victim cursors stay below the number of ways.
   */
  lemma Coherent(rows: Rows, n: nat, sets: nat, ways: nat, es: seq<Event>, s: State)
    requires ways >= 1 && Leads(rows, Init(n, sets, ways), es, s)
    ensures forall i :: 0 <= i < |s.threads| && s.threads[i].Done? ==> RightRow(rows, s.threads[i].id, s.threads[i].row)
    ensures Shape(s) && |s.sets| == |s.victim|
    ensures forall k, w :: 0 <= k < |s.sets| && 0 <= w < s.ways && !SomeFilling(s, k, w) ==>
              RightWay(rows, s, k, s.sets[k][w])
    ensures forall k :: 0 <= k < |s.sets| ==> s.victim[k] < s.ways
  {
    InitInv(rows, n, sets, ways);
    RunInv(rows, Init(n, sets, ways), es, s);
    forall i | 0 <= i < |s.threads| && s.threads[i].Done? ensures RightRow(rows, s.threads[i].id, s.threads[i].row) {
      assert RightThread(rows, s, s.threads[i]);
    }
  }

  // ------------------------------------------------------------------------------------------
  // progress
  // ------------------------------------------------------------------------------------------

  /** The stripe's holder, if any, is a thread inside it. */
  predicate Held1(s: State)
    requires Shape(s)
  {
    forall k :: 0 <= k < STRIPES && s.locks[k].Held? ==>
      s.locks[k].thread < |s.threads| && Holds(s.threads[s.locks[k].thread])
      && StripeOf(s, s.threads[s.locks[k].thread].id) == k
  }

  lemma HeldStep(rows: Rows, s: State, i: nat)
    requires Inv(rows, s) && Held1(s) && i < |s.threads| && ThreadNext(rows, s, i).Some?
    ensures Shape(ThreadNext(rows, s, i).value) && Held1(ThreadNext(rows, s, i).value)
  {
    NextShape(rows, s, i);
    var u, t := ThreadNext(rows, s, i).value, s.threads[i];
    var mine := if t == Idle then 0 else StripeOf(s, t.id);
    forall k | 0 <= k < STRIPES && u.locks[k].Held?
      ensures u.locks[k].thread < |u.threads| && Holds(u.threads[u.locks[k].thread])
              && StripeOf(u, u.threads[u.locks[k].thread].id) == k
    {
      HeldAt(rows, s, i, k);
    }
  }

  lemma HeldAt(rows: Rows, s: State, i: nat, k: nat)
    requires Inv(rows, s) && Held1(s) && i < |s.threads| && ThreadNext(rows, s, i).Some? && k < STRIPES
    requires Shape(ThreadNext(rows, s, i).value) && ThreadNext(rows, s, i).value.locks[k].Held?
    ensures var u := ThreadNext(rows, s, i).value;
            u.locks[k].thread < |u.threads| && Holds(u.threads[u.locks[k].thread])
            && StripeOf(u, u.threads[u.locks[k].thread].id) == k
  {
    hide Ways, RightThread, RightWay;
    var u := ThreadNext(rows, s, i).value;
    SameStripes(s, u);
    if u.locks[k] == s.locks[k] {
      assert s.locks[k].thread != i ==> u.threads[s.locks[k].thread] == s.threads[s.locks[k].thread];
    }
  }

  lemma SameStripes(s: State, u: State)
    requires |s.sets| == |u.sets|
    ensures forall id :: StripeOf(s, id) == StripeOf(u, id)
  {}

  lemma {:induction false} RunHeld(rows: Rows, s: State, es: seq<Event>, u: State)
    requires Inv(rows, s) && Held1(s) && Leads(rows, s, es, u)
    ensures Inv(rows, u) && Held1(u)
    decreases |es|
  {
    hide Inv;
    if es != [] {
      StepInv(rows, s, es[0]);
      if es[0].Step? { HeldStep(rows, s, es[0].i); } else { BeginHeld(rows, s, es[0]); }
      RunHeld(rows, Next(rows, s, es[0]).value, es[1..], u);
    }
  }

  lemma BeginHeld(rows: Rows, s: State, e: Event)
    requires Inv(rows, s) && Held1(s) && e.Begin? && Next(rows, s, e).Some? && Shape(Next(rows, s, e).value)
    ensures Held1(Next(rows, s, e).value)
  {
    hide Ways, RightThread, RightWay;
  }

  /** No deadlock: in every reachable state a busy thread can step, or the holder of the stripe it waits for can. */
  lemma NoDeadlock(rows: Rows, n: nat, sets: nat, ways: nat, es: seq<Event>, s: State, i: nat) returns (j: nat)
    requires ways >= 1 && Leads(rows, Init(n, sets, ways), es, s)
    requires i < |s.threads| && s.threads[i] != Idle
    ensures Shape(s) && j < |s.threads| && ThreadNext(rows, s, j).Some?
    ensures j == i || (Holds(s.threads[j]) && !Holds(s.threads[i]))
  {
    InitInv(rows, n, sets, ways);
    RunHeld(rows, Init(n, sets, ways), es, s);
    hide Ways, RightThread;
    var t := s.threads[i];
    if (t.WantProbe? || t.WantFill?) && s.locks[StripeOf(s, t.id)].Held? {
      j := s.locks[StripeOf(s, t.id)].thread;
    } else {
      j := i;
    }
  }
}
