/**
 * The ticketed thread pool of the row store (adapter/row_store.cpp, class Pool): one caller at a time and
 * any number of workers, interleaved at every lock, atomic and wait. Thread 0 is the caller. A job is
 * known by its generation; 0 is the null job.
 */
module RowPool {
  import opened Wrappers

  // ------------------------------------------------------------------------------------------
  // counting threads
  // ------------------------------------------------------------------------------------------

  function Total<T>(f: T -> nat, s: seq<T>): nat {
    if s == [] then 0 else Total(f, s[..|s| - 1]) + f(s[|s| - 1])
  }

  lemma {:induction false} TotalUpdate<T>(f: T -> nat, s: seq<T>, i: nat, x: T)
    requires i < |s|
    ensures Total(f, s[i := x]) + f(s[i]) == Total(f, s) + f(x)
  {
    var n := |s| - 1;
    if i == n {
      assert s[i := x][..n] == s[..n];
    } else {
      assert s[i := x][..n] == s[..n][i := x];
      TotalUpdate(f, s[..n], i, x);
    }
  }

  lemma {:induction false} TotalAtLeast<T>(f: T -> nat, s: seq<T>, i: nat)
    requires i < |s|
    ensures f(s[i]) <= Total(f, s)
  {
    if i < |s| - 1 { TotalAtLeast(f, s[..|s| - 1], i); }
  }

  lemma {:induction false} TotalWitness<T>(f: T -> nat, s: seq<T>) returns (i: nat)
    requires Total(f, s) > 0
    ensures i < |s| && f(s[i]) > 0
  {
    if f(s[|s| - 1]) > 0 { i := |s| - 1; } else { i := TotalWitness(f, s[..|s| - 1]); }
  }

  lemma {:induction false} TotalZero<T>(f: T -> nat, s: seq<T>)
    requires forall i :: 0 <= i < |s| ==> f(s[i]) == 0
    ensures Total(f, s) == 0
  {
    if s != [] { TotalZero(f, s[..|s| - 1]); }
  }

  // ------------------------------------------------------------------------------------------
  // the state
  // ------------------------------------------------------------------------------------------

  datatype Owner = Free | Held(thread: nat)

  /** Where a thread is inside drain; Out when it is not. */
  datatype Drain =
    Out | Fetch | Compare(t: nat) | Serve(t: nat) | Sub(t: nat) | NotifyWant | NotifyHeld | Exit

  /** Where the caller is inside run; Publish(n) has done n of the five writes under the lock. */
  datatype Caller =
    Idle | PublishWant | Publish(done: nat) | NotifyAll | Draining
  | WaitWant | WaitRemaining | WaitActive | Asleep

  /** Where a worker is inside loop. */
  datatype Loop = Top | Checking | Resting | Working | LeaveWant | Leaving

  datatype State = State(
    owner: Owner, job: nat, next: nat, chunks: nat, remaining: int, active: int, generation: nat,
    caller: Caller, loops: seq<Loop>, seen: seq<nat>, woken: seq<bool>,
    drains: seq<Drain>, works: seq<nat>, signalled: bool, log: multiset<(nat, nat)>)

  datatype Event =
    Start | PublishLock | PublishStep | NotifyStep | WaitLock | CheckRemaining | CheckActive | WakeCaller
  | DrainStep(i: nat) | WorkerLock(i: nat) | WorkerCheck(i: nat) | WorkerWake(i: nat)
  | LeaveLock(i: nat) | Leave(i: nat)

  function Init(n: nat): State {
    State(Free, 0, 0, 0, 0, 0, 0, Idle,
          seq(n + 1, _ => Top), seq(n + 1, _ => 0), seq(n + 1, _ => false),
          seq(n + 1, _ => Out), seq(n + 1, _ => 0), false, multiset{})
  }

  /** notify_one on done_: only the caller ever waits there. */
  function Signal(s: State): bool { s.signalled || s.caller == Asleep }

  /** One step of the loop body of drain by thread i. */
  function DrainNext(s: State, i: nat): Option<State>
    requires i < |s.drains| == |s.works|
  {
    match s.drains[i]
    case Fetch => Some(s.(drains := s.drains[i := Compare(s.next)], next := s.next + 1))
    case Compare(t) => Some(s.(drains := s.drains[i := if t >= s.chunks then Exit else Serve(t)]))
    case Serve(t) => Some(s.(drains := s.drains[i := Sub(t)], log := s.log + multiset{(s.works[i], t)}))
    case Sub(t) =>
      Some(s.(drains := s.drains[i := if s.remaining == 1 then NotifyWant else Fetch], remaining := s.remaining - 1))
    case NotifyWant =>
      if s.owner == Free then Some(s.(owner := Held(i), drains := s.drains[i := NotifyHeld])) else None
    case NotifyHeld =>
      Some(s.(owner := Free, drains := s.drains[i := Fetch], signalled := Signal(s)))
    case Exit =>
      if i == 0 then Some(s.(drains := s.drains[i := Out], caller := WaitWant))
      else if i < |s.loops| then Some(s.(drains := s.drains[i := Out], loops := s.loops[i := LeaveWant]))
      else None
    case Out => None
  }

  /** The five writes of run under the lock, one at a time; the last one also unlocks. */
  function PublishNext(s: State, count: nat -> nat, done: nat): State {
    if done == 0 then s.(job := s.generation + 1, caller := Publish(1))
    else if done == 1 then s.(next := 0, caller := Publish(2))
    else if done == 2 then s.(chunks := Chunks(count(s.generation + 1)), caller := Publish(3))
    else if done == 3 then s.(remaining := Chunks(count(s.generation + 1)), caller := Publish(4))
    else s.(generation := s.generation + 1, owner := Free, caller := NotifyAll)
  }

  const K_CHUNK := 1

  function Chunks(count: nat): nat { (count + K_CHUNK - 1) / K_CHUNK }

  /** The state after an event, if it can happen. `count(k)` is the number of rows of job k. */
  function Next(count: nat -> nat, s: State, e: Event): Option<State>
    requires |s.loops| == |s.seen| == |s.woken| == |s.drains| == |s.works| >= 1
  {
    match e
    case Start => if s.caller == Idle then Some(s.(caller := PublishWant)) else None
    case PublishLock =>
      if s.caller == PublishWant && s.owner == Free then Some(s.(owner := Held(0), caller := Publish(0))) else None
    case PublishStep => if s.caller.Publish? then Some(PublishNext(s, count, s.caller.done)) else None
    case NotifyStep =>
      if s.caller == NotifyAll then
        Some(s.(woken := seq(|s.woken|, _ => true), caller := Draining,
                drains := s.drains[0 := Fetch], works := s.works[0 := s.generation]))
      else None
    case WaitLock =>
      if s.caller == WaitWant && s.owner == Free then Some(s.(owner := Held(0), caller := WaitRemaining)) else None
    case CheckRemaining =>
      if s.caller != WaitRemaining then None
      else if s.remaining == 0 then Some(s.(caller := WaitActive))
      else Some(s.(owner := Free, caller := Asleep, signalled := false))
    case CheckActive =>
      if s.caller != WaitActive then None
      else if s.active == 0 then Some(s.(owner := Free, caller := Idle, job := 0))
      else Some(s.(owner := Free, caller := Asleep, signalled := false))
    case WakeCaller => if s.caller == Asleep then Some(s.(caller := WaitWant)) else None
    case DrainStep(i) => if i < |s.drains| then DrainNext(s, i) else None
    case WorkerLock(i) =>
      if 0 < i < |s.loops| && s.loops[i] == Top && s.owner == Free then
        Some(s.(owner := Held(i), loops := s.loops[i := Checking]))
      else None
    case WorkerCheck(i) =>
      if !(0 < i < |s.loops| && s.loops[i] == Checking) then None
      else if s.generation == s.seen[i] then
        Some(s.(owner := Free, loops := s.loops[i := Resting], woken := s.woken[i := false]))
      else if s.job == 0 then
        Some(s.(owner := Free, loops := s.loops[i := Top], seen := s.seen[i := s.generation]))
      else
        Some(s.(owner := Free, loops := s.loops[i := Working], seen := s.seen[i := s.generation],
                works := s.works[i := s.job], active := s.active + 1, drains := s.drains[i := Fetch]))
    case WorkerWake(i) =>
      if 0 < i < |s.loops| && s.loops[i] == Resting then Some(s.(loops := s.loops[i := Top])) else None
    case LeaveLock(i) =>
      if 0 < i < |s.loops| && s.loops[i] == LeaveWant && s.owner == Free then
        Some(s.(owner := Held(i), loops := s.loops[i := Leaving]))
      else None
    case Leave(i) =>
      if 0 < i < |s.loops| && s.loops[i] == Leaving then
        Some(s.(owner := Free, loops := s.loops[i := Top], active := s.active - 1, signalled := Signal(s)))
      else None
  }

  // ------------------------------------------------------------------------------------------
  // the invariant
  // ------------------------------------------------------------------------------------------

  /** A job is published and its run has not returned. */
  predicate InRun(c: Caller) {
    c == NotifyAll || c == Draining || c == WaitWant || c == WaitRemaining || c == WaitActive || c == Asleep
  }

  predicate Waiting(c: Caller) { c == WaitWant || c == WaitRemaining || c == WaitActive || c == Asleep }

  predicate IsActive(l: Loop) { l == Working || l == LeaveWant || l == Leaving }

  function ActiveOne(): Loop -> nat { (l: Loop) => if IsActive(l) then 1 else 0 }

  /** The thread holds a ticket it has not yet accounted for. */
  predicate Pending(d: Drain, chunks: nat) { (d.Compare? && d.t < chunks) || d.Serve? || d.Sub? }

  function PendingOne(chunks: nat): Drain -> nat { (d: Drain) => if Pending(d, chunks) then 1 else 0 }

  predicate HasTicket(d: Drain) { d.Compare? || d.Serve? || d.Sub? }

  predicate Unserved(d: Drain, t: nat) { d == Compare(t) || d == Serve(t) }

  predicate HoldsLock(s: State, i: nat)
    requires i < |s.loops| == |s.drains|
  {
    s.drains[i] == NotifyHeld
    || (if i == 0 then s.caller.Publish? || s.caller == WaitRemaining || s.caller == WaitActive
        else s.loops[i] == Checking || s.loops[i] == Leaving)
  }

  predicate Shape(s: State) {
    && |s.loops| == |s.seen| == |s.woken| == |s.drains| == |s.works| >= 1
    && s.loops[0] == Top
    && (s.caller.Publish? ==> s.caller.done <= 4)
    && (s.drains[0] != Out <==> s.caller == Draining)
    && (forall i :: 1 <= i < |s.loops| ==> (s.drains[i] != Out <==> s.loops[i] == Working))
  }

  /** Mutual exclusion. */
  predicate Locking(s: State)
    requires Shape(s)
  {
    && (forall i :: 0 <= i < |s.loops| ==> (s.owner == Held(i) <==> HoldsLock(s, i)))
    && (s.owner.Held? ==> s.owner.thread < |s.loops|)
  }

  /** Every thread in drain works on the job of the current generation. */
  predicate Jobs(s: State)
    requires Shape(s)
  {
    && (InRun(s.caller) ==> s.job == s.generation)
    && (s.caller == Idle || s.caller == PublishWant || s.caller == Publish(0) ==> s.job == 0)
    && (s.caller.Publish? && s.caller.done >= 1 ==> s.job == s.generation + 1)
    && (s.drains[0] != Out ==> s.works[0] == s.generation)
    && (forall i :: 0 <= i < |s.loops| && IsActive(s.loops[i]) ==>
          InRun(s.caller) && s.works[i] == s.generation && s.seen[i] == s.generation)
    && s.active == Total(ActiveOne(), s.loops)
  }

  /** Tickets are unique, and the count of remaining chunks is what is unfetched plus what is pending. */
  predicate Tickets(count: nat -> nat, s: State)
    requires Shape(s)
  {
    && (s.caller == Publish(2) || s.caller == Publish(3) || s.caller == Publish(4) ==> s.next == 0)
    && (s.caller == Publish(3) || s.caller == Publish(4) ==> s.chunks == Chunks(count(s.generation + 1)))
    && (s.caller == Publish(4) ==> s.remaining == s.chunks)
    && (InRun(s.caller) ==>
          && s.generation >= 1
          && s.chunks == Chunks(count(s.generation))
          && s.remaining == Unfetched(s) + Total(PendingOne(s.chunks), s.drains)
          && (forall i :: 0 <= i < |s.drains| && HasTicket(s.drains[i]) ==> s.drains[i].t < s.next)
          && (forall i :: 0 <= i < |s.drains| && (s.drains[i].Serve? || s.drains[i].Sub?) ==> s.drains[i].t < s.chunks)
          && (forall i :: 0 <= i < |s.drains| && s.drains[i] == Exit ==> s.next >= s.chunks)
          && (forall i, j :: 0 <= i < j < |s.drains| && HasTicket(s.drains[i]) && HasTicket(s.drains[j]) ==>
                s.drains[i].t != s.drains[j].t))
    && (Waiting(s.caller) ==> s.next >= s.chunks)
    && (s.caller == WaitActive ==> s.remaining == 0)
  }

  function Unfetched(s: State): nat { if s.next < s.chunks then s.chunks - s.next else 0 }

  predicate SomeUnserved(s: State, t: nat) {
    exists i :: 0 <= i < |s.drains| && Unserved(s.drains[i], t)
  }

  /** How often ticket t of job k has been served: once when the job is over, once its holder is done before that. */
  function ServedSoFar(count: nat -> nat, s: State, k: nat, t: nat): nat {
    if k == 0 || k > s.generation || t >= Chunks(count(k)) then 0
    else if k < s.generation || !InRun(s.caller) then 1
    else if t < s.next && !SomeUnserved(s, t) then 1 else 0
  }

  ghost predicate Log(count: nat -> nat, s: State) {
    forall k: nat, t: nat :: s.log[(k, t)] == ServedSoFar(count, s, k, t)
  }

  /** No wakeup is lost: a sleeping caller that nobody signalled has an active worker to do so, and a
      resting worker that has not seen the job is about to be notified. */
  predicate Wakeups(s: State)
    requires Shape(s)
  {
    && (s.caller == Asleep && !s.signalled ==> s.active > 0)
    && (forall i :: 1 <= i < |s.loops| ==> s.seen[i] <= s.generation)
    && (forall i :: 1 <= i < |s.loops| && s.loops[i] == Resting && !s.woken[i] && s.seen[i] != s.generation ==>
          s.caller == NotifyAll)
  }

  ghost predicate Inv(count: nat -> nat, s: State) {
    Shape(s) && Locking(s) && Jobs(s) && Tickets(count, s) && Log(count, s) && Wakeups(s)
  }

  lemma InitInv(count: nat -> nat, n: nat)
    ensures Inv(count, Init(n))
  {
    TotalZero(ActiveOne(), Init(n).loops);
  }

  // ------------------------------------------------------------------------------------------
  // every step keeps the invariant
  // ------------------------------------------------------------------------------------------

  lemma NoneActive(s: State)
    requires Shape(s) && Jobs(s) && s.active == 0
    ensures forall i :: 0 <= i < |s.loops| ==> !IsActive(s.loops[i])
    ensures forall i :: 1 <= i < |s.loops| ==> s.drains[i] == Out
  {
    forall i | 0 <= i < |s.loops| ensures !IsActive(s.loops[i]) { TotalAtLeast(ActiveOne(), s.loops, i); }
  }

  /** The log depends on these parts of the state only. */
  lemma SameLog(count: nat -> nat, s: State, u: State)
    requires Log(count, s) && u.log == s.log && u.generation == s.generation && u.next == s.next && u.drains == s.drains
    requires InRun(u.caller) == InRun(s.caller)
    ensures Log(count, u)
  {
    hide Chunks;
    forall k: nat, t: nat ensures u.log[(k, t)] == ServedSoFar(count, u, k, t) {
      assert ServedSoFar(count, u, k, t) == ServedSoFar(count, s, k, t);
    }
  }

  /** So do the tickets, with the caller's place in run. */
  lemma SameTickets(count: nat -> nat, s: State, u: State)
    requires Shape(s) && Shape(u) && Tickets(count, s)
    requires u.next == s.next && u.chunks == s.chunks && u.remaining == s.remaining && u.generation == s.generation
    requires u.drains == s.drains && InRun(u.caller) == InRun(s.caller)
    requires u.caller == s.caller
             || (!u.caller.Publish? && u.caller != WaitActive && (Waiting(u.caller) ==> Waiting(s.caller)))
             || u.caller == Publish(0) || u.caller == Publish(1)
    ensures Tickets(count, u)
  {
    hide Chunks, Total;
  }

  lemma LockKept(s: State, u: State)
    requires Shape(s) && Shape(u) && |s.loops| == |u.loops| && Locking(s) && u.owner == s.owner
    requires forall j :: 0 <= j < |s.loops| ==> HoldsLock(u, j) == HoldsLock(s, j)
    ensures Locking(u)
  {
    hide HoldsLock;
  }

  lemma LockTaken(s: State, u: State, i: nat)
    requires Shape(s) && Shape(u) && |s.loops| == |u.loops| && Locking(s) && i < |s.loops|
    requires s.owner == Free && u.owner == Held(i) && HoldsLock(u, i)
    requires forall j :: 0 <= j < |s.loops| && j != i ==> HoldsLock(u, j) == HoldsLock(s, j)
    ensures Locking(u)
  {
    hide HoldsLock;
  }

  lemma LockReleased(s: State, u: State, i: nat)
    requires Shape(s) && Shape(u) && |s.loops| == |u.loops| && Locking(s) && i < |s.loops|
    requires HoldsLock(s, i) && u.owner == Free && !HoldsLock(u, i)
    requires forall j :: 0 <= j < |s.loops| && j != i ==> HoldsLock(u, j) == HoldsLock(s, j)
    ensures Locking(u)
  {
    hide HoldsLock;
    assert s.owner == Held(i);
  }

  // --- the caller

  lemma StartStep(count: nat -> nat, s: State)
    requires Inv(count, s) && Next(count, s, Start).Some?
    ensures Inv(count, Next(count, s, Start).value)
  {
    hide Log, Total, Locking, Tickets;
    var u := Next(count, s, Start).value;
    SameLog(count, s, u);
    SameTickets(count, s, u);
    LockKept(s, u);
  }

  lemma PublishLockStep(count: nat -> nat, s: State)
    requires Inv(count, s) && Next(count, s, PublishLock).Some?
    ensures Inv(count, Next(count, s, PublishLock).value)
  {
    hide Log, Total, Locking, Tickets;
    var u := Next(count, s, PublishLock).value;
    SameLog(count, s, u);
    SameTickets(count, s, u);
    LockTaken(s, u, 0);
  }

  lemma NobodyOutsideRun(s: State)
    requires Shape(s) && Jobs(s) && !InRun(s.caller)
    ensures s.active == 0
    ensures forall i :: 0 <= i < |s.loops| ==> !IsActive(s.loops[i]) && s.drains[i] == Out
  {
    TotalZero(ActiveOne(), s.loops);
  }

  lemma PublishStepStep(count: nat -> nat, s: State)
    requires Inv(count, s) && Next(count, s, PublishStep).Some?
    ensures Inv(count, Next(count, s, PublishStep).value)
  {
    var u := Next(count, s, PublishStep).value;
    NobodyOutsideRun(s);
    PublishLog(count, s);
    PublishTickets(count, s);
    PublishJobs(count, s);
    hide Log, Total, Locking, Tickets, Jobs, Wakeups;
    if s.caller.done == 4 { LockReleased(s, u, 0); } else { LockKept(s, u); }
  }

  lemma PublishJobs(count: nat -> nat, s: State)
    requires Shape(s) && Jobs(s) && Wakeups(s) && s.caller.Publish?
    requires forall i :: 0 <= i < |s.loops| ==> !IsActive(s.loops[i]) && s.drains[i] == Out
    ensures Shape(Next(count, s, PublishStep).value)
    ensures Jobs(Next(count, s, PublishStep).value) && Wakeups(Next(count, s, PublishStep).value)
  {
    hide Total, Chunks;
  }

  lemma PublishTickets(count: nat -> nat, s: State)
    requires Shape(s) && Tickets(count, s) && s.caller.Publish?
    requires forall i :: 0 <= i < |s.loops| ==> s.drains[i] == Out
    ensures Tickets(count, Next(count, s, PublishStep).value)
  {
    TotalZero(PendingOne(s.chunks), s.drains);
    hide Total, Chunks;
  }

  lemma PublishLog(count: nat -> nat, s: State)
    requires Inv(count, s) && s.caller.Publish? && forall i :: 0 <= i < |s.loops| ==> s.drains[i] == Out
    ensures Log(count, Next(count, s, PublishStep).value)
  {
    hide Chunks, Locking, Jobs, Wakeups;
    var u := Next(count, s, PublishStep).value;
    forall k: nat, t: nat ensures u.log[(k, t)] == ServedSoFar(count, u, k, t) {
      assert ServedSoFar(count, u, k, t) == ServedSoFar(count, s, k, t);
    }
  }

  lemma NotifyStepStep(count: nat -> nat, s: State)
    requires Inv(count, s) && Next(count, s, NotifyStep).Some?
    ensures Inv(count, Next(count, s, NotifyStep).value)
  {
    InvParts(count, s);
    hide Inv, Next, Log, Locking, Jobs, Tickets, Wakeups, Total;
    NotifyStepQuiet(count, s);
    NotifyStepTickets(count, s);
    NotifyStepLog(count, s);
    InvFrom(count, Next(count, s, NotifyStep).value);
  }

  lemma NotifyStepQuiet(count: nat -> nat, s: State)
    requires Shape(s) && Locking(s) && Jobs(s) && Wakeups(s) && Next(count, s, NotifyStep).Some?
    ensures Shape(Next(count, s, NotifyStep).value) && Locking(Next(count, s, NotifyStep).value)
    ensures Jobs(Next(count, s, NotifyStep).value) && Wakeups(Next(count, s, NotifyStep).value)
  {
    hide Total, Locking;
    LockKept(s, Next(count, s, NotifyStep).value);
  }

  lemma NotifyStepTickets(count: nat -> nat, s: State)
    requires Shape(s) && Tickets(count, s) && Next(count, s, NotifyStep).Some?
    requires Shape(Next(count, s, NotifyStep).value)
    ensures Tickets(count, Next(count, s, NotifyStep).value)
  {
    TotalUpdate(PendingOne(s.chunks), s.drains, 0, Fetch);
    hide Total, Chunks;
  }

  lemma NotifyStepLog(count: nat -> nat, s: State)
    requires Shape(s) && Log(count, s) && Next(count, s, NotifyStep).Some?
    ensures Log(count, Next(count, s, NotifyStep).value)
  {
    DrainLog(count, s, Next(count, s, NotifyStep).value, 0);
  }

  lemma WaitLockStep(count: nat -> nat, s: State)
    requires Inv(count, s) && Next(count, s, WaitLock).Some?
    ensures Inv(count, Next(count, s, WaitLock).value)
  {
    hide Log, Total, Locking, Tickets;
    var u := Next(count, s, WaitLock).value;
    SameLog(count, s, u);
    SameTickets(count, s, u);
    LockTaken(s, u, 0);
  }

  lemma WakeCallerStep(count: nat -> nat, s: State)
    requires Inv(count, s) && Next(count, s, WakeCaller).Some?
    ensures Inv(count, Next(count, s, WakeCaller).value)
  {
    hide Log, Total, Locking, Tickets;
    var u := Next(count, s, WakeCaller).value;
    SameLog(count, s, u);
    SameTickets(count, s, u);
    LockKept(s, u);
  }

  lemma CheckRemainingStep(count: nat -> nat, s: State)
    requires Inv(count, s) && Next(count, s, CheckRemaining).Some?
    ensures Inv(count, Next(count, s, CheckRemaining).value)
  {
    var u := Next(count, s, CheckRemaining).value;
    SameLog(count, s, u);
    hide Log, Total, Locking;
    if s.remaining != 0 {
      PendingIsActive(count, s);
      LockReleased(s, u, 0);
    } else {
      LockKept(s, u);
    }
  }

  /** Once all tickets are fetched, what remains is pending at some worker. */
  lemma PendingIsActive(count: nat -> nat, s: State)
    requires Shape(s) && Jobs(s) && Tickets(count, s) && Waiting(s.caller) && s.remaining != 0
    ensures s.active > 0
  {
    var i := TotalWitness(PendingOne(s.chunks), s.drains);
    TotalAtLeast(ActiveOne(), s.loops, i);
  }

  lemma CheckActiveStep(count: nat -> nat, s: State)
    requires Inv(count, s) && Next(count, s, CheckActive).Some?
    ensures Inv(count, Next(count, s, CheckActive).value)
  {
    var u := Next(count, s, CheckActive).value;
    if s.active == 0 {
      NoneActive(s);
      AllServed(count, s);
    } else {
      SameLog(count, s, u);
    }
    hide Log, Total, Locking;
    LockReleased(s, u, 0);
  }

  /** When nothing remains and nobody is active, every ticket of the job has been served. */
  lemma AllServed(count: nat -> nat, s: State)
    requires Inv(count, s) && s.caller == WaitActive && s.active == 0
    ensures Log(count, Next(count, s, CheckActive).value)
  {
    hide Chunks, Locking, Wakeups;
    NoneActive(s);
    var u := Next(count, s, CheckActive).value;
    forall k: nat, t: nat ensures u.log[(k, t)] == ServedSoFar(count, u, k, t) {
      assert !SomeUnserved(s, t);
      assert ServedSoFar(count, u, k, t) == ServedSoFar(count, s, k, t);
    }
  }

  /** Changing thread i between two places where it has nothing unserved keeps the log. */
  lemma DrainLog(count: nat -> nat, s: State, u: State, i: nat)
    requires Log(count, s) && i < |s.drains| && |u.drains| == |s.drains|
    requires u.log == s.log && u.generation == s.generation && u.next == s.next && InRun(u.caller) == InRun(s.caller)
    requires u.drains == s.drains[i := u.drains[i]]
    requires forall t :: Unserved(s.drains[i], t) <==> Unserved(u.drains[i], t)
    ensures Log(count, u)
  {
    hide Chunks;
    forall k: nat, t: nat ensures u.log[(k, t)] == ServedSoFar(count, u, k, t) {
      UnservedUpdate(s, u, i, t);
    }
  }

  lemma UnservedUpdate(s: State, u: State, i: nat, t: nat)
    requires i < |s.drains| == |u.drains| && u.drains == s.drains[i := u.drains[i]]
    requires Unserved(s.drains[i], t) <==> Unserved(u.drains[i], t)
    ensures SomeUnserved(s, t) <==> SomeUnserved(u, t)
  {
    forall j | 0 <= j < |s.drains| ensures Unserved(s.drains[j], t) <==> Unserved(u.drains[j], t) {}
  }

  // --- the workers

  lemma WorkerLockStep(count: nat -> nat, s: State, i: nat)
    requires Inv(count, s) && Next(count, s, WorkerLock(i)).Some?
    ensures Inv(count, Next(count, s, WorkerLock(i)).value)
  {
    hide Log, Locking, Tickets;
    var u := Next(count, s, WorkerLock(i)).value;
    SameLog(count, s, u);
    TotalUpdate(ActiveOne(), s.loops, i, Checking);
    SameTickets(count, s, u);
    LockTaken(s, u, i);
    hide Total;
  }

  lemma WorkerWakeStep(count: nat -> nat, s: State, i: nat)
    requires Inv(count, s) && Next(count, s, WorkerWake(i)).Some?
    ensures Inv(count, Next(count, s, WorkerWake(i)).value)
  {
    hide Log, Locking, Tickets;
    var u := Next(count, s, WorkerWake(i)).value;
    SameLog(count, s, u);
    TotalUpdate(ActiveOne(), s.loops, i, Top);
    SameTickets(count, s, u);
    LockKept(s, u);
    hide Total;
  }

  lemma LeaveLockStep(count: nat -> nat, s: State, i: nat)
    requires Inv(count, s) && Next(count, s, LeaveLock(i)).Some?
    ensures Inv(count, Next(count, s, LeaveLock(i)).value)
  {
    hide Log, Locking, Tickets;
    var u := Next(count, s, LeaveLock(i)).value;
    SameLog(count, s, u);
    TotalUpdate(ActiveOne(), s.loops, i, Leaving);
    SameTickets(count, s, u);
    LockTaken(s, u, i);
    hide Total;
  }

  lemma LeaveStep(count: nat -> nat, s: State, i: nat)
    requires Inv(count, s) && Next(count, s, Leave(i)).Some?
    ensures Inv(count, Next(count, s, Leave(i)).value)
  {
    hide Log, Locking, Tickets;
    var u := Next(count, s, Leave(i)).value;
    SameLog(count, s, u);
    TotalUpdate(ActiveOne(), s.loops, i, Top);
    SameTickets(count, s, u);
    LockReleased(s, u, i);
    hide Total;
  }

  lemma WorkerCheckStep(count: nat -> nat, s: State, i: nat)
    requires Inv(count, s) && Next(count, s, WorkerCheck(i)).Some?
    ensures Inv(count, Next(count, s, WorkerCheck(i)).value)
  {
    hide Next, Inv, Locking, Jobs, Tickets, Log, Wakeups;
    InvParts(count, s);
    var u := Next(count, s, WorkerCheck(i)).value;
    WorkerCheckIs(count, s, i);
    CheckSeesRun(s, i);
    WorkerCheckJobs(count, s, i);
    WorkerCheckWakeups(count, s, i);
    WorkerCheckLock(count, s, i);
    WorkerCheckDrains(count, s, i);
    InvFrom(count, u);
  }

  lemma InvParts(count: nat -> nat, s: State)
    requires Inv(count, s)
    ensures Shape(s) && Locking(s) && Jobs(s) && Tickets(count, s) && Log(count, s) && Wakeups(s)
  {}

  lemma InvFrom(count: nat -> nat, s: State)
    requires Shape(s) && Locking(s) && Jobs(s) && Tickets(count, s) && Log(count, s) && Wakeups(s)
    ensures Inv(count, s)
  {}

  lemma WorkerCheckIs(count: nat -> nat, s: State, i: nat)
    requires Shape(s) && Next(count, s, WorkerCheck(i)).Some?
    ensures 0 < i < |s.loops| && s.loops[i] == Checking
  {}

  lemma WorkerCheckLock(count: nat -> nat, s: State, i: nat)
    requires Shape(s) && Locking(s) && Next(count, s, WorkerCheck(i)).Some?
    requires Shape(Next(count, s, WorkerCheck(i)).value)
    ensures Locking(Next(count, s, WorkerCheck(i)).value)
  {
    hide Locking;
    LockReleased(s, Next(count, s, WorkerCheck(i)).value, i);
  }

  lemma WorkerCheckDrains(count: nat -> nat, s: State, i: nat)
    requires Shape(s) && Tickets(count, s) && Log(count, s) && Next(count, s, WorkerCheck(i)).Some?
    requires Shape(Next(count, s, WorkerCheck(i)).value)
    ensures Tickets(count, Next(count, s, WorkerCheck(i)).value) && Log(count, Next(count, s, WorkerCheck(i)).value)
  {
    hide Log, Tickets;
    var u := Next(count, s, WorkerCheck(i)).value;
    TotalUpdate(PendingOne(s.chunks), s.drains, i, u.drains[i]);
    DrainLog(count, s, u, i);
    QuietTickets(count, s, u, i);
  }

  lemma WorkerCheckJobs(count: nat -> nat, s: State, i: nat)
    requires Shape(s) && Jobs(s) && Next(count, s, WorkerCheck(i)).Some?
    requires s.job != 0 ==> InRun(s.caller) && s.job == s.generation
    ensures Shape(Next(count, s, WorkerCheck(i)).value) && Jobs(Next(count, s, WorkerCheck(i)).value)
  {
    hide Total, DrainNext, PublishNext, Chunks;
    WorkerCheckActive(count, s, i);
  }

  /** The count of active workers grows by the one that finds a job. */
  lemma WorkerCheckActive(count: nat -> nat, s: State, i: nat)
    requires Shape(s) && Next(count, s, WorkerCheck(i)).Some? && s.active == Total(ActiveOne(), s.loops)
    ensures Next(count, s, WorkerCheck(i)).value.active
         == Total(ActiveOne(), Next(count, s, WorkerCheck(i)).value.loops)
  {
    hide Total, DrainNext, PublishNext, Chunks;
    TotalUpdate(ActiveOne(), s.loops, i, Next(count, s, WorkerCheck(i)).value.loops[i]);
  }

  lemma WorkerCheckWakeups(count: nat -> nat, s: State, i: nat)
    requires Shape(s) && Jobs(s) && Wakeups(s) && Next(count, s, WorkerCheck(i)).Some?
    requires s.job != 0 ==> InRun(s.caller) && s.job == s.generation
    requires Shape(Next(count, s, WorkerCheck(i)).value)
    ensures Wakeups(Next(count, s, WorkerCheck(i)).value)
  {
    hide Total;
  }

  /** Thread i moving between places without a ticket keeps the tickets. */
  lemma QuietTickets(count: nat -> nat, s: State, u: State, i: nat)
    requires Shape(s) && Shape(u) && Tickets(count, s) && i < |s.drains| == |u.drains|
    requires u.next == s.next && u.chunks == s.chunks && u.remaining == s.remaining && u.generation == s.generation
    requires u.caller == s.caller && u.drains == s.drains[i := u.drains[i]]
    requires !HasTicket(s.drains[i]) && !HasTicket(u.drains[i]) && u.drains[i] != Exit
    requires Total(PendingOne(s.chunks), s.drains) == Total(PendingOne(s.chunks), u.drains)
    ensures Tickets(count, u)
  {
    hide Chunks, Total;
  }

  /** A worker that finds a job under the lock finds the job of the current run. */
  lemma CheckSeesRun(s: State, i: nat)
    requires Shape(s) && Locking(s) && Jobs(s) && 0 < i < |s.loops| && s.loops[i] == Checking
    ensures s.job != 0 ==> InRun(s.caller) && s.job == s.generation
  {
    assert HoldsLock(s, i) && s.owner == Held(i);
    assert !HoldsLock(s, 0);
  }

  // --- drain

  /** A thread in drain works on the current job. */
  lemma Draining1(s: State, i: nat)
    requires Shape(s) && Jobs(s) && i < |s.drains| && s.drains[i] != Out
    ensures InRun(s.caller) && s.works[i] == s.generation
  {
    if i > 0 { assert IsActive(s.loops[i]); }
  }

  lemma FetchStep(count: nat -> nat, s: State, i: nat)
    requires Inv(count, s) && i < |s.drains| && s.drains[i] == Fetch
    ensures Inv(count, Next(count, s, DrainStep(i)).value)
  {
    hide Log, Locking, Tickets, Total, PublishNext, Chunks;
    var u := Next(count, s, DrainStep(i)).value;
    Draining1(s, i);
    FetchLog(count, s, i);
    FetchTickets(count, s, i);
    LockKept(s, u);
  }

  lemma FetchLog(count: nat -> nat, s: State, i: nat)
    requires Shape(s) && Log(count, s) && i < |s.drains| && s.drains[i] == Fetch
    ensures Log(count, Next(count, s, DrainStep(i)).value)
  {
    hide Chunks;
    var u := Next(count, s, DrainStep(i)).value;
    forall k: nat, t: nat ensures u.log[(k, t)] == ServedSoFar(count, u, k, t) {
      if t != s.next { UnservedUpdate(s, u, i, t); } else { assert Unserved(u.drains[i], t); }
    }
  }

  lemma FetchTickets(count: nat -> nat, s: State, i: nat)
    requires Shape(s) && Tickets(count, s) && InRun(s.caller) && i < |s.drains| && s.drains[i] == Fetch
    ensures Tickets(count, Next(count, s, DrainStep(i)).value)
  {
    TotalUpdate(PendingOne(s.chunks), s.drains, i, Compare(s.next));
    hide Total, Chunks;
  }

  lemma CompareStep(count: nat -> nat, s: State, i: nat)
    requires Inv(count, s) && i < |s.drains| && s.drains[i].Compare?
    ensures Inv(count, Next(count, s, DrainStep(i)).value)
  {
    var u := Next(count, s, DrainStep(i)).value;
    Draining1(s, i);
    CompareLog(count, s, i);
    CompareTickets(count, s, i);
    hide Log, Locking, Tickets, Total;
    LockKept(s, u);
  }

  lemma CompareLog(count: nat -> nat, s: State, i: nat)
    requires Shape(s) && Log(count, s) && Tickets(count, s) && InRun(s.caller) && i < |s.drains| && s.drains[i].Compare?
    ensures Log(count, Next(count, s, DrainStep(i)).value)
  {
    var u := Next(count, s, DrainStep(i)).value;
    assert s.chunks == Chunks(count(s.generation));
    hide Chunks, Tickets;
    forall k: nat, t: nat ensures u.log[(k, t)] == ServedSoFar(count, u, k, t) {
      if t != s.drains[i].t || t < s.chunks { UnservedUpdate(s, u, i, t); }
    }
  }

  lemma CompareTickets(count: nat -> nat, s: State, i: nat)
    requires Shape(s) && Tickets(count, s) && InRun(s.caller) && i < |s.drains| && s.drains[i].Compare?
    ensures Tickets(count, Next(count, s, DrainStep(i)).value)
  {
    var t := s.drains[i].t;
    TotalUpdate(PendingOne(s.chunks), s.drains, i, if t >= s.chunks then Exit else Serve(t));
    hide Total, Chunks;
  }

  lemma ServeStep(count: nat -> nat, s: State, i: nat)
    requires Inv(count, s) && i < |s.drains| && s.drains[i].Serve?
    ensures Inv(count, Next(count, s, DrainStep(i)).value)
  {
    var u := Next(count, s, DrainStep(i)).value;
    Draining1(s, i);
    ServeLog(count, s, i);
    ServeTickets(count, s, i);
    hide Log, Locking, Tickets, Total;
    LockKept(s, u);
  }

  /** Serving a ticket is what makes it count as served: nobody else holds it. */
  lemma ServeLog(count: nat -> nat, s: State, i: nat)
    requires Shape(s) && Log(count, s) && Tickets(count, s) && InRun(s.caller) && i < |s.drains| && s.drains[i].Serve?
    requires s.works[i] == s.generation
    ensures Log(count, Next(count, s, DrainStep(i)).value)
  {
    var u, own := Next(count, s, DrainStep(i)).value, s.drains[i].t;
    assert s.chunks == Chunks(count(s.generation)) && own < s.next && own < s.chunks;
    assert Unserved(s.drains[i], own);
    assert !SomeUnserved(u, own);
    hide Chunks, Tickets;
    forall k: nat, t: nat ensures u.log[(k, t)] == ServedSoFar(count, u, k, t) {
      if t != own { UnservedUpdate(s, u, i, t); }
    }
  }

  lemma ServeTickets(count: nat -> nat, s: State, i: nat)
    requires Shape(s) && Tickets(count, s) && InRun(s.caller) && i < |s.drains| && s.drains[i].Serve?
    ensures Tickets(count, Next(count, s, DrainStep(i)).value)
  {
    TotalUpdate(PendingOne(s.chunks), s.drains, i, Sub(s.drains[i].t));
    hide Total, Chunks;
  }

  lemma SubStep(count: nat -> nat, s: State, i: nat)
    requires Inv(count, s) && i < |s.drains| && s.drains[i].Sub?
    ensures Inv(count, Next(count, s, DrainStep(i)).value)
  {
    var u := Next(count, s, DrainStep(i)).value;
    Draining1(s, i);
    DrainLog(count, s, u, i);
    SubTickets(count, s, i);
    hide Log, Locking, Tickets, Total;
    LockKept(s, u);
  }

  lemma SubTickets(count: nat -> nat, s: State, i: nat)
    requires Shape(s) && Tickets(count, s) && InRun(s.caller) && i < |s.drains| && s.drains[i].Sub?
    ensures Tickets(count, Next(count, s, DrainStep(i)).value)
  {
    TotalUpdate(PendingOne(s.chunks), s.drains, i, if s.remaining == 1 then NotifyWant else Fetch);
    TotalAtLeast(PendingOne(s.chunks), s.drains, i);
    hide Total, Chunks;
  }

  lemma NotifyLockStep(count: nat -> nat, s: State, i: nat)
    requires Inv(count, s) && i < |s.drains| && s.drains[i] == NotifyWant && s.owner == Free
    ensures Inv(count, Next(count, s, DrainStep(i)).value)
  {
    var u := Next(count, s, DrainStep(i)).value;
    DrainLog(count, s, u, i);
    TotalUpdate(PendingOne(s.chunks), s.drains, i, NotifyHeld);
    QuietTickets(count, s, u, i);
    NotifyLockQuiet(count, s, i);
    hide Log, Locking, Tickets, Total, Jobs, Wakeups;
    LockTaken(s, u, i);
  }

  lemma NotifyLockQuiet(count: nat -> nat, s: State, i: nat)
    requires Shape(s) && Jobs(s) && Wakeups(s) && i < |s.drains| && s.drains[i] == NotifyWant && s.owner == Free
    ensures Shape(Next(count, s, DrainStep(i)).value)
    ensures Jobs(Next(count, s, DrainStep(i)).value) && Wakeups(Next(count, s, DrainStep(i)).value)
  {
    hide Total;
  }

  lemma NotifyDoneStep(count: nat -> nat, s: State, i: nat)
    requires Inv(count, s) && i < |s.drains| && s.drains[i] == NotifyHeld
    ensures Inv(count, Next(count, s, DrainStep(i)).value)
  {
    var u := Next(count, s, DrainStep(i)).value;
    DrainLog(count, s, u, i);
    TotalUpdate(PendingOne(s.chunks), s.drains, i, Fetch);
    QuietTickets(count, s, u, i);
    NotifyDoneQuiet(count, s, i);
    hide Log, Locking, Tickets, Total, Jobs, Wakeups;
    LockReleased(s, u, i);
  }

  lemma NotifyDoneQuiet(count: nat -> nat, s: State, i: nat)
    requires Shape(s) && Jobs(s) && Wakeups(s) && Locking(s) && i < |s.drains| && s.drains[i] == NotifyHeld
    ensures Shape(Next(count, s, DrainStep(i)).value)
    ensures Jobs(Next(count, s, DrainStep(i)).value) && Wakeups(Next(count, s, DrainStep(i)).value)
  {
    hide Total;
  }

  lemma ExitStep(count: nat -> nat, s: State, i: nat)
    requires Inv(count, s) && i < |s.drains| && s.drains[i] == Exit
    ensures Inv(count, Next(count, s, DrainStep(i)).value)
  {
    Draining1(s, i);
    InvParts(count, s);
    hide Inv, Next, Log, Locking, Total, Tickets, Jobs, Wakeups;
    ExitLog(count, s, i);
    ExitTickets(count, s, i);
    ExitJobs(count, s, i);
    ExitWakeups(count, s, i);
    ExitLock(count, s, i);
    InvFrom(count, Next(count, s, DrainStep(i)).value);
  }

  lemma ExitLock(count: nat -> nat, s: State, i: nat)
    requires Shape(s) && Locking(s) && InRun(s.caller) && i < |s.drains| && s.drains[i] == Exit
    ensures Shape(Next(count, s, DrainStep(i)).value) && Locking(Next(count, s, DrainStep(i)).value)
  {
    hide Locking;
    LockKept(s, Next(count, s, DrainStep(i)).value);
  }

  lemma ExitTickets(count: nat -> nat, s: State, i: nat)
    requires Shape(s) && Tickets(count, s) && InRun(s.caller) && i < |s.drains| && s.drains[i] == Exit
    ensures Shape(Next(count, s, DrainStep(i)).value) && Tickets(count, Next(count, s, DrainStep(i)).value)
  {
    TotalUpdate(PendingOne(s.chunks), s.drains, i, Out);
    hide Total, Chunks;
  }

  lemma ExitJobs(count: nat -> nat, s: State, i: nat)
    requires Shape(s) && Jobs(s) && InRun(s.caller) && i < |s.drains| && s.drains[i] == Exit
    ensures Shape(Next(count, s, DrainStep(i)).value) && Jobs(Next(count, s, DrainStep(i)).value)
  {
    if i > 0 { TotalUpdate(ActiveOne(), s.loops, i, LeaveWant); }
    hide Total;
  }

  lemma ExitWakeups(count: nat -> nat, s: State, i: nat)
    requires Shape(s) && Wakeups(s) && InRun(s.caller) && i < |s.drains| && s.drains[i] == Exit
    ensures Shape(Next(count, s, DrainStep(i)).value) && Wakeups(Next(count, s, DrainStep(i)).value)
  {}

  lemma ExitLog(count: nat -> nat, s: State, i: nat)
    requires Shape(s) && Log(count, s) && i < |s.drains| && s.drains[i] == Exit && InRun(s.caller)
    ensures Log(count, Next(count, s, DrainStep(i)).value)
  {
    DrainLog(count, s, Next(count, s, DrainStep(i)).value, i);
  }

  // ------------------------------------------------------------------------------------------
  // runs
  // ------------------------------------------------------------------------------------------

  lemma DrainStepInv(count: nat -> nat, s: State, i: nat)
    requires Inv(count, s) && i < |s.drains| && Next(count, s, DrainStep(i)).Some?
    ensures Inv(count, Next(count, s, DrainStep(i)).value)
  {
    hide Inv;
    match s.drains[i]
    case Fetch => FetchStep(count, s, i);
    case Compare(_) => CompareStep(count, s, i);
    case Serve(_) => ServeStep(count, s, i);
    case Sub(_) => SubStep(count, s, i);
    case NotifyWant => NotifyLockStep(count, s, i);
    case NotifyHeld => NotifyDoneStep(count, s, i);
    case Exit => ExitStep(count, s, i);
    case Out =>
  }

  /** Every step of every thread keeps the invariant. */
  lemma StepInv(count: nat -> nat, s: State, e: Event)
    requires Inv(count, s) && Next(count, s, e).Some?
    ensures Inv(count, Next(count, s, e).value)
  {
    hide Locking, Jobs, Tickets, Log, Wakeups;
    match e
    case Start => StartStep(count, s);
    case PublishLock => PublishLockStep(count, s);
    case PublishStep => PublishStepStep(count, s);
    case NotifyStep => NotifyStepStep(count, s);
    case WaitLock => WaitLockStep(count, s);
    case CheckRemaining => CheckRemainingStep(count, s);
    case CheckActive => CheckActiveStep(count, s);
    case WakeCaller => WakeCallerStep(count, s);
    case DrainStep(i) => DrainStepInv(count, s, i);
    case WorkerLock(i) => WorkerLockStep(count, s, i);
    case WorkerCheck(i) => WorkerCheckStep(count, s, i);
    case WorkerWake(i) => WorkerWakeStep(count, s, i);
    case LeaveLock(i) => LeaveLockStep(count, s, i);
    case Leave(i) => LeaveStep(count, s, i);
  }

  predicate Sized(s: State) { |s.loops| == |s.seen| == |s.woken| == |s.drains| == |s.works| >= 1 }

  /** The events lead from s to u. */
  ghost predicate Leads(count: nat -> nat, s: State, es: seq<Event>, u: State)
    decreases |es|
  {
    if es == [] then u == s
    else Sized(s) && Next(count, s, es[0]).Some? && Leads(count, Next(count, s, es[0]).value, es[1..], u)
  }

  lemma {:induction false} RunInv(count: nat -> nat, s: State, es: seq<Event>, u: State)
    requires Inv(count, s) && Leads(count, s, es, u)
    ensures Inv(count, u)
    decreases |es|
  {
    hide Inv;
    if es != [] {
      StepInv(count, s, es[0]);
      RunInv(count, Next(count, s, es[0]).value, es[1..], u);
    }
  }

  /**
   * Exactly once: after any interleaving of any number of workers over any sequence of jobs, whenever run
   * is about to return, every ticket of its job has been served exactly once and no other ticket of it ever
   * was, and no worker is in drain; and so for every earlier job, still.
   */
  lemma ExactlyOnce(count: nat -> nat, n: nat, es: seq<Event>, s: State)
    requires Leads(count, Init(n), es, s) && s.caller == WaitActive && s.active == 0
    ensures forall k: nat, t: nat :: 1 <= k <= s.generation ==> s.log[(k, t)] == if t < Chunks(count(k)) then 1 else 0
    ensures s.generation >= 1 && s.job == s.generation
    ensures forall i :: 0 <= i < |s.drains| ==> s.drains[i] == Out
  {
    InitInv(count, n);
    RunInv(count, Init(n), es, s);
    AllServed(count, s);
    NoneActive(s);
    var u := Next(count, s, CheckActive).value;
    hide Chunks;
    forall k: nat, t: nat | 1 <= k <= s.generation ensures s.log[(k, t)] == if t < Chunks(count(k)) then 1 else 0 {
      assert u.log[(k, t)] == ServedSoFar(count, u, k, t);
    }
  }

  /** No ticket of one job is ever served with another job's work, and none is out of range. */
  lemma NoForeignTicket(count: nat -> nat, n: nat, es: seq<Event>, s: State, i: nat)
    requires Leads(count, Init(n), es, s) && i < |s.drains| == |s.works| && s.drains[i].Serve?
    ensures s.works[i] == s.job == s.generation && InRun(s.caller)
    ensures s.drains[i].t < Chunks(count(s.generation))
    ensures s.log[(s.generation, s.drains[i].t)] == 0
  {
    InitInv(count, n);
    RunInv(count, Init(n), es, s);
    Draining1(s, i);
    var t := s.drains[i].t;
    assert Unserved(s.drains[i], t) && SomeUnserved(s, t);
    assert s.log[(s.generation, t)] == ServedSoFar(count, s, s.generation, t);
    hide Chunks;
  }

  /** The rows of a ticket. */
  predicate InTicket(count: nat, t: nat, row: nat) {
    t * K_CHUNK <= row < if t * K_CHUNK + K_CHUNK < count then t * K_CHUNK + K_CHUNK else count
  }

  /** Every row of a job is in exactly one of its tickets, and the tickets reach no further. */
  lemma RowOfTicket(count: nat, row: nat)
    requires row < count
    ensures row / K_CHUNK < Chunks(count) && InTicket(count, row / K_CHUNK, row)
    ensures forall t: nat :: InTicket(count, t, row) ==> t == row / K_CHUNK
  {}
}
