/**
 * Progress of the thread pool (adapter/row_store.cpp): a rank that every step of a run lowers, except a wakeup
 * nobody asked for, and a step that lowers it as long as the run has not returned.
 */
module RowProgress {
  import opened Wrappers
  import opened RowPool

  function DrainWeight(chunks: nat): Drain -> nat {
    (d: Drain) =>
      match d
      case Out => 0
      case Exit => 10
      case Compare(t) => if t < chunks then 23 else 11
      case Fetch => 12
      case NotifyHeld => 19
      case NotifyWant => 20
      case Sub(_) => 21
      case Serve(_) => 22
  }

  /** A worker that has not seen the current job may yet take part in it; a notified one may yet get up. */
  function LoopWeight(s: State, i: nat): nat
    requires i < |s.loops| == |s.seen| == |s.woken|
  {
    match s.loops[i]
    case Top => if s.seen[i] == s.generation then 2 else 14
    case Checking => if s.seen[i] == s.generation then 1 else 13
    case Resting => if !s.woken[i] then 0 else if s.seen[i] == s.generation then 3 else 15
    case Working => 0
    case LeaveWant => 9
    case Leaving => 8
  }

  function LoopWeights(s: State): (w: seq<nat>)
    requires |s.loops| == |s.seen| == |s.woken|
    ensures |w| == |s.loops|
  {
    seq(|s.loops|, i requires 0 <= i < |s.loops| => LoopWeight(s, i))
  }

  function CallerWeight(count: nat -> nat, s: State): nat {
    match s.caller
    case Idle => 0
    case PublishWant => 20 + 13 * Chunks(count(s.generation + 1)) + 32 * |s.loops|
    case Publish(done) =>
      13 + 13 * Chunks(count(s.generation + 1)) + 32 * |s.loops| + if done <= 5 then 6 - done else 0
    case NotifyAll => 13 + 16 * |s.loops|
    case Draining => 0
    case WaitWant => 4
    case WaitRemaining => 3
    case WaitActive => 2
    case Asleep => if s.signalled then 5 else 0
  }

  function Id(): nat -> nat { (n: nat) => n }

  function Rank(count: nat -> nat, s: State): nat
    requires Sized(s)
  {
    FetchWeight(s) + CallerWeight(count, s) + Total(DrainWeight(s.chunks), s.drains) + Total(Id(), LoopWeights(s))
  }

  function FetchWeight(s: State): nat { if InRun(s.caller) then 13 * Unfetched(s) else 0 }

  /** A step that brings the current run closer to its return: never one that wakes or starts a worker. */
  ghost predicate Helpful(count: nat -> nat, s: State, e: Event)
    requires Sized(s)
  {
    && !e.WorkerWake? && !e.WorkerLock? && !e.Start? && (e == WakeCaller ==> s.signalled)
    && Next(count, s, e).Some? && Sized(Next(count, s, e).value)
    && Rank(count, Next(count, s, e).value) < Rank(count, s)
  }

  lemma SameLoops(s: State, u: State)
    requires Sized(s) && Sized(u) && u.loops == s.loops && u.seen == s.seen && u.woken == s.woken
            && u.generation == s.generation
    ensures LoopWeights(u) == LoopWeights(s)
  {}

  lemma LoopChange(s: State, u: State, i: nat)
    requires Sized(s) && Sized(u) && |u.loops| == |s.loops| && i < |s.loops| && u.generation == s.generation
    requires forall j :: 0 <= j < |s.loops| && j != i ==>
              u.loops[j] == s.loops[j] && u.seen[j] == s.seen[j] && u.woken[j] == s.woken[j]
    ensures Total(Id(), LoopWeights(u)) + LoopWeight(s, i) == Total(Id(), LoopWeights(s)) + LoopWeight(u, i)
  {
    assert LoopWeights(u) == LoopWeights(s)[i := LoopWeight(u, i)];
    TotalUpdate(Id(), LoopWeights(s), i, LoopWeight(u, i));
  }

  /** Raising every weight by at most 15 raises the total by less than 16 each. */
  lemma {:induction false} TotalRise(w: seq<nat>, v: seq<nat>)
    requires |w| == |v| && forall i :: 0 <= i < |w| ==> v[i] <= w[i] + 15
    ensures Total(Id(), v) <= Total(Id(), w) + 15 * |w|
  {
    if w != [] { TotalRise(w[..|w| - 1], v[..|v| - 1]); }
  }

  lemma DrainHelps(count: nat -> nat, s: State, i: nat)
    requires Inv(count, s) && i < |s.drains| && Next(count, s, DrainStep(i)).Some?
    ensures Helpful(count, s, DrainStep(i))
  {
    InvParts(count, s);
    hide Inv, Locking, Tickets, Log, Wakeups, Helpful;
    Draining1(s, i);
    hide Jobs;
    match s.drains[i]
    case NotifyHeld => NotifyHeldHelps(count, s, i);
    case Exit => ExitHelps(count, s, i);
    case Out =>
    case _ => TicketHelps(count, s, i);
  }

  lemma TicketHelps(count: nat -> nat, s: State, i: nat)
    requires Shape(s) && InRun(s.caller) && i < |s.drains| && Next(count, s, DrainStep(i)).Some?
    requires s.drains[i] != NotifyHeld && s.drains[i] != Exit
    ensures Helpful(count, s, DrainStep(i))
  {
    hide Total, Chunks, PublishNext;
    var u := Next(count, s, DrainStep(i)).value;
    TotalUpdate(DrainWeight(s.chunks), s.drains, i, u.drains[i]);
    SameLoops(s, u);
    assert CallerWeight(count, u) == CallerWeight(count, s);
    hide LoopWeights, CallerWeight;
  }

  lemma NotifyHeldHelps(count: nat -> nat, s: State, i: nat)
    requires Shape(s) && InRun(s.caller) && i < |s.drains| && s.drains[i] == NotifyHeld
    ensures Helpful(count, s, DrainStep(i))
  {
    var u := Next(count, s, DrainStep(i)).value;
    TotalUpdate(DrainWeight(s.chunks), s.drains, i, Fetch);
    SameLoops(s, u);
    assert CallerWeight(count, u) <= CallerWeight(count, s) + 5;
    hide Total, LoopWeights, CallerWeight;
  }

  lemma ExitHelps(count: nat -> nat, s: State, i: nat)
    requires Shape(s) && InRun(s.caller) && i < |s.drains| && s.drains[i] == Exit
    ensures Helpful(count, s, DrainStep(i))
  {
    hide Chunks, PublishNext;
    var u := Next(count, s, DrainStep(i)).value;
    TotalUpdate(DrainWeight(s.chunks), s.drains, i, Out);
    if i > 0 { LoopChange(s, u, i); } else { SameLoops(s, u); }
    hide Total, LoopWeights;
  }

  lemma LoopsAtPublish(s: State)
    requires Shape(s) && Locking(s) && s.caller.Publish? && s.caller.done == 4
    ensures forall i :: 0 <= i < |s.loops| ==> s.loops[i] != Checking
  {
    assert HoldsLock(s, 0) && s.owner == Held(0);
    forall i | 0 <= i < |s.loops| ensures s.loops[i] != Checking {
      if i != 0 { assert !HoldsLock(s, i); }
    }
  }

  lemma CallerHelps(count: nat -> nat, s: State, e: Event)
    requires Inv(count, s) && Next(count, s, e).Some?
    requires e == PublishLock || e == PublishStep || e == WaitLock || e == CheckRemaining || e == CheckActive
             || (e == WakeCaller && s.signalled)
    ensures Helpful(count, s, e)
  {
    InvParts(count, s);
    hide Inv, Locking, Tickets, Log, Wakeups, Jobs;
    if e == PublishStep {
      hide Helpful;
      PublishHelps(count, s);
    } else {
      hide Helpful;
      CallerMoveHelps(count, s, e);
    }
  }

  lemma CallerMoveHelps(count: nat -> nat, s: State, e: Event)
    requires Shape(s) && Next(count, s, e).Some?
    requires e == PublishLock || e == WaitLock || e == CheckRemaining || e == CheckActive
             || (e == WakeCaller && s.signalled)
    ensures Helpful(count, s, e)
  {
    hide Total, Chunks, DrainNext, PublishNext;
    SameLoops(s, Next(count, s, e).value);
    hide LoopWeights;
  }

  lemma PublishHelps(count: nat -> nat, s: State)
    requires Inv(count, s) && s.caller.Publish?
    ensures Helpful(count, s, PublishStep)
  {
    InvParts(count, s);
    hide Inv, Log, Wakeups, Next, Rank, Helpful, Chunks;
    NobodyOutsideRun(s);
    TotalZero(DrainWeight(s.chunks), s.drains);
    hide Total, Jobs;
    if s.caller.done == 4 {
      LoopsAtPublish(s);
      hide Locking;
      PublishedHelps(count, s);
    } else {
      hide Tickets, Locking;
      PublishingHelps(count, s);
    }
  }

  lemma PublishingHelps(count: nat -> nat, s: State)
    requires Shape(s) && s.caller.Publish? && s.caller.done < 4
    requires forall i :: 0 <= i < |s.drains| ==> s.drains[i] == Out
    ensures Helpful(count, s, PublishStep)
  {
    var u := Next(count, s, PublishStep).value;
    TotalZero(DrainWeight(s.chunks), s.drains);
    TotalZero(DrainWeight(u.chunks), s.drains);
    SameLoops(s, u);
    hide Total, LoopWeights, Chunks;
  }

  lemma PublishedHelps(count: nat -> nat, s: State)
    requires Shape(s) && Tickets(count, s) && s.caller == Publish(4)
    requires forall i :: 0 <= i < |s.loops| ==> s.loops[i] != Checking
    requires Total(DrainWeight(s.chunks), s.drains) == 0
    ensures Helpful(count, s, PublishStep)
  {
    var u := Next(count, s, PublishStep).value;
    TotalRise(LoopWeights(s), LoopWeights(u));
    assert Unfetched(u) == Chunks(count(s.generation + 1)) && CallerWeight(count, u) == 13 + 16 * |s.loops|;
    hide Total, LoopWeights, Chunks, Tickets, Shape;
  }

  lemma NotifyHelps(count: nat -> nat, s: State)
    requires Inv(count, s) && s.caller == NotifyAll
    ensures Helpful(count, s, NotifyStep)
  {
    var u := Next(count, s, NotifyStep).value;
    TotalUpdate(DrainWeight(s.chunks), s.drains, 0, Fetch);
    TotalRise(LoopWeights(s), LoopWeights(u));
    hide Total, LoopWeights, Locking, Log, Wakeups, Chunks, Jobs, Tickets;
  }

  lemma WorkerHelps(count: nat -> nat, s: State, i: nat, e: Event)
    requires Inv(count, s) && Next(count, s, e).Some?
    requires e == WorkerCheck(i) || e == LeaveLock(i) || e == Leave(i)
    ensures Helpful(count, s, e)
  {
    InvParts(count, s);
    WorkerEvent(count, s, i, e);
    assert IsActive(s.loops[i]) ==> s.seen[i] == s.generation;
    hide Inv, Locking, Tickets, Log, Wakeups, Jobs, Next, Total, LoopWeights, CallerWeight, LoopWeight, DrainWeight;
    var u := Next(count, s, e).value;
    WorkerEffect(count, s, i, e);
    LoopChange(s, u, i);
    TotalUpdate(DrainWeight(s.chunks), s.drains, i, u.drains[i]);
  }

  lemma WorkerEvent(count: nat -> nat, s: State, i: nat, e: Event)
    requires Shape(s) && Next(count, s, e).Some?
    requires e == WorkerCheck(i) || e == LeaveLock(i) || e == Leave(i)
    ensures i < |s.loops| && s.drains[i] == Out && Sized(Next(count, s, e).value)
    ensures |Next(count, s, e).value.loops| == |s.loops| && Next(count, s, e).value.generation == s.generation
    ensures forall j :: 0 <= j < |s.loops| && j != i ==>
              Next(count, s, e).value.loops[j] == s.loops[j] && Next(count, s, e).value.seen[j] == s.seen[j]
              && Next(count, s, e).value.woken[j] == s.woken[j]
    ensures |Next(count, s, e).value.drains| == |s.drains|
    ensures Next(count, s, e).value.drains == s.drains[i := Next(count, s, e).value.drains[i]]
  {
    hide Chunks;
  }

  lemma WorkerEffect(count: nat -> nat, s: State, i: nat, e: Event)
    requires Shape(s) && Next(count, s, e).Some? && i < |s.loops| && s.drains[i] == Out
    requires e == WorkerCheck(i) || e == LeaveLock(i) || e == Leave(i)
    requires IsActive(s.loops[i]) ==> s.seen[i] == s.generation
    ensures var u := Next(count, s, e).value;
            && Sized(u) && |u.drains| == |s.drains| && u.next == s.next && u.chunks == s.chunks && u.caller == s.caller
            && DrainWeight(s.chunks)(s.drains[i]) == 0
            && CallerWeight(count, u) + LoopWeight(u, i) + DrainWeight(s.chunks)(u.drains[i])
               < CallerWeight(count, s) + LoopWeight(s, i)
  {
    hide Chunks;
  }

  /** While a run is going on there is always a helpful step, by the caller or a worker that is up already. */
  lemma HelpfulStep(count: nat -> nat, s: State) returns (e: Event)
    requires Inv(count, s) && s.caller != Idle
    ensures Sized(s) && Helpful(count, s, e)
  {
    if s.owner.Held? {
      var i := s.owner.thread;
      assert HoldsLock(s, i);
      e := HolderStep(count, s, i);
    } else {
      e := FreeStep(count, s);
    }
  }

  lemma HolderStep(count: nat -> nat, s: State, i: nat) returns (e: Event)
    requires Inv(count, s) && i < |s.loops| && HoldsLock(s, i)
    ensures Sized(s) && Helpful(count, s, e)
  {
    hide Inv, Helpful, Locking, Jobs, Tickets, Log, Wakeups;
    InvParts(count, s);
    if s.drains[i] == NotifyHeld {
      e := DrainStep(i);
      DrainHelps(count, s, i);
    } else if i == 0 {
      e := if s.caller.Publish? then PublishStep else if s.caller == WaitRemaining then CheckRemaining else CheckActive;
      CallerHelps(count, s, e);
    } else {
      e := if s.loops[i] == Checking then WorkerCheck(i) else Leave(i);
      WorkerHelps(count, s, i, e);
    }
  }

  lemma FreeStep(count: nat -> nat, s: State) returns (e: Event)
    requires Inv(count, s) && s.owner == Free && s.caller != Idle
    ensures Sized(s) && Helpful(count, s, e)
  {
    InvParts(count, s);
    hide Inv, Helpful, Jobs, Tickets, Log;
    assert !HoldsLock(s, 0);
    if s.caller == Asleep {
      if s.signalled {
        e := WakeCaller;
        CallerHelps(count, s, e);
      } else {
        e := WorkerStep(count, s);
      }
    } else if s.caller == Draining {
      e := DrainStep(0);
      DrainHelps(count, s, 0);
    } else if s.caller == NotifyAll {
      e := NotifyStep;
      NotifyHelps(count, s);
    } else {
      e := if s.caller == PublishWant then PublishLock else WaitLock;
      CallerHelps(count, s, e);
    }
  }

  /** The worker a sleeping caller waits for can step. */
  lemma WorkerStep(count: nat -> nat, s: State) returns (e: Event)
    requires Inv(count, s) && s.owner == Free && s.active > 0 && s.caller == Asleep
    ensures Sized(s) && Helpful(count, s, e)
  {
    var i := TotalWitness(ActiveOne(), s.loops);
    hide Inv, Helpful, Tickets, Log, Wakeups, Total, Jobs;
    assert i > 0 && !HoldsLock(s, i);
    if s.loops[i] == Working {
      e := DrainStep(i);
      DrainHelps(count, s, i);
    } else {
      e := LeaveLock(i);
      WorkerHelps(count, s, i, e);
    }
  }

  // ------------------------------------------------------------------------------------------
  // every run
  // ------------------------------------------------------------------------------------------

  /** A wakeup without a notification, which condition variables allow. */
  predicate Spurious(s: State, e: Event)
    requires Sized(s)
  {
    (e == WakeCaller && !s.signalled) || (e.WorkerWake? && e.i < |s.woken| && !s.woken[e.i])
  }

  /** Every event but the start of the next run lowers the rank, save that a spurious wakeup may raise it by 15. */
  lemma EveryStepCounts(count: nat -> nat, s: State, e: Event)
    requires Inv(count, s) && !e.Start? && Next(count, s, e).Some?
    ensures Sized(Next(count, s, e).value)
    ensures Rank(count, Next(count, s, e).value) < Rank(count, s) + if Spurious(s, e) then 16 else 0
  {
    hide Inv, Locking, Jobs, Tickets, Log, Wakeups, Rank, Next;
    InvParts(count, s);
    match e
    case PublishLock => CallerHelps(count, s, e);
    case PublishStep => CallerHelps(count, s, e);
    case NotifyStep => NotifyIs(count, s); NotifyHelps(count, s);
    case WaitLock => CallerHelps(count, s, e);
    case CheckRemaining => CallerHelps(count, s, e);
    case CheckActive => CallerHelps(count, s, e);
    case WakeCaller => if s.signalled { CallerHelps(count, s, e); } else { SpuriousCaller(count, s); }
    case DrainStep(i) => DrainIs(count, s, i); DrainHelps(count, s, i);
    case WorkerLock(i) => WorkerLockHelps(count, s, i);
    case WorkerCheck(i) => WorkerHelps(count, s, i, e);
    case WorkerWake(i) => WorkerWakeHelps(count, s, i);
    case LeaveLock(i) => WorkerHelps(count, s, i, e);
    case Leave(i) => WorkerHelps(count, s, i, e);
  }

  lemma NotifyIs(count: nat -> nat, s: State)
    requires Sized(s) && Next(count, s, NotifyStep).Some?
    ensures s.caller == NotifyAll
  {}

  lemma DrainIs(count: nat -> nat, s: State, i: nat)
    requires Sized(s) && Next(count, s, DrainStep(i)).Some?
    ensures i < |s.drains|
  {}

  lemma SpuriousCaller(count: nat -> nat, s: State)
    requires Shape(s) && Next(count, s, WakeCaller).Some?
    ensures Sized(Next(count, s, WakeCaller).value)
    ensures Rank(count, Next(count, s, WakeCaller).value) <= Rank(count, s) + 4
  {
    SameLoops(s, Next(count, s, WakeCaller).value);
    hide Total, LoopWeights, Chunks;
  }

  lemma WorkerLockHelps(count: nat -> nat, s: State, i: nat)
    requires Shape(s) && Next(count, s, WorkerLock(i)).Some?
    ensures Sized(Next(count, s, WorkerLock(i)).value)
    ensures Rank(count, Next(count, s, WorkerLock(i)).value) < Rank(count, s)
  {
    hide Total, Chunks, DrainNext, PublishNext;
    var u := Next(count, s, WorkerLock(i)).value;
    LoopChange(s, u, i);
    hide LoopWeights;
  }

  lemma WorkerWakeHelps(count: nat -> nat, s: State, i: nat)
    requires Shape(s) && Next(count, s, WorkerWake(i)).Some?
    ensures Sized(Next(count, s, WorkerWake(i)).value)
    ensures Rank(count, Next(count, s, WorkerWake(i)).value)
          < Rank(count, s) + if Spurious(s, WorkerWake(i)) then 16 else 0
  {
    var u := Next(count, s, WorkerWake(i)).value;
    hide Total, Chunks, DrainNext, PublishNext;
    LoopChange(s, u, i);
    hide LoopWeights;
  }

  /** How many of the events are spurious wakeups. */
  function SpuriousIn(count: nat -> nat, s: State, es: seq<Event>): nat
    decreases |es|
  {
    if es == [] || !Sized(s) || Next(count, s, es[0]).None? then 0
    else (if Spurious(s, es[0]) then 1 else 0) + SpuriousIn(count, Next(count, s, es[0]).value, es[1..])
  }

  /** No event begins another run. */
  ghost predicate OneRun(es: seq<Event>) { forall k :: 0 <= k < |es| ==> !es[k].Start? }

  /** In every run, whatever the schedule, the steps and the rank left never exceed the rank at the start and 16 for
      each spurious wakeup: an endless run would need endless spurious wakeups. */
  lemma {:induction false} RunBounded(count: nat -> nat, s: State, es: seq<Event>, u: State)
    requires Inv(count, s) && Leads(count, s, es, u) && OneRun(es)
    ensures Sized(s) && Sized(u) && |es| + Rank(count, u) <= Rank(count, s) + 16 * SpuriousIn(count, s, es)
    decreases |es|
  {
    InvParts(count, s);
    hide Inv, Rank, Next, Spurious;
    if es != [] {
      EveryStepCounts(count, s, es[0]);
      StepInv(count, s, es[0]);
      RunBounded(count, Next(count, s, es[0]).value, es[1..], u);
    }
  }

  /** Nothing can happen but the next run, or a worker getting up or taking the lock, or a spurious wakeup. */
  ghost predicate AtRest(count: nat -> nat, s: State)
    requires Sized(s)
  {
    forall e: Event :: Next(count, s, e).Some? ==> e.Start? || e.WorkerWake? || e.WorkerLock? || Spurious(s, e)
  }

  /**
   * run terminates: every schedule, from any reachable state and with any wakeups or none, is bounded, and where the
   * caller and the workers that are up have no step left, run has returned. So run returns even if no worker ever
   * wakes.
   */
  lemma RunReturns(count: nat -> nat, s: State, es: seq<Event>, u: State)
    requires Inv(count, s) && Leads(count, s, es, u) && OneRun(es)
    ensures Sized(s) && |es| <= Rank(count, s) + 16 * SpuriousIn(count, s, es)
    ensures Sized(u) && (AtRest(count, u) ==> u.caller == Idle)
  {
    RunBounded(count, s, es, u);
    RunInv(count, s, es, u);
    if u.caller != Idle {
      var e := HelpfulStep(count, u);
    }
  }

  ghost predicate Quiet(es: seq<Event>) {
    forall k :: 0 <= k < |es| ==> !es[k].WorkerWake? && !es[k].WorkerLock? && !es[k].Start?
  }

  /** In particular the caller and the workers that are up can bring the run to its return from every state in it. */
  lemma {:induction false} RunCanReturn(count: nat -> nat, s: State) returns (es: seq<Event>, u: State)
    requires Inv(count, s)
    ensures Leads(count, s, es, u) && Inv(count, u) && u.caller == Idle && Quiet(es)
    decreases Rank(count, s)
  {
    if s.caller == Idle {
      es, u := [], s;
    } else {
      var e := HelpfulStep(count, s);
      StepInv(count, s, e);
      var rest;
      rest, u := RunCanReturn(count, Next(count, s, e).value);
      es := [e] + rest;
      hide Inv, Next, Rank;
      assert es[1..] == rest;
    }
  }
}
