/**
 * The prepared MoE launch (adapter/moe_launch_prepared.py): a cache of launch plans keyed on every input of
 * the stock decisions, dropped when the environment it depends on may have changed, and checked against
 * the kernel cache on every call. Each launch must do exactly what the stock body would.
 */
module PreparedLaunch {
  import opened Wrappers

  type Vars = map<string, string>

  const PREFIX := "B12X_NEXT_"

  predicate Prefixed(key: string) { PREFIX <= key }

  /** An os.environ object; a tracked one counts its writes and deletes of prefixed keys. */
  datatype Environ = Environ(tracked: bool, vars: Vars)

  /** What the plan key adds to the call's own scalars. */
  datatype Setting = Setting(device: int, prequantized: bool, tileOverride: int, swapOverride: int)

  /** One call: its scalar arguments, the bytes of its scratch tensor, and its tensors. */
  datatype Call = Call(scalars: int, scratchBytes: nat, tensors: seq<nat>, stream: int)

  datatype Key = Key(scalars: int, scratchBytes: nat, setting: Setting)

  /** What the decision code settles: barrier fill, external planner, kernel contract, whether that kernel is kept in
      the kernel cache, and the cluster count. */
  datatype Decision = Decision(
    zeroBarrier: bool, externalPlan: bool, plannerArgs: seq<int>, kernel: int, cached: bool, mac: int, tail: seq<int>)

  datatype Result<T> = Ok(value: T) | Raised(message: string)

  type Decide = (Key, Vars) -> Result<Decision>

  /** Everything outside the adapter: environments, the write counter, the kernel cache and the settings. */
  datatype World = World(
    environs: map<nat, Environ>, current: nat, writes: nat,
    kernels: map<int, nat>, compiled: nat, setting: Setting)

  predicate Alive(w: World) { w.current in w.environs }

  function CurrentVars(w: World): Vars
    requires Alive(w)
  {
    w.environs[w.current].vars
  }

  /** A pointer argument is a function of the address, the element type and the alignment. */
  datatype Ptr = Ptr(address: nat, dtype: int, align: int)

  datatype Effect =
    FillBarrier(tensors: seq<nat>)
  | Planner(tensors: seq<nat>, args: seq<int>)
  | Kernel(obj: nat, pointers: seq<Ptr>, mac: int, tail: seq<int>, stream: int)
  | Error(message: string)

  function KeyOf(w: World, c: Call): Key { Key(c.scalars, c.scratchBytes, w.setting) }

  /** Which tensors become pointers, and with what type and alignment, for a kernel contract. */
  type Layout = int -> seq<(nat, int, int)>

  function Pointers(layout: Layout, d: Decision, c: Call): seq<Ptr> {
    var slots := layout(d.kernel);
    seq(|slots|, i requires 0 <= i < |slots| =>
      Ptr(if slots[i].0 < |c.tensors| then c.tensors[slots[i].0] else 0, slots[i].1, slots[i].2))
  }

  /** The kernel is launched last, each pointer slot with this call's tensor; before it the barrier is filled if the
      decision says so, and then the planner runs if it is external. */
  predicate InOrder(layout: Layout, d: Decision, obj: nat, c: Call, effects: seq<Effect>) {
    var n := |effects|;
    && n == (if d.zeroBarrier then 1 else 0) + (if d.externalPlan then 1 else 0) + 1
    && (d.zeroBarrier ==> effects[0] == FillBarrier(c.tensors))
    && (d.externalPlan ==> effects[n - 2] == Planner(c.tensors, d.plannerArgs))
    && effects[n - 1].Kernel? && effects[n - 1].obj == obj && effects[n - 1].mac == d.mac
    && effects[n - 1].tail == d.tail && effects[n - 1].stream == c.stream
    && |effects[n - 1].pointers| == |layout(d.kernel)|
    && forall i :: 0 <= i < |layout(d.kernel)| ==>
         var (slot, dtype, align) := layout(d.kernel)[i];
         && effects[n - 1].pointers[i].dtype == dtype && effects[n - 1].pointers[i].align == align
         && (slot < |c.tensors| ==> effects[n - 1].pointers[i].address == c.tensors[slot])
  }

  /** The effects of launching a decision with a compiled kernel, in order. */
  function Effects(layout: Layout, d: Decision, obj: nat, c: Call): (effects: seq<Effect>)
    ensures InOrder(layout, d, obj, c, effects)
  {
    (if d.zeroBarrier then [FillBarrier(c.tensors)] else [])
    + (if d.externalPlan then [Planner(c.tensors, d.plannerArgs)] else [])
    + [Kernel(obj, Pointers(layout, d, c), d.mac, d.tail, c.stream)]
  }

  /** _get_dynamic_kernel: the cached kernel, or a newly compiled one. */
  function GetKernel(w: World, d: Decision): (nat, World) {
    if d.cached && d.kernel in w.kernels then (w.kernels[d.kernel], w)
    else
      (w.compiled, w.(compiled := w.compiled + 1,
                      kernels := if d.cached then w.kernels[d.kernel := w.compiled] else w.kernels))
  }

  /** The stock body: decide on every call. */
  function StockLaunch(decide: Decide, layout: Layout, w: World, c: Call): (seq<Effect>, World)
    requires Alive(w)
  {
    match decide(KeyOf(w, c), CurrentVars(w))
    case Raised(message) => ([Error(message)], w)
    case Ok(d) =>
      var (obj, w') := GetKernel(w, d);
      (Effects(layout, d, obj, c), w')
  }

  // ------------------------------------------------------------------------------------------
  // what may happen between launches
  // ------------------------------------------------------------------------------------------

  datatype Event =
    Write(environ: nat, key: string, value: string)
  | Delete(environ: nat, key: string)
  | Replace(environ: nat, contents: Environ)     // os.environ = another object
  | Track                                        // track_environ on the current object
  | Set(setting: Setting)
  | ClearKernels
  | DropKernel(kernel: int)
  | Recompile(kernel: int)
  | Launch(call: Call)

  function Bump(w: World, environ: nat, key: string): nat
    requires environ in w.environs
  {
    if w.environs[environ].tracked && Prefixed(key) then w.writes + 1 else w.writes
  }

  /** The effect of an event other than a launch on the world. */
  function Apply(w: World, e: Event): World
    requires Alive(w) && !e.Launch?
  {
    match e
    case Write(o, key, value) =>
      if o !in w.environs then w
      else w.(environs := w.environs[o := w.environs[o].(vars := w.environs[o].vars[key := value])],
              writes := Bump(w, o, key))
    case Delete(o, key) =>
      if o !in w.environs then w
      else w.(environs := w.environs[o := w.environs[o].(vars := w.environs[o].vars - {key})],
              writes := Bump(w, o, key))
    case Replace(o, contents) =>
      if o in w.environs then w.(current := o) else w.(environs := w.environs[o := contents], current := o)
    case Track => w.(environs := w.environs[w.current := w.environs[w.current].(tracked := true)])
    case Set(setting) => w.(setting := setting)
    case ClearKernels => w.(kernels := map[])
    case DropKernel(kernel) => w.(kernels := w.kernels - {kernel})
    case Recompile(kernel) => w.(kernels := w.kernels[kernel := w.compiled], compiled := w.compiled + 1)
  }

  /** The stock run: the world and the effects of every launch. */
  function StockRun(decide: Decide, layout: Layout, w: World, es: seq<Event>): (World, seq<seq<Effect>>)
    requires Alive(w)
  {
    if es == [] then (w, [])
    else
      var (w1, out) := StockRun(decide, layout, w, es[..|es| - 1]);
      var e := es[|es| - 1];
      if !Alive(w1) then (w1, out)
      else if e.Launch? then
        var (effects, w2) := StockLaunch(decide, layout, w1, e.call);
        (w2, out + [effects])
      else (Apply(w1, e), out)
  }

  // ------------------------------------------------------------------------------------------
  // the adapter
  // ------------------------------------------------------------------------------------------

  /** A cached plan: the decision, the kernel it was built with and where that sits in the kernel cache. */
  datatype Plan = Plan(decision: Decision, obj: nat, kernelKey: int)

  const PLAN_CACHE_MAX := 4096
  const PTR_CACHE_MAX := 8192

  function Value(v: Vars, name: string): Option<string> { if name in v then Some(v[name]) else None }

  /** Decisions read only the prefixed part of the environment. */
  ghost predicate ReadsPrefixed(decide: Decide) {
    forall k: Key, v: Vars, v': Vars :: SamePrefixed(v, v') ==> decide(k, v) == decide(k, v')
  }

  ghost predicate SamePrefixed(v: Vars, v': Vars) {
    forall key: string :: Prefixed(key) ==> Value(v, key) == Value(v', key)
  }

  /** What the adapter remembers between launches: its plans, and the write count and environment they are for. */
  datatype Memo = Memo(plans: map<Key, Plan>, envGen: Option<nat>, envObj: Option<nat>)

  function Kept(m: Memo, w: World): Memo {
    if m.envGen == Some(w.writes) && m.envObj == Some(w.current) then m
    else Memo(map[], Some(w.writes), Some(w.current))
  }

  predicate Reuses(m: Memo, w: World, key: Key) {
    key in m.plans && m.plans[key].kernelKey in w.kernels && w.kernels[m.plans[key].kernelKey] == m.plans[key].obj
  }

  /** One launch by the adapter: what it remembers, what it issues, and the world after. */
  function PreparedStep(decide: Decide, layout: Layout, m: Memo, w: World, c: Call): (Memo, seq<Effect>, World)
    requires Alive(w)
  {
    var n, key := Kept(m, w), KeyOf(w, c);
    if Reuses(n, w, key) then (n, Effects(layout, n.plans[key].decision, n.plans[key].obj, c), w)
    else Built(decide, layout, n, w, c)
  }

  /** A plan miss. */
  function Built(decide: Decide, layout: Layout, n: Memo, w: World, c: Call): (Memo, seq<Effect>, World)
    requires Alive(w)
  {
    match decide(KeyOf(w, c), CurrentVars(w))
    case Raised(message) => (n, [Error(message)], w)
    case Ok(d) =>
      var (obj, w') := GetKernel(w, d);
      (n.(plans := PlansWith(n.plans, KeyOf(w, c), d, obj)), Effects(layout, d, obj, c), w')
  }

  /** Keep the plan if the kernel cache holds its kernel; forget any earlier one otherwise. */
  function PlansWith(plans: map<Key, Plan>, key: Key, d: Decision, obj: nat): map<Key, Plan> {
    if !d.cached then plans - {key}
    else (if |plans| >= PLAN_CACHE_MAX then map[] else plans)[key := Plan(d, obj, d.kernel)]
  }

  /** Every plan is the decision under these variables, and names the place its kernel is cached at. */
  ghost predicate RightPlans(decide: Decide, plans: map<Key, Plan>, vars: Vars) {
    forall k :: k in plans ==> decide(k, vars) == Ok(plans[k].decision)
                               && plans[k].decision.cached && plans[k].kernelKey == plans[k].decision.kernel
  }

  /** Compiled objects are numbered in order of compilation and each sits under one key. */
  ghost predicate KernelsApart(w: World) {
    && (forall q :: q in w.kernels ==> w.kernels[q] < w.compiled)
    && (forall q, q' :: q in w.kernels && q' in w.kernels && w.kernels[q] == w.kernels[q'] ==> q == q')
  }

  lemma GotKernel(w: World, d: Decision)
    requires KernelsApart(w)
    ensures var (obj, u) := GetKernel(w, d);
            && KernelsApart(u) && u.environs == w.environs && u.current == w.current && u.writes == w.writes
            && u.setting == w.setting
            && (if d.cached then d.kernel in u.kernels && u.kernels[d.kernel] == obj
                else forall q :: q in u.kernels ==> u.kernels[q] != obj)
  {}

  /** A plan miss is the stock launch, and keeps the plans right. */
  lemma BuiltIsStock(decide: Decide, layout: Layout, n: Memo, w: World, c: Call)
    requires Alive(w)
    ensures (Built(decide, layout, n, w, c).1, Built(decide, layout, n, w, c).2) == StockLaunch(decide, layout, w, c)
    ensures RightPlans(decide, n.plans, CurrentVars(w)) ==>
              RightPlans(decide, Built(decide, layout, n, w, c).0.plans, CurrentVars(w))
  {}

  /** A whole run of the adapter. */
  function PreparedRun(decide: Decide, layout: Layout, m: Memo, w: World, es: seq<Event>)
    : (Memo, seq<seq<Effect>>, World)
    requires Alive(w)
  {
    if es == [] then (m, [], w)
    else
      var (m1, outs, w1) := PreparedRun(decide, layout, m, w, es[..|es| - 1]);
      var e := es[|es| - 1];
      if !Alive(w1) then (m1, outs, w1)
      else if e.Launch? then
        var (m2, effects, w2) := PreparedStep(decide, layout, m1, w1, e.call);
        (m2, outs + [effects], w2)
      else (m1, outs, Apply(w1, e))
  }

  class Session {
    const decide: Decide
    const layout: Layout
    var w: World
    var plans: map<Key, Plan>
    var ptrs: map<(nat, int, int), Ptr>
    var envGen: Option<nat>
    var envObj: Option<nat>

    /** The next launch will keep its plans. */
    predicate Fresh()
      reads this
    {
      envGen == Some(w.writes) && envObj == Some(w.current)
    }

    ghost function Remembered(): Memo
      reads this
    {
      Memo(plans, envGen, envObj)
    }

    /** Every plan is the decision the stock code would take now. */
    ghost predicate PlansRight()
      reads this
    {
      Alive(w) && RightPlans(decide, plans, CurrentVars(w))
    }

    /** Everything but the plans themselves. */
    ghost predicate Sane()
      reads this
    {
      && Alive(w) && ReadsPrefixed(decide) && KernelsApart(w)
      && (envGen.Some? ==> envGen.value <= w.writes)
      && (envObj.Some? ==> envObj.value in w.environs)
      && (forall q :: q in ptrs ==> ptrs[q] == Ptr(q.0, q.1, q.2))
    }

    /** And the plans are right under the environment they were built under, unless a write was counted since. */
    ghost predicate Valid()
      reads this
    {
      Sane() && (envObj.Some? && envGen == Some(w.writes) ==> RightPlans(decide, plans, w.environs[envObj.value].vars))
    }

    constructor (d: Decide, l: Layout, world: World)
      requires Alive(world) && ReadsPrefixed(d) && world.kernels == map[]
      ensures Valid() && w == world && decide == d && layout == l && Remembered() == Memo(map[], None, None)
    {
      decide, layout, w := d, l, world;
      plans, ptrs, envGen, envObj := map[], map[], None, None;
    }

    /** _ptr: the cached pointer of an address, type and alignment, built on first use. */
    method PtrOf(address: nat, dtype: int, align: int) returns (p: Ptr)
      requires Sane()
      modifies this`ptrs
      ensures Sane() && p == Ptr(address, dtype, align)
    {
      var key := (address, dtype, align);
      if key in ptrs { return ptrs[key]; }
      if |ptrs| >= PTR_CACHE_MAX { ptrs := map[]; }
      p := Ptr(address, dtype, align);
      ptrs := ptrs[key := p];
    }

    /** _launch: the stock tail for a plan, with this call's tensors. */
    method Issue(d: Decision, obj: nat, c: Call) returns (effects: seq<Effect>)
      requires Sane()
      modifies this`ptrs
      ensures Sane() && effects == Effects(layout, d, obj, c) && InOrder(layout, d, obj, c, effects)
    {
      effects := [];
      if d.zeroBarrier { effects := effects + [FillBarrier(c.tensors)]; }
      if d.externalPlan { effects := effects + [Planner(c.tensors, d.plannerArgs)]; }
      var slots := layout(d.kernel);
      var pointers: seq<Ptr> := [];
      for i := 0 to |slots|
        invariant Sane() && |pointers| == i && pointers == Pointers(layout, d, c)[..i]
      {
        var p := PtrOf(if slots[i].0 < |c.tensors| then c.tensors[slots[i].0] else 0, slots[i].1, slots[i].2);
        pointers := pointers + [p];
      }
      assert pointers == Pointers(layout, d, c);
      effects := effects + [Kernel(obj, pointers, d.mac, d.tail, c.stream)];
    }

    /** Where the kernel cache holds this object; nowhere when it was compiled for one call. */
    method FindKernel(obj: nat) returns (key: Option<int>)
      ensures key.Some? ==> key.value in w.kernels && w.kernels[key.value] == obj
      ensures key.None? ==> forall q :: q in w.kernels ==> w.kernels[q] != obj
    {
      if q: int :| q in w.kernels && w.kernels[q] == obj { return Some(q); }
      key := None;
    }

    /** The launch will reuse a plan. */
    predicate Hit(c: Call)
      reads this
    {
      var key := KeyOf(w, c);
      Fresh() && key in plans && plans[key].kernelKey in w.kernels && w.kernels[plans[key].kernelKey] == plans[key].obj
    }

    /**
     * prepared_launch_dynamic_flat. A reused plan issues what it was built for; otherwise the launch is the
     * stock launch. With every plan right that is the stock launch too, kernel cache included.
     */
    method LaunchPrepared(c: Call) returns (effects: seq<Effect>)
      requires Sane()
      modifies this
      ensures Sane() && (old(Valid()) ==> Valid())
      ensures (Remembered(), effects, w) == PreparedStep(decide, layout, old(Remembered()), old(w), c)
      ensures old(Hit(c)) ==> w == old(w) && effects == Effects(layout, old(plans)[KeyOf(old(w), c)].decision,
                                                                old(plans)[KeyOf(old(w), c)].obj, c)
      ensures !old(Hit(c)) || old(Valid()) ==> (effects, w) == StockLaunch(decide, layout, old(w), c)
      ensures !old(Fresh()) ==> Valid()
      ensures envObj == Some(w.current) && envGen == Some(w.writes) && w.environs == old(w.environs)
      ensures w.current == old(w.current) && w.writes == old(w.writes) && w.setting == old(w.setting)
    {
      if envGen != Some(w.writes) || envObj != Some(w.current) {
        plans := map[];
        envGen, envObj := Some(w.writes), Some(w.current);
      }
      assert Remembered() == Kept(old(Remembered()), w);
      var key := KeyOf(w, c);
      if key in plans {
        var p := plans[key];
        if p.kernelKey in w.kernels && w.kernels[p.kernelKey] == p.obj {
          effects := Issue(p.decision, p.obj, c);
          return;
        }
      }
      ghost var was, before := Remembered(), w;
      BuiltIsStock(decide, layout, was, before, c);
      hide Built, StockLaunch, KernelsApart, ReadsPrefixed;
      effects := Build(key, c);
    }

    /** The plan miss: decide, fetch or compile the kernel, remember the plan if the kernel is cached. */
    method Build(key: Key, c: Call) returns (effects: seq<Effect>)
      requires Sane() && Fresh() && key == KeyOf(w, c)
      modifies this`w, this`plans, this`ptrs
      ensures Sane() && Fresh()
      ensures (Remembered(), effects, w) == Built(decide, layout, old(Remembered()), old(w), c)
      ensures var decided, k := decide(KeyOf(old(w), c), CurrentVars(old(w))), old(w).kernels;
              && (decided.Raised? ==> effects == [Error(decided.message)] && w == old(w))
              && (decided.Ok? ==>
                    var d := decided.value;
                    && (d.cached && d.kernel in k ==> InOrder(layout, d, k[d.kernel], c, effects) && w == old(w))
                    && (!(d.cached && d.kernel in k) ==>
                          && InOrder(layout, d, old(w).compiled, c, effects) && w.compiled == old(w).compiled + 1
                          && w.kernels == if d.cached then k[d.kernel := old(w).compiled] else k))
    {
      var decided := decide(key, CurrentVars(w));
      if decided.Raised? { return [Error(decided.message)]; }
      var d := decided.value;
      var (obj, w') := GetKernel(w, d);
      GotKernel(w, d);
      w := w';
      Remember(key, d, obj);
      hide KernelsApart, ReadsPrefixed, Effects;
      effects := Issue(d, obj, c);
    }

    /** Keep the plan under the key its kernel is cached at, if any. */
    method Remember(key: Key, d: Decision, obj: nat)
      requires Sane()
      requires if d.cached then d.kernel in w.kernels && w.kernels[d.kernel] == obj
               else forall q :: q in w.kernels ==> w.kernels[q] != obj
      modifies this`plans
      ensures Sane() && plans == PlansWith(old(plans), key, d, obj)
    {
      var kernelKey := FindKernel(obj);
      if kernelKey.None? {
        plans := plans - {key};
      } else {
        assert kernelKey.value == d.kernel;
        if |plans| >= PLAN_CACHE_MAX { plans := map[]; }
        plans := plans[key := Plan(d, obj, kernelKey.value)];
      }
    }

    /** Whether an event may pass unnoticed: a prefixed write to an untracked environment the plans were built under. */
    predicate Unnoticed(e: Event)
      reads this
    {
      (e.Write? || e.Delete?) && Prefixed(e.key) && e.environ in w.environs && !w.environs[e.environ].tracked
      && envObj == Some(e.environ)
    }

    /**
     * Anything else that happens: a noticed event keeps every plan that could be reused right; an unnoticed
     * one does exactly when the plans are the decisions under the written environment, or are due to be
     * dropped anyway.
     */
    method Happen(e: Event)
      requires Sane() && !e.Launch?
      modifies this`w
      ensures Sane() && w == Apply(old(w), e) && Remembered() == old(Remembered())
      ensures old(Valid()) && !old(Unnoticed(e)) ==> Valid()
      ensures old(Valid()) && old(Unnoticed(e)) ==>
                (Valid() <==> envGen != Some(w.writes) || RightPlans(decide, plans, w.environs[e.environ].vars))
    {
      w := Apply(w, e);
    }

    /** Every environment object there is counts its writes. */
    predicate AllTracked()
      reads this
    {
      forall o :: o in w.environs ==> w.environs[o].tracked
    }

    /**
     * Whole runs: over any interleaving of environment writes, deletes and replacements, setting changes,
     * kernel-cache changes, evictions and launches the session does what PreparedRun says; and as long as every
     * environment installed is tracked, each launch has the stock effects and the kernel cache stays the stock one.
     */
    method Run(es: seq<Event>) returns (outs: seq<seq<Effect>>)
      requires Sane()
      modifies this
      ensures Sane() && (Remembered(), outs, w) == PreparedRun(decide, layout, old(Remembered()), old(w), es)
      ensures old(Valid() && AllTracked()) && Tracked(es) ==>
                Valid() && AllTracked() && (w, outs) == StockRun(decide, layout, old(w), es)
    {
      outs := [];
      for i := 0 to |es|
        invariant Sane() && (Remembered(), outs, w) == PreparedRun(decide, layout, old(Remembered()), old(w), es[..i])
        invariant old(Valid() && AllTracked()) && Tracked(es) ==>
                    Valid() && AllTracked() && (w, outs) == StockRun(decide, layout, old(w), es[..i])
      {
        assert es[..i + 1][..i] == es[..i];
        if es[i].Launch? {
          var effects := LaunchPrepared(es[i].call);
          outs := outs + [effects];
        } else {
          Happen(es[i]);
        }
      }
      assert es[..|es|] == es;
    }
  }

  /** Every environment a run installs is tracked. */
  predicate Tracked(es: seq<Event>) {
    forall i :: 0 <= i < |es| && es[i].Replace? ==> es[i].contents.tracked
  }

  // ------------------------------------------------------------------------------------------
  // when a reused plan is still the stock launch
  // ------------------------------------------------------------------------------------------

  const NOTHING := Memo(map[], None, None)

  predicate NoLaunch(es: seq<Event>) { forall i :: 0 <= i < |es| ==> !es[i].Launch? }

  /** The world after events that are not launches. */
  function Applied(w: World, es: seq<Event>): (u: World)
    requires Alive(w) && NoLaunch(es)
    ensures Alive(u)
  {
    if es == [] then w else Apply(Applied(w, es[..|es| - 1]), es[|es| - 1])
  }

  /** From a cold start, the adapter and the stock code do the same over a launch, the events, and the launch again. */
  predicate Agree(decide: Decide, layout: Layout, w: World, c: Call, es: seq<Event>)
    requires Alive(w)
  {
    var run := [Launch(c)] + es + [Launch(c)];
    var (m, outs, u) := PreparedRun(decide, layout, NOTHING, w, run);
    (u, outs) == StockRun(decide, layout, w, run)
  }

  predicate Clears(es: seq<Event>) { ClearKernels in es }

  /** What can be checked before the second launch: the plan is for another environment object, write count or
      setting, or its kernel is gone, or no prefixed variable has changed. */
  ghost predicate Harmless(w: World, es: seq<Event>)
    requires Alive(w) && NoLaunch(es)
  {
    var u := Applied(w, es);
    || u.current != w.current || u.writes != w.writes || u.setting != w.setting || Clears(es)
    || SamePrefixed(CurrentVars(w), CurrentVars(u))
  }

  /** Events other than launches do the same to the environments whatever the kernel cache holds. */
  lemma {:induction false} AppliedSame(w: World, v: World, es: seq<Event>)
    requires Alive(w) && Alive(v) && NoLaunch(es) && v == w.(kernels := v.kernels, compiled := v.compiled)
    ensures var a, b := Applied(w, es), Applied(v, es); b == a.(kernels := b.kernels, compiled := b.compiled)
  {
    if es != [] { AppliedSame(w, v, es[..|es| - 1]); }
  }

  /** After a clearing every cached kernel is a later compilation; without one, a kernel no event touches stays. */
  lemma {:induction false} AppliedKernels(w: World, es: seq<Event>, kernel: int)
    requires Alive(w) && NoLaunch(es) && forall q :: q in w.kernels ==> w.kernels[q] < w.compiled
    ensures var u := Applied(w, es);
            && w.compiled <= u.compiled
            && (Clears(es) ==> forall q :: q in u.kernels ==> u.kernels[q] >= w.compiled)
            && (!Clears(es) && DropKernel(kernel) !in es && Recompile(kernel) !in es && kernel in w.kernels ==>
                  kernel in u.kernels && u.kernels[kernel] == w.kernels[kernel])
  {
    if es != [] {
      var front, e := es[..|es| - 1], es[|es| - 1];
      AppliedKernels(w, front, kernel);
      assert es == front + [e];
    }
  }

  /** A run without launches after a first one only moves the world. */
  lemma {:induction false} RunBetween(decide: Decide, layout: Layout, w: World, c: Call, es: seq<Event>)
    requires Alive(w) && NoLaunch(es)
    ensures var (m1, effects, w1) := PreparedStep(decide, layout, NOTHING, w, c);
            && Alive(w1)
            && PreparedRun(decide, layout, NOTHING, w, [Launch(c)] + es) == (m1, [effects], Applied(w1, es))
            && StockRun(decide, layout, w, [Launch(c)] + es) == (Applied(w1, es), [effects])
  {
    var run := [Launch(c)] + es;
    var first := Kept(NOTHING, w);
    BuiltIsStock(decide, layout, first, w, c);
    if es == [] {
      var (m1, effects, w1) := PreparedStep(decide, layout, NOTHING, w, c);
      assert (m1, effects, w1) == Built(decide, layout, first, w, c);
      hide PreparedStep, StockLaunch, Built;
      assert run == [Launch(c)] && run[..|run| - 1] == [] && run[|run| - 1] == Launch(c);
      assert PreparedRun(decide, layout, NOTHING, w, run[..|run| - 1]) == (NOTHING, [], w);
      assert StockRun(decide, layout, w, run[..|run| - 1]) == (w, []);
      assert PreparedRun(decide, layout, NOTHING, w, run) == (m1, [] + [effects], w1);
      assert StockRun(decide, layout, w, run) == (w1, [] + [effects]);
      assert [] + [effects] == [effects] && Applied(w1, es) == w1;
    } else {
      RunBetween(decide, layout, w, c, es[..|es| - 1]);
      assert run[..|run| - 1] == [Launch(c)] + es[..|es| - 1];
      hide PreparedStep, StockLaunch, Apply;
    }
  }

  lemma AgreeIsSecond(decide: Decide, layout: Layout, w: World, c: Call, es: seq<Event>)
    requires Alive(w) && NoLaunch(es)
    ensures var (m1, _, w1) := PreparedStep(decide, layout, NOTHING, w, c);
            && Alive(w1)
            && var (_, effects, u) := PreparedStep(decide, layout, m1, Applied(w1, es), c);
               Agree(decide, layout, w, c, es) <==> (effects, u) == StockLaunch(decide, layout, Applied(w1, es), c)
  {
    var run := [Launch(c)] + es + [Launch(c)];
    assert run[..|run| - 1] == [Launch(c)] + es && run[|run| - 1] == Launch(c);
    RunBetween(decide, layout, w, c, es);
    hide PreparedStep, StockLaunch, Applied;
    var (m1, first, w1) := PreparedStep(decide, layout, NOTHING, w, c);
    var (_, effects, u) := PreparedStep(decide, layout, m1, Applied(w1, es), c);
    var (stock, v) := StockLaunch(decide, layout, Applied(w1, es), c);
    assert PreparedRun(decide, layout, NOTHING, w, run).1 == [first] + [effects];
    assert StockRun(decide, layout, w, run) == (v, [first] + [stock]);
    assert ([first] + [effects])[1] == effects && ([first] + [stock])[1] == stock;
  }

  /** A harmless change leaves the second launch stock, whatever the decision reads of the prefixed variables. */
  lemma HarmlessAgrees(decide: Decide, layout: Layout, w: World, c: Call, es: seq<Event>)
    requires Alive(w) && KernelsApart(w) && NoLaunch(es) && ReadsPrefixed(decide) && Harmless(w, es)
    ensures Agree(decide, layout, w, c, es)
  {
    AgreeIsSecond(decide, layout, w, c, es);
    var (m1, first, w1) := PreparedStep(decide, layout, NOTHING, w, c);
    var u := Applied(w1, es);
    AppliedSame(w, w1, es);
    FirstPlan(decide, layout, w, c);
    var key := KeyOf(u, c);
    BuiltIsStock(decide, layout, Kept(m1, u), u, c);
    if Reuses(Kept(m1, u), u, key) {
      AppliedKernels(w1, es, m1.plans[key].kernelKey);
      assert SamePrefixed(CurrentVars(w), CurrentVars(u));
      assert decide(key, CurrentVars(u)) == decide(key, CurrentVars(w));
    }
  }

  /** After a first launch from a cold start there is at most its own plan. */
  lemma FirstPlan(decide: Decide, layout: Layout, w: World, c: Call)
    requires Alive(w) && KernelsApart(w)
    ensures var (m1, effects, w1) := PreparedStep(decide, layout, NOTHING, w, c);
            && m1.envGen == Some(w.writes) && m1.envObj == Some(w.current)
            && KernelsApart(w1) && w1 == w.(kernels := w1.kernels, compiled := w1.compiled)
            && (forall k :: k in m1.plans ==>
                  && k == KeyOf(w, c) && decide(k, CurrentVars(w)) == Ok(m1.plans[k].decision)
                  && m1.plans[k].decision.cached
                  && m1.plans[k].kernelKey == m1.plans[k].decision.kernel && m1.plans[k].obj < w1.compiled)
  {
    var decided := decide(KeyOf(w, c), CurrentVars(w));
    if decided.Ok? { GotKernel(w, decided.value); }
  }

  /** A decision that asks for a barrier fill unless one variable is as it was, with its own kernel. */
  function Watches(name: string, was: Option<string>, kernel: int): Decide {
    (k: Key, v: Vars) => Ok(Decision(Value(v, name) != was, false, [], kernel, true, 1, []))
  }

  /** The kernel keys of the events. */
  function Touched(es: seq<Event>): set<int> {
    if es == [] then {}
    else
      var e := es[|es| - 1];
      Touched(es[..|es| - 1]) + if e.DropKernel? || e.Recompile? then {e.kernel} else {}
  }

  lemma {:induction false} TouchedHolds(es: seq<Event>, kernel: int)
    ensures DropKernel(kernel) in es || Recompile(kernel) in es ==> kernel in Touched(es)
  {
    if es != [] {
      TouchedHolds(es[..|es| - 1], kernel);
      assert es == es[..|es| - 1] + [es[|es| - 1]];
    }
  }

  /** An integer above a finite set. */
  lemma Above(keys: set<int>) returns (k: int)
    ensures forall q :: q in keys ==> q < k
    decreases |keys|
  {
    if q: int :| q in keys {
      var b := Above(keys - {q});
      k := if b > q then b else q + 1;
      forall x | x in keys ensures x < k { assert x == q || x in keys - {q}; }
    } else {
      k := 0;
    }
  }

  /** Where the change is not harmless, some decision over prefixed variables makes the second launch stale. */
  lemma HarmfulStale(w: World, c: Call, es: seq<Event>) returns (decide: Decide)
    requires Alive(w) && KernelsApart(w) && NoLaunch(es) && !Harmless(w, es)
    ensures ReadsPrefixed(decide) && forall layout :: !Agree(decide, layout, w, c, es)
  {
    var u := Applied(w, es);
    var name: string :| Prefixed(name) && Value(CurrentVars(w), name) != Value(CurrentVars(u), name);
    var kernel := Above(w.kernels.Keys + Touched(es));
    TouchedHolds(es, kernel);
    decide := Watches(name, Value(CurrentVars(w), name), kernel);
    forall layout ensures !Agree(decide, layout, w, c, es) { StaleSecond(layout, w, c, es, name, kernel); }
  }

  /** With an own kernel that nothing touches, the second launch reuses the first plan although its decision changed. */
  lemma StaleSecond(layout: Layout, w: World, c: Call, es: seq<Event>, name: string, kernel: int)
    requires Alive(w) && KernelsApart(w) && NoLaunch(es) && Applied(w, es).current == w.current
    requires Applied(w, es).writes == w.writes && Applied(w, es).setting == w.setting && !Clears(es)
    requires kernel !in w.kernels && DropKernel(kernel) !in es && Recompile(kernel) !in es
    requires Value(CurrentVars(w), name) != Value(CurrentVars(Applied(w, es)), name)
    ensures !Agree(Watches(name, Value(CurrentVars(w), name), kernel), layout, w, c, es)
  {
    var decide := Watches(name, Value(CurrentVars(w), name), kernel);
    AgreeIsSecond(decide, layout, w, c, es);
    var (m1, first, w1) := PreparedStep(decide, layout, NOTHING, w, c);
    AppliedSame(w, w1, es);
    AppliedKernels(w1, es, kernel);
    var u := Applied(w1, es);
    assert Reuses(m1, u, KeyOf(u, c));
    assert PreparedStep(decide, layout, m1, u, c).1[0].Kernel?;
    assert StockLaunch(decide, layout, u, c).0[0].FillBarrier?;
  }

  /** The exact condition: the second launch is the stock launch for every decision that reads only prefixed variables
      if and only if the change is harmless. */
  lemma SecondLaunchExactly(w: World, c: Call, es: seq<Event>)
    requires Alive(w) && KernelsApart(w) && NoLaunch(es)
    ensures (forall decide, layout :: ReadsPrefixed(decide) ==> Agree(decide, layout, w, c, es)) <==> Harmless(w, es)
  {
    if Harmless(w, es) {
      forall decide, layout | ReadsPrefixed(decide) ensures Agree(decide, layout, w, c, es) {
        HarmlessAgrees(decide, layout, w, c, es);
      }
    } else {
      var decide := HarmfulStale(w, c, es);
      var layout: Layout := _ => [];
      assert !Agree(decide, layout, w, c, es);
    }
  }

  /** For one write: it is harmless exactly when it is to another environment, counted, to a variable the decisions do
      not read, or writes the value that is there. */
  lemma WriteExactly(w: World, c: Call, environ: nat, key: string, value: string)
    requires Alive(w) && KernelsApart(w)
    ensures (forall decide, layout :: ReadsPrefixed(decide) ==>
              Agree(decide, layout, w, c, [Write(environ, key, value)]))
            <==> (environ != w.current || w.environs[environ].tracked || !Prefixed(key)
                  || (key in CurrentVars(w) && CurrentVars(w)[key] == value))
  {
    var es := [Write(environ, key, value)];
    assert es[..0] == [];
    assert Applied(w, es) == Apply(w, es[0]);
    SecondLaunchExactly(w, c, es);
    if Prefixed(key) {
      assert SamePrefixed(CurrentVars(w), CurrentVars(w)[key := value])
             <==> key in CurrentVars(w) && CurrentVars(w)[key] == value;
    }
  }

  /** And for one delete: the variable is not set. */
  lemma DeleteExactly(w: World, c: Call, environ: nat, key: string)
    requires Alive(w) && KernelsApart(w)
    ensures (forall decide, layout :: ReadsPrefixed(decide) ==> Agree(decide, layout, w, c, [Delete(environ, key)]))
            <==> (environ != w.current || w.environs[environ].tracked || !Prefixed(key) || key !in CurrentVars(w))
  {
    var es := [Delete(environ, key)];
    assert es[..0] == [];
    assert Applied(w, es) == Apply(w, es[0]);
    SecondLaunchExactly(w, c, es);
    if Prefixed(key) {
      assert SamePrefixed(CurrentVars(w), CurrentVars(w) - {key}) <==> key !in CurrentVars(w);
    }
  }

  /** It happens: os.environ is replaced by an untracked object and written to between two launches of a call whose
      decision reads the variable. The adapter launches the kernel bare, the stock code fills the barrier first. */
  lemma StaleAfterUntrackedWrite(layout: Layout)
    ensures var name := PREFIX + "X";
            var decide := Watches(name, None, 0);
            var w := World(map[0 := Environ(true, map[])], 0, 0, map[], 0, Setting(0, false, 0, 0));
            var c := Call(0, 0, [], 0);
            var u := Apply(w, Replace(1, Environ(false, map[])));
            && ReadsPrefixed(decide) && Alive(u) && !Agree(decide, layout, u, c, [Write(1, name, "1")])
  {
    var name := PREFIX + "X";
    var w := World(map[0 := Environ(true, map[])], 0, 0, map[], 0, Setting(0, false, 0, 0));
    var u := Apply(w, Replace(1, Environ(false, map[])));
    var es := [Write(1, name, "1")];
    assert es[..0] == [];
    assert Applied(u, es) == Apply(u, es[0]);
    assert Prefixed(name);
    StaleSecond(layout, u, Call(0, 0, [], 0), es, name, 0);
  }
}
