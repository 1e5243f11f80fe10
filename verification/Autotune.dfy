/**
 * Keeping the autotune cache across boots (adapter/autotune_keep.py): the launch fingerprint, the two sidecar
 * files, and every history of boots by this adapter and by the older one that compares `.launch` verbatim.
 */
module AutotuneKeys {
  import opened Wrappers

  /** The command line, the environment, and the base configuration an in-boot A/B recorded (None: key unset). */
  datatype Launch = Launch(argv: seq<string>, env: map<string, string>, base: map<string, Option<string>>)

  /** The switches of the adapter: which variables it reads, and which variables and options it ignores. */
  datatype Switches = Switches(prefixes: seq<string>, volatile: set<string>, ab: string, options: seq<string>)

  predicate StartsWith(s: string, p: string) { |p| <= |s| && s[..|p|] == p }

  predicate AnyPrefix(s: string, ps: seq<string>) { exists k :: 0 <= k < |ps| && StartsWith(s, ps[k]) }

  // ---- the command line ----

  /** a is an ignored option given as option=value. */
  predicate Inline(sw: Switches, a: string) { exists k :: 0 <= k < |sw.options| && StartsWith(a, sw.options[k] + "=") }

  /** The arguments without the ignored options and their values; skip: the first one is such a value. */
  function Stripped(sw: Switches, argv: seq<string>, skip: bool): seq<string> {
    if argv == [] then []
    else if skip then Stripped(sw, argv[1..], false)
    else if argv[0] in sw.options then Stripped(sw, argv[1..], true)
    else if Inline(sw, argv[0]) then Stripped(sw, argv[1..], false)
    else [argv[0]] + Stripped(sw, argv[1..], false)
  }

  method ArgvKey(sw: Switches, argv: seq<string>) returns (out: seq<string>)
    ensures out == Stripped(sw, argv, false)
    ensures forall a :: a in out ==> a in argv && a !in sw.options && !Inline(sw, a)
  {
    var skip := false;
    out := [];
    for i := 0 to |argv|
      invariant out + Stripped(sw, argv[i..], skip) == Stripped(sw, argv, false)
      invariant forall a :: a in out ==> a in argv && a !in sw.options && !Inline(sw, a)
    {
      var a := argv[i];
      assert argv[i..][1..] == argv[i + 1..];
      if skip { skip := false; continue; }
      if a in sw.options { skip := true; continue; }
      if Inline(sw, a) { continue; }
      out := out + [a];
    }
  }

  /** Arguments that are no ignored option are kept, in place. */
  lemma {:induction false} PlainKept(sw: Switches, a: seq<string>, b: seq<string>)
    requires forall k :: 0 <= k < |a| ==> a[k] !in sw.options && !Inline(sw, a[k])
    ensures Stripped(sw, a + b, false) == a + Stripped(sw, b, false)
  {
    if a == [] {
      assert a + b == b;
    } else {
      PlainKept(sw, a[1..], b);
      assert (a + b)[1..] == a[1..] + b && (a + b)[0] == a[0];
    }
  }

  /** An ignored option is dropped with its value, whatever the value; given as option=value it is dropped alone; and
      the last option of a line is dropped without one. */
  lemma OptionDropped(sw: Switches, a: seq<string>, option: string, value: string, b: seq<string>)
    requires forall k :: 0 <= k < |a| ==> a[k] !in sw.options && !Inline(sw, a[k])
    ensures option in sw.options ==> Stripped(sw, a + ([option, value] + b), false) == a + Stripped(sw, b, false)
    ensures option in sw.options ==> Stripped(sw, a + [option], false) == a
    ensures option !in sw.options && Inline(sw, option) ==>
              Stripped(sw, a + ([option] + b), false) == a + Stripped(sw, b, false)
    ensures Stripped(sw, a, false) == a
  {
    PlainKept(sw, a, [option, value] + b);
    PlainKept(sw, a, [option] + b);
    PlainKept(sw, a, [option]);
    PlainKept(sw, a, []);
    assert a + [] == a;
    assert ([option, value] + b)[1..][1..] == b && ([option] + b)[1..] == b && [option][1..] == [];
    assert Stripped(sw, [option], false) == if option in sw.options || Inline(sw, option) then [] else [option];
    assert [option, value] + b != [] && ([option, value] + b)[1..] != [];
  }

  /** No ignored option survives, so stripping again changes nothing. */
  lemma {:induction false} StrippedTwice(sw: Switches, argv: seq<string>, skip: bool)
    ensures Stripped(sw, Stripped(sw, argv, skip), false) == Stripped(sw, argv, skip)
  {
    if argv != [] {
      if skip { StrippedTwice(sw, argv[1..], false); }
      else if argv[0] in sw.options { StrippedTwice(sw, argv[1..], true); }
      else {
        StrippedTwice(sw, argv[1..], false);
        if !Inline(sw, argv[0]) {
          assert ([argv[0]] + Stripped(sw, argv[1..], false))[1..] == Stripped(sw, argv[1..], false);
        }
      }
    }
  }

  // ---- the environment ----

  /** What a launch's base configuration says about variable k, as far as the fingerprint looks. */
  function Setting(sw: Switches, l: Launch, k: string): Option<string> {
    if k in sw.volatile then None
    else if k in l.base then l.base[k]
    else if AnyPrefix(k, sw.prefixes) && !StartsWith(k, sw.ab) && k in l.env then Some(l.env[k])
    else None
  }

  /** The recorded base configuration overrides the environment, volatile variables never count, and of the environment
      only the adapters' own variables do, those of the A/B switch apart. */
  function KeyedEnv(sw: Switches, l: Launch): (e: map<string, string>)
    ensures forall k :: k in e ==> k !in sw.volatile
    ensures forall k :: k in l.base && k !in sw.volatile ==>
              (k in e <==> l.base[k].Some?) && (k in e ==> e[k] == l.base[k].value)
    ensures forall k :: k !in l.base && k !in sw.volatile ==>
              && (k in e <==> k in l.env && AnyPrefix(k, sw.prefixes) && !StartsWith(k, sw.ab))
              && (k in e ==> e[k] == l.env[k])
  {
    map k | k in l.env.Keys + l.base.Keys && Setting(sw, l, k).Some? :: Setting(sw, l, k).value
  }

  /** A digest of a payload with no collisions and no empty value. */
  type Hash = (seq<string>, map<string, string>) -> string

  ghost predicate Injective(h: Hash) {
    && (forall a, e :: h(a, e) != "")
    && forall a, e, b, f :: h(a, e) == h(b, f) ==> a == b && e == f
  }

  function Fingerprint(h: Hash, sw: Switches, l: Launch): string { h(Stripped(sw, l.argv, false), KeyedEnv(sw, l)) }

  function RawFingerprint(h: Hash, sw: Switches, l: Launch): string { h(l.argv, KeyedEnv(sw, l)) }

  /** The same launch up to volatile variables and the pool-size options. */
  ghost predicate Same(sw: Switches, l: Launch, m: Launch) {
    && Stripped(sw, l.argv, false) == Stripped(sw, m.argv, false)
    && forall k :: Setting(sw, l, k) == Setting(sw, m, k)
  }

  lemma KeyedEnvEqual(sw: Switches, l: Launch, m: Launch)
    ensures KeyedEnv(sw, l) == KeyedEnv(sw, m) <==> forall k :: Setting(sw, l, k) == Setting(sw, m, k)
  {
    forall k
      ensures k in KeyedEnv(sw, l) <==> Setting(sw, l, k).Some?
      ensures k in KeyedEnv(sw, m) <==> Setting(sw, m, k).Some?
    {}
    if KeyedEnv(sw, l) == KeyedEnv(sw, m) {
      forall k ensures Setting(sw, l, k) == Setting(sw, m, k) {
        assert k in KeyedEnv(sw, l) <==> k in KeyedEnv(sw, m);
        if k in KeyedEnv(sw, l) { assert KeyedEnv(sw, l)[k] == KeyedEnv(sw, m)[k]; }
      }
    }
  }

  /** Two launches share a fingerprint exactly when they are the same launch. */
  lemma FingerprintIsLaunch(h: Hash, sw: Switches, l: Launch, m: Launch)
    requires Injective(h)
    ensures Fingerprint(h, sw, l) == Fingerprint(h, sw, m) <==> Same(sw, l, m)
  {
    KeyedEnvEqual(sw, l, m);
  }

  /** A raw fingerprint that equals another launch's raw or stripped one is of the same launch. */
  lemma RawIsLaunch(h: Hash, sw: Switches, l: Launch, m: Launch)
    requires Injective(h)
    requires RawFingerprint(h, sw, l) == RawFingerprint(h, sw, m) || RawFingerprint(h, sw, l) == Fingerprint(h, sw, m)
    ensures Same(sw, l, m)
  {
    KeyedEnvEqual(sw, l, m);
    StrippedTwice(sw, m.argv, false);
  }
}

module AutotuneKeep {
  import opened Wrappers
  import opened AutotuneKeys

  /** The cache file, with the launch whose tuning produced it, and whether it parses as a JSON object. */
  datatype Cache = Cache(tuner: Launch, readable: bool)

  /** One rank's files: the cache, the text of `.launch`, the words of `.launch-pool`. */
  datatype Files = Files(cache: Option<Cache>, launch: Option<string>, pool: Option<seq<string>>)

  predicate SameLaunch(h: Hash, sw: Switches, f: Files, l: Launch) {
    var fp, raw := Fingerprint(h, sw, l), RawFingerprint(h, sw, l);
    && f.launch.Some?
    && var text := f.launch.value;
       (text != "" && (text == fp || text == raw))
       || (f.pool.Some? && |f.pool.value| == 2 && f.pool.value[0] == fp && f.pool.value[1] == text && text != "")
  }

  /** This launch would load the cache. */
  predicate Loadable(h: Hash, sw: Switches, f: Files, l: Launch) {
    f.cache.Some? && f.cache.value.readable && SameLaunch(h, sw, f, l)
  }

  /** A boot that ran to its end: by which adapter, which launch, whether another rank's digest made the engine drop
      the cache, and what a re-tune saved (None: nothing; else whether the file parses). */
  datatype Boot = Boot(older: bool, launch: Launch, dropped: bool, saved: Option<bool>)

  function Retuned(b: Boot): Option<Cache> {
    if b.saved.Some? then Some(Cache(b.launch, b.saved.value)) else None
  }

  /** The boot keeps the cache it finds. */
  predicate Keeps(h: Hash, sw: Switches, f: Files, b: Boot) {
    && !b.dropped
    && if b.older then f.cache.Some? && f.cache.value.readable && f.launch == Some(RawFingerprint(h, sw, b.launch))
       else Loadable(h, sw, f, b.launch)
  }

  function After(h: Hash, sw: Switches, f: Files, b: Boot): Files {
    var fp, raw := Fingerprint(h, sw, b.launch), RawFingerprint(h, sw, b.launch);
    var cache := if Keeps(h, sw, f, b) then f.cache else Retuned(b);
    if b.older then
      Files(cache, if cache.Some? then Some(raw) else f.launch, f.pool)
    else
      var pool := if f.cache.Some? && !Loadable(h, sw, f, b.launch) then None else f.pool;
      if cache == None then Files(None, f.launch, pool)
      else
        var launch := if Keeps(h, sw, f, b) && f.launch.Some? then f.launch.value else raw;
        Files(cache, Some(launch), Some([fp, launch]))
  }

  /** The files of one rank, as this adapter changes them. */
  class Sidecars {
    var cache: Option<Cache>
    var launch: Option<string>
    var pool: Option<seq<string>>

    ghost function State(): Files
      reads this
    {
      Files(cache, launch, pool)
    }

    /** _autotune_cache_digest: a cache that another launch tuned, or that does not parse, is deleted with its
        pool sidecar; true when there is a cache to load. */
    method Digest(h: Hash, sw: Switches, l: Launch) returns (loadable: bool)
      modifies this
      ensures loadable == Loadable(h, sw, old(State()), l)
      ensures loadable <==>
                && old(cache).Some? && old(cache).value.readable && old(launch).Some? && old(launch).value != ""
                && (|| old(launch).value == Fingerprint(h, sw, l)
                    || old(launch).value == RawFingerprint(h, sw, l)
                    || old(pool) == Some([Fingerprint(h, sw, l), old(launch).value]))
      ensures loadable || old(cache) == None ==> State() == old(State())
      ensures !loadable && old(cache).Some? ==> State() == old(State()).(cache := None, pool := None)
    {
      if cache == None { return false; }
      assert pool.Some? && |pool.value| == 2 ==> pool.value == [pool.value[0], pool.value[1]];
      var key := ArgvKey(sw, l.argv);
      var fp, raw := h(key, KeyedEnv(sw, l)), h(l.argv, KeyedEnv(sw, l));
      var same := false;
      if launch.Some? {
        if launch.value != "" && (launch.value == fp || launch.value == raw) {
          same := true;
        } else if pool.Some? {
          same := |pool.value| == 2 && pool.value[0] == fp && pool.value[1] == launch.value && launch.value != "";
        }
      }
      if !cache.value.readable || !same {
        cache := None;
        pool := None;
        return false;
      }
      loadable := true;
    }

    /** flashinfer_autotune_context around the engine's own gate and tuning pass. */
    method Tune(h: Hash, sw: Switches, b: Boot)
      requires !b.older
      modifies this
      ensures State() == After(h, sw, old(State()), b)
      ensures var fp, raw := Fingerprint(h, sw, b.launch), RawFingerprint(h, sw, b.launch);
              var loaded := Loadable(h, sw, old(State()), b.launch);
              && (loaded && !b.dropped ==>
                    cache == old(cache) && launch == old(launch) && pool == Some([fp, launch.value]))
              && (!(loaded && !b.dropped) && b.saved.Some? ==>
                    cache == Some(Cache(b.launch, b.saved.value)) && launch == Some(raw) && pool == Some([fp, raw]))
              && (!(loaded && !b.dropped) && b.saved.None? ==>
                    && cache == None && launch == old(launch)
                    && pool == if old(cache).Some? && !loaded then None else old(pool))
    {
      var before := Digest(h, sw, b.launch);
      if b.dropped { cache := None; }
      var kept := before && cache.Some?;
      if !kept { cache := Retuned(b); }
      if cache.Some? {
        var fp, text := Fingerprint(h, sw, b.launch), RawFingerprint(h, sw, b.launch);
        if kept {
          text := launch.value;
        } else {
          launch := Some(text);
        }
        pool := Some([fp, text]);
      }
    }
  }

  // ---- histories ----

  /** `.launch` names the tuner of the cache, and `.launch-pool` binds a launch to the same launch's `.launch`. */
  ghost predicate Bound(h: Hash, sw: Switches, f: Files) {
    && (f.cache.Some? ==> f.launch == Some(RawFingerprint(h, sw, f.cache.value.tuner)))
    && (f.pool.Some? ==> exists m: Launch, t: Launch :: Binds(h, sw, f.pool.value, m, t))
  }

  ghost predicate Binds(h: Hash, sw: Switches, words: seq<string>, m: Launch, t: Launch) {
    words == [Fingerprint(h, sw, m), RawFingerprint(h, sw, t)] && Same(sw, m, t)
  }

  function History(h: Hash, sw: Switches, f: Files, boots: seq<Boot>): Files {
    if boots == [] then f else After(h, sw, History(h, sw, f, boots[..|boots| - 1]), boots[|boots| - 1])
  }

  lemma BoundSame(h: Hash, sw: Switches, f: Files, l: Launch)
    requires Injective(h) && Bound(h, sw, f) && f.cache.Some? && SameLaunch(h, sw, f, l)
    ensures Same(sw, f.cache.value.tuner, l)
  {
    var t := f.cache.value.tuner;
    var text := RawFingerprint(h, sw, t);
    if text == Fingerprint(h, sw, l) || text == RawFingerprint(h, sw, l) {
      RawIsLaunch(h, sw, t, l);
    } else {
      var m, u :| Binds(h, sw, f.pool.value, m, u);
      FingerprintIsLaunch(h, sw, m, l);
      RawIsLaunch(h, sw, t, u);
    }
  }

  lemma BoundAfter(h: Hash, sw: Switches, f: Files, b: Boot)
    requires Injective(h) && Bound(h, sw, f)
    ensures Bound(h, sw, After(h, sw, f, b))
  {
    var g := After(h, sw, f, b);
    if g.pool.Some? && !b.older && g.cache.Some? {
      if Keeps(h, sw, f, b) { BoundSame(h, sw, f, b.launch); }
      assert Binds(h, sw, g.pool.value, b.launch, g.cache.value.tuner);
    }
  }

  /** Every history of completed boots, by either adapter, from an empty directory. */
  lemma {:induction false} HistoryBound(h: Hash, sw: Switches, boots: seq<Boot>)
    requires Injective(h)
    ensures Bound(h, sw, History(h, sw, Files(None, None, None), boots))
  {
    if boots != [] {
      HistoryBound(h, sw, boots[..|boots| - 1]);
      BoundAfter(h, sw, History(h, sw, Files(None, None, None), boots[..|boots| - 1]), boots[|boots| - 1]);
    }
  }

  /** Whatever the history, a cache that a boot keeps was tuned by the same launch up to volatile variables and the
      pool size. A re-tune by any launch therefore leaves no pool sidecar through which a different one could load
      it. */
  lemma KeptMeansSame(h: Hash, sw: Switches, boots: seq<Boot>, next: Boot)
    requires Injective(h)
    requires Keeps(h, sw, History(h, sw, Files(None, None, None), boots), next)
    ensures Same(sw, History(h, sw, Files(None, None, None), boots).cache.value.tuner, next.launch)
  {
    HistoryBound(h, sw, boots);
    BoundSame(h, sw, History(h, sw, Files(None, None, None), boots), next.launch);
  }

  /** A re-tune unbinds every sidecar of a different launch: none of them would load the new cache. */
  lemma RetuneUnbinds(h: Hash, sw: Switches, f: Files, b: Boot, l: Launch)
    requires Injective(h) && Bound(h, sw, f) && !Keeps(h, sw, f, b) && b.saved.Some? && !Same(sw, b.launch, l)
    ensures After(h, sw, f, b).cache == Some(Cache(b.launch, b.saved.value))
            && !SameLaunch(h, sw, After(h, sw, f, b), l)
  {
    BoundAfter(h, sw, f, b);
    if SameLaunch(h, sw, After(h, sw, f, b), l) { BoundSame(h, sw, After(h, sw, f, b), l); }
  }

  /** After a boot of this adapter the test is exact: a readable cache is loadable by a launch if and only if that
      launch is the tuner's up to volatile variables and the pool size. */
  lemma LoadableExactly(h: Hash, sw: Switches, boots: seq<Boot>, l: Launch)
    requires Injective(h) && boots != [] && !boots[|boots| - 1].older
    ensures var f := History(h, sw, Files(None, None, None), boots);
            f.cache.Some? && f.cache.value.readable ==>
              (Loadable(h, sw, f, l) <==> Same(sw, f.cache.value.tuner, l))
  {
    var was := History(h, sw, Files(None, None, None), boots[..|boots| - 1]);
    var b := boots[|boots| - 1];
    var f := History(h, sw, Files(None, None, None), boots);
    HistoryBound(h, sw, boots[..|boots| - 1]);
    HistoryBound(h, sw, boots);
    if f.cache.Some? && f.cache.value.readable {
      if Loadable(h, sw, f, l) { BoundSame(h, sw, f, l); }
      if Keeps(h, sw, was, b) { BoundSame(h, sw, was, b.launch); }
      if Same(sw, f.cache.value.tuner, l) { FingerprintIsLaunch(h, sw, b.launch, l); }
    }
  }

  /** Through any number of boots that keep a cache its `.launch` is the text its tuner left. */
  lemma {:induction false} KeptLaunchUnchanged(h: Hash, sw: Switches, f: Files, boots: seq<Boot>)
    requires Injective(h) && Bound(h, sw, f) && f.cache.Some?
    requires forall i :: 0 <= i < |boots| ==> Keeps(h, sw, History(h, sw, f, boots[..i]), boots[i])
    ensures History(h, sw, f, boots).cache == f.cache && History(h, sw, f, boots).launch == f.launch
    ensures Bound(h, sw, History(h, sw, f, boots))
  {
    if boots != [] {
      var front := boots[..|boots| - 1];
      forall i | 0 <= i < |front| ensures Keeps(h, sw, History(h, sw, f, front[..i]), front[i]) {
        assert front[..i] == boots[..i];
      }
      KeptLaunchUnchanged(h, sw, f, front);
      BoundAfter(h, sw, History(h, sw, f, front), boots[|boots| - 1]);
    }
  }

  /** An older adapter that tuned a cache keeps it on its next boot of that launch, however many boots of this
      adapter (with other pool sizes, say) kept it in between. */
  lemma OlderReusesItsCache(h: Hash, sw: Switches, f: Files, tuned: Boot, between: seq<Boot>, again: Boot)
    requires Injective(h) && Bound(h, sw, f)
    requires tuned.older && tuned.saved == Some(true) && !Keeps(h, sw, f, tuned)
    requires forall i :: 0 <= i < |between| ==>
               Keeps(h, sw, History(h, sw, After(h, sw, f, tuned), between[..i]), between[i])
    requires again.older && !again.dropped && again.launch == tuned.launch
    ensures Keeps(h, sw, History(h, sw, After(h, sw, f, tuned), between), again)
  {
    BoundAfter(h, sw, f, tuned);
    KeptLaunchUnchanged(h, sw, After(h, sw, f, tuned), between);
  }

  // ---- boots that stop half-way ----

  /** Where a boot that re-tunes stops: the old files deleted, the new cache saved, or `.launch` written too. */
  datatype Stop = Deleted | Saved | Named

  function Stopped(h: Hash, sw: Switches, f: Files, b: Boot, at: Stop): Files {
    var pool := if !b.older && f.cache.Some? && !Loadable(h, sw, f, b.launch) then None else f.pool;
    match at
    case Deleted => Files(None, f.launch, pool)
    case Saved => Files(Retuned(b), f.launch, pool)
    case Named => Files(Retuned(b), if b.saved.Some? then Some(RawFingerprint(h, sw, b.launch)) else f.launch, pool)
  }

  /** Every launch that would load the cache is the one that tuned it. */
  ghost predicate Safe(h: Hash, sw: Switches, f: Files) {
    forall l :: Loadable(h, sw, f, l) ==> Same(sw, f.cache.value.tuner, l)
  }

  lemma BoundSafe(h: Hash, sw: Switches, f: Files)
    requires Injective(h) && Bound(h, sw, f)
    ensures Safe(h, sw, f)
  {
    forall l | Loadable(h, sw, f, l) ensures Same(sw, f.cache.value.tuner, l) { BoundSame(h, sw, f, l); }
  }

  /** A stop before the new cache is saved, or after `.launch` is written, leaves the files as bound as they were. */
  lemma StoppedBound(h: Hash, sw: Switches, f: Files, b: Boot, at: Stop)
    requires Injective(h) && Bound(h, sw, f) && !Keeps(h, sw, f, b) && at != Saved
    ensures Bound(h, sw, Stopped(h, sw, f, b, at)) && Safe(h, sw, Stopped(h, sw, f, b, at))
  {
    BoundSafe(h, sw, Stopped(h, sw, f, b, at));
  }

  /** `.launch` holds some launch's raw fingerprint, or is not there. */
  ghost predicate Traced(h: Hash, sw: Switches, f: Files) {
    f.launch.Some? ==> exists t :: f.launch == Some(RawFingerprint(h, sw, t))
  }

  lemma {:induction false} HistoryTraced(h: Hash, sw: Switches, boots: seq<Boot>)
    requires Injective(h)
    ensures Traced(h, sw, History(h, sw, Files(None, None, None), boots))
  {
    if boots != [] {
      var f, b := History(h, sw, Files(None, None, None), boots[..|boots| - 1]), boots[|boots| - 1];
      HistoryTraced(h, sw, boots[..|boots| - 1]);
      var launch := After(h, sw, f, b).launch;
      assert launch == Some(RawFingerprint(h, sw, b.launch)) || launch == f.launch;
    }
  }

  /** A stop between the two writes is safe exactly when the `.launch` found on disk, if any, was written by the same
      launch: a cache that parses is otherwise loadable by the launch that wrote it. */
  lemma SavedSafeExactly(h: Hash, sw: Switches, f: Files, b: Boot, t: Launch)
    requires Injective(h) && Bound(h, sw, f) && !Keeps(h, sw, f, b) && b.saved == Some(true)
    requires f.launch == Some(RawFingerprint(h, sw, t))
    ensures Safe(h, sw, Stopped(h, sw, f, b, Saved)) <==> Same(sw, b.launch, t)
  {
    var g := Stopped(h, sw, f, b, Saved);
    assert Loadable(h, sw, g, t);
    forall l | Loadable(h, sw, g, l) ensures Same(sw, t, l) {
      if f.launch.value == Fingerprint(h, sw, l) || f.launch.value == RawFingerprint(h, sw, l) {
        RawIsLaunch(h, sw, t, l);
      } else {
        var m, u :| Binds(h, sw, g.pool.value, m, u);
        FingerprintIsLaunch(h, sw, m, l);
        RawIsLaunch(h, sw, t, u);
      }
    }
  }

  /** The same over every history: without a `.launch` nothing loads the new cache, and with one the stop is safe if
      and only if its writer was the same launch as the one that stopped. */
  lemma StoppedAfterHistory(h: Hash, sw: Switches, boots: seq<Boot>, b: Boot)
    requires Injective(h) && b.saved == Some(true)
    requires !Keeps(h, sw, History(h, sw, Files(None, None, None), boots), b)
    ensures var f := History(h, sw, Files(None, None, None), boots);
            Safe(h, sw, Stopped(h, sw, f, b, Saved))
            <==> f.launch == None || exists t :: Same(sw, b.launch, t) && f.launch == Some(RawFingerprint(h, sw, t))
  {
    var f := History(h, sw, Files(None, None, None), boots);
    HistoryBound(h, sw, boots);
    HistoryTraced(h, sw, boots);
    if f.launch.Some? {
      var t :| f.launch == Some(RawFingerprint(h, sw, t));
      SavedSafeExactly(h, sw, f, b, t);
      forall u | f.launch == Some(RawFingerprint(h, sw, u)) ensures Same(sw, t, u) { RawIsLaunch(h, sw, t, u); }
    }
  }

  /** One history that is not safe: after an interrupted boot the first launch would load the cache that the second
      one tuned, although they are different launches. */
  lemma InterruptedBootMisleads(h: Hash, sw: Switches, l: Launch, m: Launch)
    requires Injective(h) && !Same(sw, l, m)
    ensures var f := History(h, sw, Files(None, None, None), [Boot(false, l, false, Some(true))]);
            var g := Stopped(h, sw, f, Boot(false, m, false, Some(true)), Saved);
            g.cache == Some(Cache(m, true)) && Loadable(h, sw, g, l)
  {
    assert History(h, sw, Files(None, None, None), [Boot(false, l, false, Some(true))])
        == After(h, sw, Files(None, None, None), Boot(false, l, false, Some(true))) by {
      assert [Boot(false, l, false, Some(true))][..0] == [];
    }
  }
}
