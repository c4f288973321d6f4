/**
  From the declared list and the image's label to the lockfile and back: after a
  from-scratch call, in default or upgrade mode, the next default call writes
  nothing and a frozen one succeeds, although each call decides anew which
  features the base image already carries. (lockfile.go:61-120, up.go:399-452, 1405-1509)
 */
module LockLater {
  import opened Prelude
  import Ordering
  import opened FeatureModel
  import opened Locking
  import opened Expansion
  import opened Layering
  import opened LockProtocol

  type Matcher = (Metadata, Feature) -> bool

  /** A feature as devcontainer.json declares it. */
  ghost predicate Raw(f: Feature) {
    !f.alreadyInstalled && Fresh(f) && f.kind == Classify(f.ref)
  }

  ghost predicate AllRaw(fs: seq<Feature>) {
    forall k :: 0 <= k < |fs| ==> Raw(fs[k])
  }

  /** Label entries that match a feature and record an artifact describe the one its reference names. */
  ghost predicate LabelTells(env: Env, matches: Matcher, baked: seq<Metadata>, f: Feature) {
    forall b :: b in baked && f.kind.OCI? && matches(b, f) && b.resolvedRef != "" ==>
      && ArtifactOf(env, f.ref).Some? && ArtifactOf(env, f.ref).value.resolvedRef == b.resolvedRef
      && ArtifactOf(env, f.ref).value.metadata.version == b.version
      && (b.dependsOn.Some? ==> b.dependsOn.value == ArtifactOf(env, f.ref).value.metadata.Dependencies())
  }

  ghost predicate LabelsTell(env: Env, matches: Matcher, baked: seq<Metadata>, fs: seq<Feature>) {
    forall k :: 0 <= k < |fs| ==> LabelTells(env, matches, baked, fs[k])
  }

  // ---- marking ----

  lemma {:induction false} BakedIs(lock: Lock, matches: Matcher, baked: seq<Metadata>, f: Feature)
    ensures var b := Baked(lock, matches, baked, f);
      b.Some? ==> f.kind.OCI? && b.value in baked && matches(b.value, f) && AcceptsBaked(lock, f, b.value)
  {
    if f.kind.OCI? && baked != [] { BakedIs(lock, matches, baked[1..], f); }
  }

  /** A marked feature carries what the label says truly of its artifact, so what it depends on can be read. */
  lemma MarkedTrue(env: Env, lock: Lock, matches: Matcher, baked: seq<Metadata>, f: Feature)
    requires !lock.mode.Disabled? && DigestsServed(env) && Raw(f) && LabelTells(env, matches, baked, f)
    ensures var g := Marked(lock, matches, baked, f);
      && g.ref == f.ref && Declared(env, g)
      && (g.alreadyInstalled ==> BakedDependsOn(env, g) == Some(DepsOf(env, g.ref))) && (!g.alreadyInstalled ==> g == f)
  {
    BakedIs(lock, matches, baked, f);
  }

  lemma MarksDeclared(env: Env, lock: Lock, matches: Matcher, baked: seq<Metadata>, fs: seq<Feature>)
    requires !lock.mode.Disabled? && DigestsServed(env) && AllRaw(fs) && LabelsTell(env, matches, baked, fs)
    ensures AllDeclared(env, MarkedAll(lock, matches, baked, fs)) && RefsOf(MarkedAll(lock, matches, baked, fs)) == RefsOf(fs)
  {
    var gs := MarkedAll(lock, matches, baked, fs);
    forall k | 0 <= k < |gs| ensures gs[k].ref == fs[k].ref && Declared(env, gs[k]) { MarkedTrue(env, lock, matches, baked, fs[k]); }
    assert RefsOf(gs) == RefsOf(fs) by {
      forall r | r in RefsOf(gs) ensures r in RefsOf(fs) { var k :| 0 <= k < |gs| && gs[k].ref == r; RefIn(fs, k); }
      forall r | r in RefsOf(fs) ensures r in RefsOf(gs) { var k :| 0 <= k < |fs| && fs[k].ref == r; RefIn(gs, k); }
    }
  }

  lemma {:induction false} BakedAgrees(env: Env, env': Env, refs: set<string>, matches: Matcher, baked: seq<Metadata>, f: Feature)
    requires env.lock == Lock(Default, None) && Locks(env, env', refs) && f.kind == Classify(f.ref) && LabelTells(env, matches, baked, f)
    ensures Baked(env'.lock, matches, baked, f) == Baked(env.lock, matches, baked, f)
  {
    if f.kind.OCI? && baked != [] {
      assert baked[0] in baked;
      BakedAgrees(env, env', refs, matches, baked[1..], f);
    }
  }

  /** The lockfile written from scratch in default mode accepts the same baked features the first run used. */
  lemma MarksAgree(env: Env, env': Env, refs: set<string>, matches: Matcher, baked: seq<Metadata>, fs: seq<Feature>)
    requires env.lock == Lock(Default, None) && Locks(env, env', refs) && AllRaw(fs) && LabelsTell(env, matches, baked, fs)
    ensures MarkedAll(env'.lock, matches, baked, fs) == MarkedAll(env.lock, matches, baked, fs)
  {
    forall k | 0 <= k < |fs| { BakedAgrees(env, env', refs, matches, baked, fs[k]); }
  }

  lemma {:induction false} UpgradeTakesNone(lock: Lock, matches: Matcher, baked: seq<Metadata>, f: Feature)
    requires lock.mode.Upgrade?
    ensures Baked(lock, matches, baked, f).None?
  {
    if f.kind.OCI? && baked != [] { UpgradeTakesNone(lock, matches, baked[1..], f); }
  }

  lemma UpgradeMarksNone(lock: Lock, matches: Matcher, baked: seq<Metadata>, fs: seq<Feature>)
    requires lock.mode.Upgrade?
    ensures MarkedAll(lock, matches, baked, fs) == fs
  {
    forall k | 0 <= k < |fs| { UpgradeTakesNone(lock, matches, baked, fs[k]); }
  }

  // ---- what an upgrade run shows of every request ----

  function DepsOf(env: Env, ref: string): map<string, Options> {
    match ArtifactOf(env, ref)
    case None => map[]
    case Some(x) => x.metadata.Dependencies()
  }

  /** The artifact of ref takes these options. */
  ghost predicate Takes(env: Env, ref: string, opts: Options) {
    ArtifactOf(env, ref).Some? && MergedOptions(ArtifactOf(env, ref).value.metadata.options, opts).Some?
  }

  ghost predicate NoneBaked(s: State) {
    s.Running? ==>
      && (forall k :: 0 <= k < |s.features| ==> !s.features[k].alreadyInstalled)
      && (forall a :: 0 <= a < |s.aliases| ==> !s.aliases[a].alreadyInstalled)
  }

  lemma StepNoneBaked(env: Env, s: State)
    requires Inv(s) && NoneBaked(s) && !Done(s)
    ensures NoneBaked(Step(env, s))
  {
    var t := Step(env, s);
    if t.Running? {
      var f', deps, kept := StepIs(env, s, t);
      if kept {
        forall k | 0 <= k < |t.features| ensures !t.features[k].alreadyInstalled {
          if k >= |s.features| { RequestFresh(f', deps[k - |s.features|]); }
        }
      }
    }
  }

  lemma StepMet(env: Env, s: State, key: string, opts: Options)
    requires Inv(s) && !Done(s) && Step(env, s).Running? && Met(s.features, s.aliases, key, opts)
    ensures Met(Step(env, s).features, Step(env, s).aliases, key, opts)
  {
    var t := Step(env, s);
    var f', deps, kept := StepIs(env, s, t);
    if kept { GrewMet(s, t, f', deps, key, opts); } else { DroppedMet(s, t, f', key, opts); }
  }

  lemma {:induction false} IterateMet(env: Env, s: State, n: nat, key: string, opts: Options)
    requires Inv(s) && s.Running? && Iterate(env, s, n).Running? && Met(s.features, s.aliases, key, opts)
    ensures Met(Iterate(env, s, n).features, Iterate(env, s, n).aliases, key, opts)
    decreases n
  {
    if n > 0 && !Done(s) {
      StepInv(env, s);
      if Step(env, s).Running? {
        StepMet(env, s, key, opts);
        IterateMet(env, Step(env, s), n - 1, key, opts);
      }
    }
  }

  lemma {:induction false} IterateNoneBaked(env: Env, s: State, n: nat)
    requires Inv(s) && NoneBaked(s)
    ensures NoneBaked(Iterate(env, s, n))
    decreases n
  {
    if n > 0 && !Done(s) {
      StepInv(env, s);
      StepNoneBaked(env, s);
      IterateNoneBaked(env, Step(env, s), n - 1);
    }
  }

  /** A finished run none of whose entries is baked. */
  ghost predicate AllFetched(env: Env, s: State) {
    ContentAddressed(env) && s.Running? && s.i == |s.features| && Inv(s) && Truthful(env, s) && NoneBaked(s)
  }

  /** Whatever was asked for was taken. */
  lemma MetTakes(env: Env, s: State, key: string, opts: Options)
    requires AllFetched(env, s) && Met(s.features, s.aliases, key, opts)
    ensures Takes(env, key, opts)
  {
    if k :| 0 <= k < |s.features| && s.features[k].ref == key && SameOptions(s.features[k], opts) {
      assert Consistent(env, s.features[k]);
    } else {
      var a :| 0 <= a < |s.aliases| && s.aliases[a].ref == key && SameOptions(s.aliases[a], opts);
      assert Consistent(env, s.aliases[a]);
    }
  }

  lemma KeptTakes(env: Env, s: State, m: nat, key: string)
    requires AllFetched(env, s) && m < |s.features| && key in DepsOf(env, s.features[m].ref)
    ensures Takes(env, key, DepsOf(env, s.features[m].ref)[key])
  {
    assert Consistent(env, s.features[m]) && DepsMet(s, m);
    MetTakes(env, s, key, s.features[m].metadata.Dependencies()[key]);
  }

  lemma DroppedTakes(env: Env, s: State, a: nat, key: string)
    requires AllFetched(env, s) && a < |s.aliases| && key in DepsOf(env, s.aliases[a].ref)
    ensures Takes(env, key, DepsOf(env, s.aliases[a].ref)[key])
  {
    var m := KeptFor(s, a);
    assert Consistent(env, s.aliases[a]) && Consistent(env, s.features[m]);
    SameArtifactDeps(env, s.features[m], s.aliases[a]);
    KeptTakes(env, s, m, key);
  }

  lemma SameArtifactDeps(env: Env, g: Feature, h: Feature)
    requires ContentAddressed(env) && Consistent(env, g) && Consistent(env, h) && g.resolvedRef == h.resolvedRef
    ensures DepsOf(env, g.ref) == DepsOf(env, h.ref)
  {}

  lemma ListedTakes(env: Env, s: State, r: string, key: string)
    requires AllFetched(env, s) && r in RefsOf(s.features + s.aliases) && key in DepsOf(env, r)
    ensures Takes(env, key, DepsOf(env, r)[key])
  {
    var k := ListedAt(s.features, s.aliases, r);
    if k < |s.features| { KeptTakes(env, s, k, key); } else { DroppedTakes(env, s, k - |s.features|, key); }
  }

  lemma ListedAt(fs: seq<Feature>, aliases: seq<Feature>, r: string) returns (k: nat)
    requires r in RefsOf(fs + aliases)
    ensures k < |fs| + |aliases| && (if k < |fs| then fs[k].ref == r else aliases[k - |fs|].ref == r)
  {
    k :| k < |fs + aliases| && (fs + aliases)[k].ref == r;
  }

  // ---- a run that cannot fail ----

  /** Every artifact reachable from refs takes what is asked of it, and may depend on the local paths it names. */
  ghost predicate Sound(env: Env, refs: set<string>) {
    && Unpinned(env) && ClosedRefs(env, refs) && (forall r :: r in refs ==> ArtifactOf(env, r).Some? && ArtifactOf(env, r).value.resolvedRef != "")
    && (forall r, key :: r in refs && key in DepsOf(env, r) ==> Takes(env, key, DepsOf(env, r)[key]))
    && (forall r, key :: r in refs && key in DepsOf(env, r) && Classify(key).Local? ==> env.localAllowed(Classify(r), key))
  }

  /** The entry at hand can be finished. */
  ghost predicate Viable(env: Env, f: Feature) {
    if f.alreadyInstalled then BakedDependsOn(env, f) == Some(DepsOf(env, f.ref)) else Takes(env, f.ref, f.options)
  }

  ghost predicate TailViable(env: Env, s: State)
    requires s.Running?
  {
    forall k :: s.i <= k < |s.features| ==> Viable(env, s.features[k])
  }

  lemma {:induction false} MissingNothing(env: Env, fs: seq<Feature>, f: Feature, keys: seq<string>, k: nat, out: seq<Feature>)
    requires k <= |keys| && forall i :: 0 <= i < |keys| ==> keys[i] in f.metadata.Dependencies()
    requires forall key :: key in f.metadata.Dependencies() && Classify(key).Local? ==> env.localAllowed(f.kind, key)
    ensures Missing(env, fs, f, keys, k, out).Some?
    decreases |keys| - k
  {
    if k < |keys| {
      var opts := f.metadata.Dependencies()[keys[k]];
      var held := Requested(fs, keys[k], opts) || Requested(out, keys[k], opts);
      MissingNothing(env, fs, f, keys, k + 1, if held then out else out + [Unfetched(keys[k], opts)]);
    }
  }

  lemma GrowsOn(env: Env, s: State, f: Feature)
    requires s.Running? && s.i < |s.features|
    requires forall key :: key in f.metadata.Dependencies() && Classify(key).Local? ==> env.localAllowed(f.kind, key)
    ensures Grow(env, s, f).Running?
  {
    var keys := Ordering.SortedKeys(f.metadata.Dependencies().Keys);
    assert forall i :: 0 <= i < |keys| ==> keys[i] in Elements(keys);
    MissingNothing(env, s.features[s.i := f], f, keys, 0, []);
  }

  lemma FinalDeps(env: Env, f: Feature, f': Feature)
    requires Unpinned(env) && f.kind == Classify(f.ref) && Fresh(f) && Viable(env, f) && Finalizes(env, f, f')
    ensures f'.metadata.Dependencies() == DepsOf(env, f.ref) && f'.kind == f.kind
  {}

  lemma StepRuns(env: Env, s: State, refs: set<string>)
    requires Sound(env, refs) && OnCourse(env, s, refs) && !Done(s) && TailViable(env, s)
    ensures Step(env, s).Running?
  {
    var f := s.features[s.i];
    assert Viable(env, f) && Fresh(f) && f.kind == Classify(f.ref) && f.ref in refs;
    if f.alreadyInstalled {
      GrowsOn(env, s, f.(metadata := f.metadata.(dependsOn := BakedDependsOn(env, f))));
    } else {
      var got := Fetch(env, f).value;
      GrowsOn(env, s, Install(f, got, MergedOptions(got.metadata.options, f.options).value));
    }
  }

  lemma RequestViable(env: Env, refs: set<string>, f: Feature, f': Feature, g: Feature)
    requires Sound(env, refs) && f.ref in refs && f.kind == Classify(f.ref) && Fresh(f) && Viable(env, f) && Finalizes(env, f, f') && IsRequestOf(f', g)
    ensures Viable(env, g) && Raw(g) && exists key :: key in DepsOf(env, f.ref) && g == Unfetched(key, DepsOf(env, f.ref)[key])
  {
    FinalDeps(env, f, f');
    RequestFresh(f', g);
  }

  lemma GrewViable(env: Env, s: State, t: State, f': Feature, deps: seq<Feature>)
    requires Grew(s, t, f', deps) && TailViable(env, s) && forall g :: IsRequestOf(f', g) ==> Viable(env, g)
    ensures TailViable(env, t)
  {
    forall k | t.i <= k < |t.features| ensures Viable(env, t.features[k]) {
      if k < |s.features| { assert t.features[k] == s.features[k]; } else { assert t.features[k] == deps[k - |s.features|]; }
    }
  }

  lemma DroppedViable(env: Env, s: State, t: State, f': Feature)
    requires Dropped(s, t, f') && TailViable(env, s)
    ensures TailViable(env, t)
  {
    forall k | t.i <= k < |t.features| ensures Viable(env, t.features[k]) { assert t.features[k] == s.features[k + 1]; }
  }

  lemma StepViable(env: Env, s: State, refs: set<string>)
    requires Sound(env, refs) && OnCourse(env, s, refs) && !Done(s) && TailViable(env, s)
    ensures Step(env, s).Running? && TailViable(env, Step(env, s))
  {
    StepRuns(env, s, refs);
    var t := Step(env, s);
    var f', deps, kept := StepIs(env, s, t);
    if kept {
      forall g | IsRequestOf(f', g) ensures Viable(env, g) { RequestViable(env, refs, s.features[s.i], f', g); }
      GrewViable(env, s, t, f', deps);
    } else {
      DroppedViable(env, s, t, f');
    }
  }

  // ---- and must end ----

  /** All that is ever asked for: what the list declares and what reachable artifacts depend on. */
  ghost function Asked(env: Env, refs: set<string>, initial: seq<Feature>): set<(string, Options)> {
    (set r, key | r in refs && key in DepsOf(env, r) :: (key, DepsOf(env, r)[key])) + (set k | 0 <= k < |initial| :: (initial[k].ref, initial[k].options))
  }

  ghost function Installs(env: Env, asked: set<(string, Options)>): set<(string, Options)> {
    set a | a in asked && Takes(env, a.0, a.1) ::
      (ArtifactOf(env, a.0).value.resolvedRef, MergedOptions(ArtifactOf(env, a.0).value.metadata.options, a.1).value)
  }

  ghost function Asks(env: Env, refs: set<string>, asked: set<(string, Options)>): iset<Feature> {
    iset f: Feature | Raw(f) && Viable(env, f) && f.ref in refs && (f.ref, f.options) in asked
  }

  lemma AsksClosed(env: Env, refs: set<string>, initial: seq<Feature>, f: Feature, f': Feature, g: Feature)
    requires Sound(env, refs) && f.ref in refs && f.kind == Classify(f.ref) && Fresh(f) && Viable(env, f) && Finalizes(env, f, f') && IsRequestOf(f', g)
    ensures g in Asks(env, refs, Asked(env, refs, initial))
  {
    RequestViable(env, refs, f, f', g);
    var key :| key in DepsOf(env, f.ref) && g == Unfetched(key, DepsOf(env, f.ref)[key]);
    assert key in Leads(env, f.ref);
    assert (key, DepsOf(env, f.ref)[key]) in Asked(env, refs, initial);
  }

  lemma ScopeClosed(env: Env, refs: set<string>, initial: seq<Feature>)
    requires Sound(env, refs)
    ensures var asked := Asked(env, refs, initial); Closed(env, Installs(env, asked), Asks(env, refs, asked))
  {
    var asked := Asked(env, refs, initial);
    var asks := Asks(env, refs, asked);
    forall r, f' | r in asks && Finalizes(env, r, f')
      ensures f'.resolvedRef != "" && PairOf(f') in Installs(env, asked) && forall g :: IsRequestOf(f', g) ==> g in asks
    {
      assert (r.ref, r.options) in asked;
      forall g | IsRequestOf(f', g) ensures g in asks { AsksClosed(env, refs, initial, r, f', g); }
    }
  }

  lemma StartInScope(env: Env, refs: set<string>, initial: seq<Feature>)
    requires Sound(env, refs) && AllDeclared(env, initial) && RefsOf(initial) <= refs && TailViable(env, Start(initial))
    ensures TailInScope(env, Start(initial), Asks(env, refs, Asked(env, refs, initial)))
  {
    var asks := Asks(env, refs, Asked(env, refs, initial));
    forall k | 0 <= k < |initial| ensures InScope(env, initial[k], asks) {
      var f := initial[k];
      RefIn(initial, k);
      assert Declared(env, f) && Viable(env, f);
      if f.alreadyInstalled {
        forall f', g | Finalizes(env, f, f') && IsRequestOf(f', g) ensures g in asks { AsksClosed(env, refs, initial, f, f', g); }
      } else {
        assert (f.ref, f.options) in Asked(env, refs, initial);
      }
    }
  }

  /** What every state of such a run satisfies. */
  ghost predicate Alive(env: Env, s: State, refs: set<string>, requests: iset<Feature>) {
    s.Running? && s.i <= |s.features| && OnCourse(env, s, refs) && TailViable(env, s) && TailInScope(env, s, requests)
  }

  lemma StepAlive(env: Env, s: State, refs: set<string>, pairs: set<(string, Options)>, requests: iset<Feature>)
    requires Sound(env, refs) && Closed(env, pairs, requests) && Alive(env, s, refs, requests) && !Done(s)
    ensures Alive(env, Step(env, s), refs, requests) && Decreases(s, Step(env, s), pairs)
  {
    StepViable(env, s, refs);
    StepInv(env, s);
    StepTruthful(env, s);
    StepWithin(env, s, refs);
    StepDecreases(env, s, pairs, requests);
  }

  ghost function Times(next: State -> State, s: State, n: nat): State
    decreases n
  {
    if n == 0 || Done(s) then s else Times(next, next(s), n - 1)
  }

  /** Turns that keep a property and always make progress come to an end. */
  lemma {:induction false} Terminates(next: State -> State, s: State, pairs: set<(string, Options)>, alive: State -> bool) returns (n: nat)
    requires alive(s) && forall x :: alive(x) ==> x.Running? && x.i <= |x.features|
    requires forall x {:trigger next(x)} :: alive(x) && !Done(x) ==> alive(next(x)) && Decreases(x, next(x), pairs)
    ensures alive(Times(next, s, n)) && Done(Times(next, s, n))
    decreases pairs - Kept(s.features[..s.i]), BakedIn(s.features[s.i..]), |s.features| - s.i
  {
    if Done(s) {
      n := 0;
    } else {
      var m := Terminates(next, next(s), pairs, alive);
      n := m + 1;
    }
  }

  ghost function Next(env: Env): State -> State {
    x => if Done(x) then x else Step(env, x)
  }

  lemma {:induction false} TimesIs(env: Env, s: State, n: nat)
    ensures Times(Next(env), s, n) == Iterate(env, s, n)
    decreases n
  {
    if n > 0 && !Done(s) { TimesIs(env, Step(env, s), n - 1); }
  }

  /** A run that cannot fail ends. */
  lemma RunsOut(env: Env, s: State, refs: set<string>, pairs: set<(string, Options)>, requests: iset<Feature>) returns (n: nat)
    requires Sound(env, refs) && Closed(env, pairs, requests) && Alive(env, s, refs, requests)
    ensures Iterate(env, s, n).Running? && Done(Iterate(env, s, n))
  {
    var alive := (x: State) => Alive(env, x, refs, requests);
    forall x | alive(x) && !Done(x) ensures alive(Next(env)(x)) && Decreases(x, Next(env)(x), pairs) { StepAlive(env, x, refs, pairs, requests); }
    n := Terminates(Next(env), s, pairs, alive);
    TimesIs(env, s, n);
  }

  // ---- refused local paths ----

  predicate AnyLocal(kind: SourceKind, key: string) { true }

  /** The same world without checkLocalDependency. */
  function Lenient(env: Env): Env { env.(localAllowed := AnyLocal) }

  /** f depends on a local path refused to it that nothing listed answers. */
  ghost predicate RefusedKey(env: Env, fs: seq<Feature>, f: Feature, key: string) {
    && key in f.metadata.Dependencies() && Classify(key).Local? && !env.localAllowed(f.kind, key)
    && !Requested(fs, key, f.metadata.Dependencies()[key])
  }

  ghost predicate NamesRefused(env: Env, fs: seq<Feature>, f: Feature) {
    exists key :: RefusedKey(env, fs, f, key)
  }

  /** The entry this turn finishes, no duplicate, names such a path. */
  ghost predicate Refuses(env: Env, s: State) {
    && !Done(s) && !Carried(s.features[s.i])
    && exists f' :: Finalizes(env, s.features[s.i], f') && (f'.alreadyInstalled || !Duplicate(s.features[..s.i], f')) && NamesRefused(env, s.features[s.i := f'], f')
  }

  lemma {:induction false} MissingRefuses(env: Env, fs: seq<Feature>, f: Feature, keys: seq<string>, k: nat, out: seq<Feature>)
    requires k <= |keys| && NoDup(keys) && forall i :: 0 <= i < |keys| ==> keys[i] in f.metadata.Dependencies()
    requires forall m, j :: 0 <= m < |out| && k <= j < |keys| ==> out[m].ref != keys[j]
    ensures (exists i :: k <= i < |keys| && RefusedKey(env, fs, f, keys[i])) ==> Missing(env, fs, f, keys, k, out).None?
    ensures (forall i :: k <= i < |keys| ==> !RefusedKey(env, fs, f, keys[i])) ==> Missing(env, fs, f, keys, k, out) == Missing(Lenient(env), fs, f, keys, k, out)
    decreases |keys| - k
  {
    if k < |keys| {
      var opts := f.metadata.Dependencies()[keys[k]];
      assert !Requested(out, keys[k], opts);
      var out' := if Requested(fs, keys[k], opts) then out else out + [Unfetched(keys[k], opts)];
      MissingRefuses(env, fs, f, keys, k + 1, out');
    }
  }

  lemma DependenciesRefuse(env: Env, fs: seq<Feature>, f: Feature)
    ensures Dependencies(Lenient(env), fs, f).Some?
    ensures Dependencies(env, fs, f) == if NamesRefused(env, fs, f) then None else Dependencies(Lenient(env), fs, f)
  {
    var keys := Ordering.SortedKeys(f.metadata.Dependencies().Keys);
    assert forall i :: 0 <= i < |keys| ==> keys[i] in Elements(keys);
    MissingRefuses(env, fs, f, keys, 0, []);
    MissingNothing(Lenient(env), fs, f, keys, 0, []);
    if key :| RefusedKey(env, fs, f, key) {
      assert key in Elements(keys);
      var i :| 0 <= i < |keys| && keys[i] == key;
    }
  }

  lemma GrowRefuses(env: Env, s: State, f': Feature)
    requires s.Running? && s.i < |s.features|
    ensures Grow(env, s, f') == if NamesRefused(env, s.features[s.i := f'], f') then Failed(f'.ref) else Grow(Lenient(env), s, f')
  {
    DependenciesRefuse(env, s.features[s.i := f'], f');
  }

  /** The final form of an entry is determined. */
  lemma FinalOnce(env: Env, s: State, f': Feature)
    requires !Done(s) && !Carried(s.features[s.i]) && Finalizes(env, s.features[s.i], f')
    ensures Refuses(env, s) <==> (f'.alreadyInstalled || !Duplicate(s.features[..s.i], f')) && NamesRefused(env, s.features[s.i := f'], f')
  {}

  /** A turn that refuses nothing is the turn of the lenient world; one that does fails. */
  ghost predicate TurnIsLenient(env: Env, s: State)
    requires !Done(s)
  {
    if Refuses(env, s) then Step(env, s).Failed? else Step(env, s) == Step(Lenient(env), s)
  }

  lemma BakedRefuses(env: Env, s: State)
    requires !Done(s) && s.features[s.i].alreadyInstalled
    ensures TurnIsLenient(env, s)
  {
    var f := s.features[s.i];
    var deps := BakedDependsOn(env, f);
    if deps.Some? {
      var f' := f.(metadata := f.metadata.(dependsOn := deps));
      FinalOnce(env, s, f');
      GrowRefuses(env, s, f');
    }
  }

  lemma FetchedStep(env: Env, s: State, got: Fetched, merged: Options)
    requires !Done(s) && !s.features[s.i].alreadyInstalled && s.features[s.i].dir == ""
    requires Fetch(env, s.features[s.i]) == Some(got) && MergedOptions(got.metadata.options, s.features[s.i].options) == Some(merged)
    ensures var f' := Install(s.features[s.i], got, merged);
      && Finalizes(env, s.features[s.i], f') && !f'.alreadyInstalled
      && Step(env, s) == (if Duplicate(s.features[..s.i], f') then Running(s.i, s.features[..s.i] + s.features[s.i + 1..], s.aliases + [f']) else Grow(env, s, f'))
  {}

  lemma FetchLenient(env: Env, f: Feature)
    ensures Fetch(Lenient(env), f) == Fetch(env, f)
  {}

  lemma FetchedRefuses(env: Env, s: State, got: Fetched, merged: Options)
    requires !Done(s) && !s.features[s.i].alreadyInstalled && s.features[s.i].dir == ""
    requires Fetch(env, s.features[s.i]) == Some(got) && MergedOptions(got.metadata.options, s.features[s.i].options) == Some(merged)
    ensures TurnIsLenient(env, s)
  {
    FetchLenient(env, s.features[s.i]);
    FetchedStep(env, s, got, merged);
    FetchedStep(Lenient(env), s, got, merged);
    FetchedTurn(env, s, Install(s.features[s.i], got, merged));
  }

  lemma FetchedTurn(env: Env, s: State, f': Feature)
    requires !Done(s) && !Carried(s.features[s.i]) && Finalizes(env, s.features[s.i], f') && !f'.alreadyInstalled
    requires Step(env, s) == (if Duplicate(s.features[..s.i], f') then Step(Lenient(env), s) else Grow(env, s, f'))
    requires !Duplicate(s.features[..s.i], f') ==> Step(Lenient(env), s) == Grow(Lenient(env), s, f')
    ensures TurnIsLenient(env, s)
  {
    FinalOnce(env, s, f');
    GrowRefuses(env, s, f');
  }

  lemma TurnRefuses(env: Env, s: State)
    requires !Done(s)
    ensures TurnIsLenient(env, s)
  {
    var f := s.features[s.i];
    if f.alreadyInstalled { BakedRefuses(env, s); }
    else if f.dir == "" && Fetch(env, f).Some? {
      var got := Fetch(env, f).value;
      var merged := MergedOptions(got.metadata.options, f.options);
      if merged.Some? { FetchedRefuses(env, s, got, merged.value); }
    }
  }

  /** Some turn of the run from s refuses a local path. */
  ghost predicate Refused(env: Env, s: State) {
    exists k: nat :: Refuses(env, Iterate(env, s, k))
  }

  lemma {:induction false} DoneStays(env: Env, s: State, k: nat, n: nat)
    requires k <= n && Done(Iterate(env, s, k))
    ensures Iterate(env, s, n) == Iterate(env, s, k)
    decreases n
  {
    if k < n {
      DoneStays(env, s, k, n - 1);
      IterateSnoc(env, s, n - 1);
    }
  }

  lemma RefusalFails(env: Env, s: State, k: nat)
    requires Refuses(env, Iterate(env, s, k))
    ensures Iterate(env, s, k + 1).Failed?
  {
    TurnRefuses(env, Iterate(env, s, k));
    IterateSnoc(env, s, k);
  }

  lemma EndedBefore(env: Env, s: State, n: nat, k: nat)
    requires Iterate(env, s, n).Running? && Done(Iterate(env, s, n))
    ensures !Refuses(env, Iterate(env, s, k))
  {
    if n <= k { DoneStays(env, s, n, k); }
    else if Refuses(env, Iterate(env, s, k)) {
      RefusalFails(env, s, k);
      DoneStays(env, s, k + 1, n);
    }
  }

  /** A run that ends without failing refused nothing. */
  lemma EndedUnrefused(env: Env, s: State, n: nat)
    requires Iterate(env, s, n).Running? && Done(Iterate(env, s, n))
    ensures !Refused(env, s)
  {
    forall k: nat ensures !Refuses(env, Iterate(env, s, k)) { EndedBefore(env, s, n, k); }
  }

  lemma UnrefusedSame(env: Env, s: State, n: nat)
    requires !Refused(env, s)
    ensures Iterate(Lenient(env), s, n) == Iterate(env, s, n)
  {
    forall k: nat | k < n ensures TurnAgrees(env, Lenient(env), s, k) {
      if !Done(Iterate(env, s, k)) { TurnRefuses(env, Iterate(env, s, k)); }
    }
    IterateAgrees(env, Lenient(env), s, n);
  }

  // ---- end to end ----

  /** A from-scratch call: no lockfile yet, or upgrade mode. */
  ghost predicate FromScratch(lock: Lock) {
    lock == Lock(Default, None) || lock.mode.Upgrade?
  }

  /** What the two calls share: the store, the label and the declared features. */
  ghost predicate World(env: Env, matches: Matcher, baked: seq<Metadata>, declared: seq<Feature>) {
    && ContentAddressed(env) && DigestsServed(env) && AllRaw(declared) && LabelsTell(env, matches, baked, declared)
    && forall ref :: ArtifactOf(env, ref).Some? ==> ArtifactOf(env, ref).value.resolvedRef != ""
  }

  /** The run of one call from the declared list, finished after n turns. */
  ghost predicate Call(env: Env, matches: Matcher, baked: seq<Metadata>, declared: seq<Feature>, n: nat, fs: seq<Feature>, aliases: seq<Feature>) {
    Iterate(env, Start(MarkedAll(env.lock, matches, baked, declared)), n) == Running(|fs|, fs, aliases)
  }

  lemma FirstIsFirst(env: Env, matches: Matcher, baked: seq<Metadata>, declared: seq<Feature>, n: nat, fs: seq<Feature>, aliases: seq<Feature>)
    requires World(env, matches, baked, declared) && FromScratch(env.lock) && Call(env, matches, baked, declared, n, fs, aliases)
    ensures FirstRun(env, MarkedAll(env.lock, matches, baked, declared), n, fs, aliases)
    ensures IsReachable(env, declared, RefsOf(fs + aliases))
  {
    MarksDeclared(env, env.lock, matches, baked, declared);
    FirstCommit(env, MarkedAll(env.lock, matches, baked, declared), n, fs, aliases);
  }

  /** A finished upgrade run shows every reachable request to be good, wherever local paths may be named. */
  lemma UpgradeSound(env: Env, matches: Matcher, baked: seq<Metadata>, declared: seq<Feature>, n: nat, fs: seq<Feature>, aliases: seq<Feature>)
    requires World(env, matches, baked, declared) && env.lock.mode.Upgrade? && Call(env, matches, baked, declared, n, fs, aliases)
    ensures Sound(Lenient(env), RefsOf(fs + aliases))
    ensures forall k :: 0 <= k < |declared| ==> Takes(env, declared[k].ref, declared[k].options)
  {
    UpgradeMarksNone(env.lock, matches, baked, declared);
    FirstIsFirst(env, matches, baked, declared, n, fs, aliases);
    var s := Running(|fs|, fs, aliases);
    UpgradeFetched(env, declared, n, s);
    var refs := RefsOf(fs + aliases);
    forall r, key | r in refs && key in DepsOf(env, r) ensures Takes(env, key, DepsOf(env, r)[key]) { ListedTakes(env, s, r, key); }
    ListedHave(env, s);
    forall k | 0 <= k < |declared| ensures Takes(env, declared[k].ref, declared[k].options) { DeclaredTakes(env, declared, n, s, k); }
    LenientSound(env, refs);
  }

  lemma LenientSound(env: Env, refs: set<string>)
    requires Unpinned(env) && ClosedRefs(env, refs) && forall r :: r in refs ==> ArtifactOf(env, r).Some? && ArtifactOf(env, r).value.resolvedRef != ""
    requires forall r, key :: r in refs && key in DepsOf(env, r) ==> Takes(env, key, DepsOf(env, r)[key])
    ensures Sound(Lenient(env), refs)
  {
    forall r ensures ArtifactOf(Lenient(env), r) == ArtifactOf(env, r) && Leads(Lenient(env), r) == Leads(env, r) && DepsOf(Lenient(env), r) == DepsOf(env, r) {}
    forall r, key | r in refs && key in DepsOf(env, r) ensures Takes(Lenient(env), key, DepsOf(env, r)[key]) { assert Takes(env, key, DepsOf(env, r)[key]); }
  }

  lemma UpgradeFetched(env: Env, declared: seq<Feature>, n: nat, s: State)
    requires Unpinned(env) && ContentAddressed(env) && AllRaw(declared) && Iterate(env, Start(declared), n) == s && s.Running? && s.i == |s.features|
    ensures AllFetched(env, s)
  {
    StartTruthful(env, declared);
    IterateInv(env, Start(declared), n);
    IterateTruthful(env, Start(declared), n);
    IterateNoneBaked(env, Start(declared), n);
  }

  lemma ListedHave(env: Env, s: State)
    requires AllFetched(env, s)
    ensures forall r :: r in RefsOf(s.features + s.aliases) ==> ArtifactOf(env, r).Some?
  {
    var all := s.features + s.aliases;
    forall r | r in RefsOf(all) ensures ArtifactOf(env, r).Some? {
      var k :| 0 <= k < |all| && all[k].ref == r;
      if k < |s.features| { assert Consistent(env, s.features[k]); } else { assert Consistent(env, s.aliases[k - |s.features|]); }
    }
  }

  lemma DeclaredTakes(env: Env, declared: seq<Feature>, n: nat, s: State, k: nat)
    requires AllRaw(declared) && k < |declared| && Iterate(env, Start(declared), n) == s && AllFetched(env, s)
    ensures Takes(env, declared[k].ref, declared[k].options)
  {
    var f := declared[k];
    assert Raw(f) && SameOptions(f, f.options) by { assert Defaults(map[]) + f.options == f.options; }
    StartInv(declared);
    IterateMet(env, Start(declared), n, f.ref, f.options);
    MetTakes(env, s, f.ref, f.options);
  }

  /** The next call, whichever features it now takes from the base image, ends without failing. */
  lemma NextEnds(env: Env, env': Env, matches: Matcher, baked: seq<Metadata>, declared: seq<Feature>, refs: set<string>) returns (n: nat)
    requires World(env, matches, baked, declared) && Sound(env, refs) && Locks(env, env', refs) && RefsOf(declared) <= refs
    requires forall k :: 0 <= k < |declared| ==> Takes(env, declared[k].ref, declared[k].options)
    ensures var t := Iterate(env, Start(MarkedAll(env'.lock, matches, baked, declared)), n); t.Running? && Done(t)
  {
    var initial := MarkedAll(env'.lock, matches, baked, declared);
    MarksDeclared(env, env'.lock, matches, baked, declared);
    StartTruthful(env, initial);
    forall k | 0 <= k < |initial| ensures Viable(env, initial[k]) { MarkedTrue(env, env'.lock, matches, baked, declared[k]); }
    var asked := Asked(env, refs, initial);
    ScopeClosed(env, refs, initial);
    StartInScope(env, refs, initial);
    assert Within(Start(initial), refs);
    n := RunsOut(env, Start(initial), refs, Installs(env, asked), Asks(env, refs, asked));
  }

  /** At every turn of the run from initial, a non-local feature about to be fetched is asked for by its pin. */
  ghost predicate AsksForPins(env: Env, initial: seq<Feature>) {
    forall k: nat :: var s := Iterate(env, Start(initial), k);
      !Done(s) && !s.features[s.i].alreadyInstalled && !s.features[s.i].kind.Local? ==>
        Pin(env.lock, s.features[s.i]).Some? && AskedFor(env, s.features[s.i]) == PinnedRef(env, s.features[s.i], Pin(env.lock, s.features[s.i]).value)
  }

  lemma LockedAsks(env: Env, env': Env, initial: seq<Feature>, refs: set<string>)
    requires Repeatable(env, env', refs) && AllDeclared(env, initial) && RefsOf(initial) <= refs
    ensures AsksForPins(env', initial)
  {
    StartTruthful(env, initial);
    assert Within(Start(initial), refs);
    forall k: nat ensures var s := Iterate(env', Start(initial), k);
      !Done(s) && !s.features[s.i].alreadyInstalled && !s.features[s.i].kind.Local? ==> Pin(env'.lock, s.features[s.i]).Some?
    {
      SameRun(env, env', Start(initial), k, refs);
      IterateInv(env, Start(initial), k);
      IterateTruthful(env, Start(initial), k);
      IterateWithin(env, Start(initial), k, refs);
      var s := Iterate(env, Start(initial), k);
      if !Done(s) { FetchPinned(env, env', refs, s.features[s.i]); }
    }
  }

  /** A locked run that ends builds the lockfile it read. */
  lemma LockedEnd(env: Env, env': Env, initial: seq<Feature>, n: nat, fs: seq<Feature>, aliases: seq<Feature>, declared: seq<Feature>, refs: set<string>)
    requires ContentAddressed(env) && Repeatable(env, env', refs) && IsReachable(env, declared, refs)
    requires AllDeclared(env, initial) && RefsOf(initial) == RefsOf(declared) && Iterate(env, Start(initial), n) == Running(|fs|, fs, aliases)
    ensures RefsOf(fs + aliases) == refs && Iterate(env', Start(initial), n) == Running(|fs|, fs, aliases)
    ensures env'.lock.existing == Some(NextLockfile(env'.lock, fs + aliases))
  {
    ExpansionReaches(env, initial, n, fs, aliases);
    assert RefsOf(fs + aliases) == refs;
    SameStart(env, env', initial, n, fs, aliases);
  }

  /** What a default or frozen call finds after a from-scratch one. */
  ghost predicate Reproduces(env: Env, matches: Matcher, baked: seq<Metadata>, declared: seq<Feature>, refs: set<string>) {
    exists n, fs, aliases ::
      && Call(env, matches, baked, declared, n, fs, aliases) && RefsOf(fs + aliases) == refs
      && env.lock.existing == Some(NextLockfile(env.lock, fs + aliases))
  }

  lemma RefsRepeat(env: Env, env': Env, initial: seq<Feature>, n: nat, fs: seq<Feature>, aliases: seq<Feature>)
    requires FirstRun(env, initial, n, fs, aliases) && DigestsServed(env) && Locks(env, env', RefsOf(fs + aliases))
    ensures Repeatable(env, env', RefsOf(fs + aliases))
  {
    var all := fs + aliases;
    FirstCommit(env, initial, n, fs, aliases);
    FirstRunTruthful(env, initial, n, fs, aliases);
    forall r | r in RefsOf(all) ensures ArtifactOf(env, r).Some? { var k :| 0 <= k < |all| && all[k].ref == r; }
  }

  lemma Reproduced(env: Env, matches: Matcher, baked: seq<Metadata>, declared: seq<Feature>, n: nat, fs: seq<Feature>, aliases: seq<Feature>)
    requires Iterate(env, Start(MarkedAll(env.lock, matches, baked, declared)), n) == Running(|fs|, fs, aliases)
    requires env.lock.existing == Some(NextLockfile(env.lock, fs + aliases))
    ensures Reproduces(env, matches, baked, declared, RefsOf(fs + aliases))
  {
    assert Call(env, matches, baked, declared, n, fs, aliases);
  }

  lemma AfterDefault(env: Env, env': Env, matches: Matcher, baked: seq<Metadata>, declared: seq<Feature>, n: nat, fs: seq<Feature>, aliases: seq<Feature>)
    requires World(env, matches, baked, declared) && env.lock == Lock(Default, None) && Call(env, matches, baked, declared, n, fs, aliases)
    requires Locks(env, env', RefsOf(fs + aliases))
    ensures Reproduces(env', matches, baked, declared, RefsOf(fs + aliases))
  {
    FirstIsFirst(env, matches, baked, declared, n, fs, aliases);
    MarksAgree(env, env', RefsOf(fs + aliases), matches, baked, declared);
    SameStart(env, env', MarkedAll(env.lock, matches, baked, declared), n, fs, aliases);
    Reproduced(env', matches, baked, declared, n, fs, aliases);
  }

  lemma AfterUpgrade(env: Env, env': Env, matches: Matcher, baked: seq<Metadata>, declared: seq<Feature>, n: nat, fs: seq<Feature>, aliases: seq<Feature>)
    requires World(env, matches, baked, declared) && env.lock.mode.Upgrade? && Call(env, matches, baked, declared, n, fs, aliases)
    requires Locks(env, env', RefsOf(fs + aliases)) && env == Lenient(env)
    ensures Reproduces(env', matches, baked, declared, RefsOf(fs + aliases))
  {
    var refs, next := RefsOf(fs + aliases), MarkedAll(env'.lock, matches, baked, declared);
    FirstIsFirst(env, matches, baked, declared, n, fs, aliases);
    RefsRepeat(env, env', MarkedAll(env.lock, matches, baked, declared), n, fs, aliases);
    UpgradeSound(env, matches, baked, declared, n, fs, aliases);
    var m := NextEnds(env, env', matches, baked, declared, refs);
    MarksDeclared(env, env'.lock, matches, baked, declared);
    EndRunning(env, next, m);
    var t := Iterate(env, Start(next), m);
    LockedEnd(env, env', next, m, t.features, t.aliases, declared, refs);
    Reproduced(env', matches, baked, declared, m, t.features, t.aliases);
  }

  lemma LenientWorld(env: Env, matches: Matcher, baked: seq<Metadata>, declared: seq<Feature>)
    requires World(env, matches, baked, declared)
    ensures World(Lenient(env), matches, baked, declared)
  {
    var lenient := Lenient(env);
    forall ref ensures ArtifactOf(lenient, ref) == ArtifactOf(env, ref) {}
    forall k | 0 <= k < |declared| ensures LabelTells(lenient, matches, baked, declared[k]) { assert LabelTells(env, matches, baked, declared[k]); }
  }

  lemma LenientLocks(env: Env, env': Env, refs: set<string>)
    requires Locks(env, env', refs)
    ensures Locks(Lenient(env), Lenient(env'), refs)
  {
    assert LockedRefs(Lenient(env), refs) == LockedRefs(env, refs) by {
      forall r ensures ArtifactEntry(Lenient(env), r) == ArtifactEntry(env, r) {}
    }
  }

  /** Did no one check local paths, the call after an upgrade call would build the same lockfile. */
  lemma LenientReproduces(env: Env, env': Env, matches: Matcher, baked: seq<Metadata>, declared: seq<Feature>, n: nat, fs: seq<Feature>, aliases: seq<Feature>)
    requires World(env, matches, baked, declared) && env.lock.mode.Upgrade? && Call(env, matches, baked, declared, n, fs, aliases)
    requires Locks(env, env', RefsOf(fs + aliases))
    ensures Reproduces(Lenient(env'), matches, baked, declared, RefsOf(fs + aliases))
  {
    var start := Start(MarkedAll(env.lock, matches, baked, declared));
    EndedUnrefused(env, start, n);
    UnrefusedSame(env, start, n);
    LenientWorld(env, matches, baked, declared);
    LenientLocks(env, env', RefsOf(fs + aliases));
    AfterUpgrade(Lenient(env), Lenient(env'), matches, baked, declared, n, fs, aliases);
  }

  /** A call in which nothing is refused does what it would do if no one checked. */
  lemma UnrefusedReproduces(env: Env, matches: Matcher, baked: seq<Metadata>, declared: seq<Feature>, refs: set<string>)
    requires Reproduces(Lenient(env), matches, baked, declared, refs) && !Refused(env, Start(MarkedAll(env.lock, matches, baked, declared)))
    ensures Reproduces(env, matches, baked, declared, refs)
  {
    var n, fs, aliases :| Call(Lenient(env), matches, baked, declared, n, fs, aliases) && RefsOf(fs + aliases) == refs && env.lock.existing == Some(NextLockfile(env.lock, fs + aliases));
    UnrefusedSame(env, Start(MarkedAll(env.lock, matches, baked, declared)), n);
    assert Call(env, matches, baked, declared, n, fs, aliases);
  }

  /** A call that builds its lockfile again refused nothing. */
  lemma ReproducedUnrefused(env: Env, matches: Matcher, baked: seq<Metadata>, declared: seq<Feature>, refs: set<string>)
    requires Reproduces(env, matches, baked, declared, refs)
    ensures !Refused(env, Start(MarkedAll(env.lock, matches, baked, declared)))
  {
    var n, fs, aliases :| Call(env, matches, baked, declared, n, fs, aliases) && RefsOf(fs + aliases) == refs && env.lock.existing == Some(NextLockfile(env.lock, fs + aliases));
    EndedUnrefused(env, Start(MarkedAll(env.lock, matches, baked, declared)), n);
  }

  /** The call comes to a failure. */
  ghost predicate Fails(env: Env, s: State) {
    exists k: nat :: Iterate(env, s, k).Failed?
  }

  /**
    From the declared features and the image's label: the lockfile a from-scratch
    call commits is the one the next default or frozen call builds again, so the
    default call writes nothing and the frozen one succeeds, exactly unless at
    some turn an entry names a local path that is refused to it and no longer
    listed; then that call fails. After a first default call this never happens.
    Every non-local feature fetched is asked for by its pin.
   */
  lemma LaterRuns(env: Env, env': Env, matches: Matcher, baked: seq<Metadata>, declared: seq<Feature>, n: nat, fs: seq<Feature>, aliases: seq<Feature>)
    requires World(env, matches, baked, declared) && FromScratch(env.lock) && Call(env, matches, baked, declared, n, fs, aliases)
    requires env' == env.(lock := env'.lock) && (env'.lock.mode.Default? || env'.lock.mode.Frozen?)
    requires env'.lock.existing == Some(NextLockfile(env.lock, fs + aliases))
    ensures var next := Start(MarkedAll(env'.lock, matches, baked, declared));
      && (Reproduces(env', matches, baked, declared, RefsOf(fs + aliases)) <==> !Refused(env', next))
      && (Refused(env', next) ==> Fails(env', next))
      && (env.lock.mode.Default? ==> !Refused(env', next))
    ensures AsksForPins(env', MarkedAll(env'.lock, matches, baked, declared))
  {
    var refs, next := RefsOf(fs + aliases), Start(MarkedAll(env'.lock, matches, baked, declared));
    LocksIs(env, env', matches, baked, declared, n, fs, aliases);
    PinsAsked(env, env', matches, baked, declared, n, fs, aliases);
    if env.lock.mode.Upgrade? {
      LenientReproduces(env, env', matches, baked, declared, n, fs, aliases);
      if !Refused(env', next) { UnrefusedReproduces(env', matches, baked, declared, refs); }
    } else {
      AfterDefault(env, env', matches, baked, declared, n, fs, aliases);
    }
    if Reproduces(env', matches, baked, declared, refs) { ReproducedUnrefused(env', matches, baked, declared, refs); }
    if Refused(env', next) {
      var k: nat :| Refuses(env', Iterate(env', next, k));
      RefusalFails(env', next, k);
    }
  }

  lemma LocksIs(env: Env, env': Env, matches: Matcher, baked: seq<Metadata>, declared: seq<Feature>, n: nat, fs: seq<Feature>, aliases: seq<Feature>)
    requires World(env, matches, baked, declared) && FromScratch(env.lock) && Call(env, matches, baked, declared, n, fs, aliases)
    requires env' == env.(lock := env'.lock) && (env'.lock.mode.Default? || env'.lock.mode.Frozen?)
    requires env'.lock.existing == Some(NextLockfile(env.lock, fs + aliases))
    ensures Locks(env, env', RefsOf(fs + aliases))
  {
    FirstIsFirst(env, matches, baked, declared, n, fs, aliases);
    FirstCommit(env, MarkedAll(env.lock, matches, baked, declared), n, fs, aliases);
  }

  lemma PinsAsked(env: Env, env': Env, matches: Matcher, baked: seq<Metadata>, declared: seq<Feature>, n: nat, fs: seq<Feature>, aliases: seq<Feature>)
    requires World(env, matches, baked, declared) && FromScratch(env.lock) && Call(env, matches, baked, declared, n, fs, aliases)
    requires Locks(env, env', RefsOf(fs + aliases))
    ensures AsksForPins(env', MarkedAll(env'.lock, matches, baked, declared))
  {
    FirstIsFirst(env, matches, baked, declared, n, fs, aliases);
    RefsRepeat(env, env', MarkedAll(env.lock, matches, baked, declared), n, fs, aliases);
    MarksDeclared(env, env'.lock, matches, baked, declared);
    LockedAsks(env, env', MarkedAll(env'.lock, matches, baked, declared), RefsOf(fs + aliases));
  }

  lemma EndRunning(env: Env, initial: seq<Feature>, n: nat)
    requires AllDeclared(env, initial) && Iterate(env, Start(initial), n).Running? && Done(Iterate(env, Start(initial), n))
    ensures var t := Iterate(env, Start(initial), n); t == Running(|t.features|, t.features, t.aliases)
  {
    StartTruthful(env, initial);
    IterateInv(env, Start(initial), n);
  }
}
