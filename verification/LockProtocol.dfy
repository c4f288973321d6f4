/**
  The lockfile over several calls: what the first call writes, and why the
  next ones write nothing and fetch only what is pinned.
  (lockfile.go, feature/lockfile.go, up.go:399-452, 1412-1509)
 */
module LockProtocol {
  import opened Prelude
  import Ordering
  import opened FeatureModel
  import opened Locking
  import opened Expansion
  import opened Layering

  // ---- what references denote ----

  /** The artifact a reference names, unpinned. */
  function ArtifactOf(env: Env, ref: string): Option<Fetched> {
    var kind := Classify(ref);
    env.store(if kind.Local? then env.localPath(ref) else ref, kind)
  }

  /** The references an artifact depends on. */
  function Leads(env: Env, ref: string): set<string> {
    match ArtifactOf(env, ref)
    case None => {}
    case Some(x) => x.metadata.Dependencies().Keys
  }

  /** The lockfile entry of the artifact a reference names. */
  ghost function ArtifactEntry(env: Env, ref: string): Option<Locked> {
    match ArtifactOf(env, ref)
    case None => None
    case Some(x) => Entry(Classify(ref), ref, x.resolvedRef, x.metadata.version, x.metadata.Dependencies().Keys)
  }

  /** g records the artifact its reference names. */
  ghost predicate Consistent(env: Env, g: Feature) {
    match ArtifactOf(env, g.ref)
    case None => false
    case Some(x) =>
      && g.resolvedRef == x.resolvedRef && g.metadata.version == x.metadata.version
      && g.metadata.Dependencies() == x.metadata.Dependencies() && (!g.alreadyInstalled ==> g.metadata == x.metadata)
  }

  /** What the image's label says of f is true of the artifact f names. */
  ghost predicate LabelTrue(env: Env, f: Feature) {
    match ArtifactOf(env, f.ref)
    case None => false
    case Some(x) =>
      f.resolvedRef == x.resolvedRef && f.metadata.version == x.metadata.version &&
      (BakedDependsOn(env, f).Some? ==> BakedDependsOn(env, f).value == x.metadata.Dependencies())
  }

  ghost predicate ClosedRefs(env: Env, refs: set<string>) {
    forall r :: r in refs ==> Leads(env, r) <= refs
  }

  /** A from-scratch call: no lockfile yet, or one whose pins are ignored. */
  ghost predicate Unpinned(env: Env) {
    env.lock.existing.None? || env.lock.mode.Upgrade?
  }

  /** The final entries and the dropped ones record what their references name. */
  ghost predicate Truthful(env: Env, s: State) {
    s.Running? ==>
      && s.i <= |s.features|
      && (forall k :: 0 <= k < |s.features| ==> s.features[k].kind == Classify(s.features[k].ref))
      && (forall k :: 0 <= k < s.i ==> Consistent(env, s.features[k]))
      && (forall k :: s.i <= k < |s.features| && s.features[k].alreadyInstalled ==> LabelTrue(env, s.features[k]))
      && (forall a :: 0 <= a < |s.aliases| ==> s.aliases[a].kind == Classify(s.aliases[a].ref) && Consistent(env, s.aliases[a]))
  }

  /** Every listed reference is among refs. */
  ghost predicate Within(s: State, refs: set<string>) {
    s.Running? ==>
      && (forall k :: 0 <= k < |s.features| ==> s.features[k].ref in refs)
      && (forall a :: 0 <= a < |s.aliases| ==> s.aliases[a].ref in refs)
  }

  lemma FinalConsistent(env: Env, f: Feature, f': Feature)
    requires Unpinned(env) && f.kind == Classify(f.ref) && Finalizes(env, f, f') && (f.alreadyInstalled ==> LabelTrue(env, f))
    ensures f'.ref == f.ref && Consistent(env, f') && f'.metadata.Dependencies().Keys == Leads(env, f.ref)
  {}

  lemma StepTruthful(env: Env, s: State)
    requires Unpinned(env) && Inv(s) && Truthful(env, s) && !Done(s)
    ensures Truthful(env, Step(env, s))
  {
    var t := Step(env, s);
    if t.Running? {
      var f', deps, kept := StepIs(env, s, t);
      FinalConsistent(env, s.features[s.i], f');
      if kept {
        GrewTruthful(env, s, t, f', deps);
      } else {
        forall k | 0 <= k < |t.features| ensures t.features[k] == s.features[if k < s.i then k else k + 1] {}
      }
    }
  }

  lemma StepWithin(env: Env, s: State, refs: set<string>)
    requires Unpinned(env) && Inv(s) && Truthful(env, s) && !Done(s) && ClosedRefs(env, refs) && Within(s, refs)
    ensures Within(Step(env, s), refs)
  {
    var t := Step(env, s);
    if t.Running? {
      var f', deps, kept := StepIs(env, s, t);
      FinalConsistent(env, s.features[s.i], f');
      if kept { GrewWithin(s, t, f', deps, refs); }
    }
  }

  /** What Truthful says of the k-th entry. */
  ghost predicate EntryTruthful(env: Env, s: State, k: nat)
    requires s.Running? && k < |s.features|
  {
    var g := s.features[k];
    g.kind == Classify(g.ref) && (k < s.i ==> Consistent(env, g)) && (k >= s.i && g.alreadyInstalled ==> LabelTrue(env, g))
  }

  lemma GrewEntry(env: Env, s: State, t: State, f': Feature, deps: seq<Feature>, k: nat)
    requires Grew(s, t, f', deps) && f'.kind == Classify(f'.ref) && Consistent(env, f') && k < |t.features|
    requires k < |s.features| ==> EntryTruthful(env, s, k)
    ensures EntryTruthful(env, t, k)
  {
    if k < |s.features| { assert t.features[k] == if k == s.i then f' else s.features[k]; }
    else { assert t.features[k] == deps[k - |s.features|] && IsRequestOf(f', t.features[k]); }
  }

  lemma GrewTruthful(env: Env, s: State, t: State, f': Feature, deps: seq<Feature>)
    requires Truthful(env, s) && Grew(s, t, f', deps) && f'.kind == Classify(f'.ref) && Consistent(env, f')
    ensures Truthful(env, t)
  {
    forall k | 0 <= k < |t.features| ensures EntryTruthful(env, t, k) { GrewEntry(env, s, t, f', deps, k); }
  }

  lemma GrewWithin(s: State, t: State, f': Feature, deps: seq<Feature>, refs: set<string>)
    requires Within(s, refs) && Grew(s, t, f', deps) && f'.metadata.Dependencies().Keys <= refs
    ensures Within(t, refs)
  {
    forall k | 0 <= k < |t.features| ensures t.features[k].ref in refs {
      if k < |s.features| { assert t.features[k].ref == s.features[k].ref; }
      else { assert t.features[k] == deps[k - |s.features|] && IsRequestOf(f', t.features[k]); }
    }
  }

  lemma {:induction false} IterateTruthful(env: Env, s: State, n: nat)
    requires Unpinned(env) && Inv(s) && Truthful(env, s)
    ensures Truthful(env, Iterate(env, s, n))
    decreases n
  {
    if n > 0 && !Done(s) {
      StepInv(env, s);
      StepTruthful(env, s);
      IterateTruthful(env, Step(env, s), n - 1);
    }
  }

  lemma {:induction false} IterateWithin(env: Env, s: State, n: nat, refs: set<string>)
    requires Unpinned(env) && Inv(s) && Truthful(env, s) && ClosedRefs(env, refs) && Within(s, refs)
    ensures Within(Iterate(env, s, n), refs)
    decreases n
  {
    if n > 0 && !Done(s) {
      StepInv(env, s);
      StepTruthful(env, s);
      StepWithin(env, s, refs);
      IterateWithin(env, Step(env, s), n - 1, refs);
    }
  }

  // ---- the references a finished expansion holds are exactly the reachable ones ----

  ghost function RefsOf(fs: seq<Feature>): set<string> {
    set k | 0 <= k < |fs| :: fs[k].ref
  }

  /** The least set holding the declared references and closed under dependsOn. */
  ghost predicate IsReachable(env: Env, initial: seq<Feature>, refs: set<string>) {
    && RefsOf(initial) <= refs && ClosedRefs(env, refs)
    && forall other :: RefsOf(initial) <= other && ClosedRefs(env, other) ==> refs <= other
  }

  /** A declared feature as layerFeatures starts from it. */
  ghost predicate Declared(env: Env, f: Feature) {
    Fresh(f) && f.kind == Classify(f.ref) && (f.alreadyInstalled ==> LabelTrue(env, f))
  }

  ghost predicate AllDeclared(env: Env, initial: seq<Feature>) {
    forall k :: 0 <= k < |initial| ==> Declared(env, initial[k])
  }

  lemma StartTruthful(env: Env, initial: seq<Feature>)
    requires AllDeclared(env, initial)
    ensures Inv(Start(initial)) && Truthful(env, Start(initial)) && Within(Start(initial), RefsOf(initial))
  {
    StartInv(initial);
    forall k | 0 <= k < |initial| { RefIn(initial, k); }
  }

  lemma WithinClosed(env: Env, initial: seq<Feature>, n: nat, fs: seq<Feature>, aliases: seq<Feature>, other: set<string>)
    requires Unpinned(env) && AllDeclared(env, initial) && Iterate(env, Start(initial), n) == Running(|fs|, fs, aliases)
    requires RefsOf(initial) <= other && ClosedRefs(env, other)
    ensures RefsOf(fs + aliases) <= other
  {
    StartTruthful(env, initial);
    IterateWithin(env, Start(initial), n, other);
    var all := fs + aliases;
    forall k | 0 <= k < |all| ensures all[k].ref in other {
      if k < |fs| { assert all[k] == fs[k]; } else { assert all[k] == aliases[k - |fs|]; }
    }
  }

  lemma RefIn(fs: seq<Feature>, k: nat)
    requires k < |fs|
    ensures fs[k].ref in RefsOf(fs)
  {}

  lemma GrewRefs(s: State, t: State, f': Feature, deps: seq<Feature>, r: string)
    requires Grew(s, t, f', deps) && r in RefsOf(s.features + s.aliases)
    ensures r in RefsOf(t.features + t.aliases)
  {
    var all, all' := s.features + s.aliases, t.features + t.aliases;
    var k :| 0 <= k < |all| && all[k].ref == r;
    var k' := if k < |s.features| then k else k + |deps|;
    assert all'[k'].ref == r;
    RefIn(all', k');
  }

  lemma DroppedRefs(s: State, t: State, f': Feature, r: string)
    requires Dropped(s, t, f') && r in RefsOf(s.features + s.aliases)
    ensures r in RefsOf(t.features + t.aliases)
  {
    var all, all' := s.features + s.aliases, t.features + t.aliases;
    var k :| 0 <= k < |all| && all[k].ref == r;
    var k' := if k < s.i then k else if k == s.i then |all'| - 1 else k - 1;
    assert all'[k'].ref == r;
    RefIn(all', k');
  }

  /** Every turn keeps the references already listed, final or dropped. */
  lemma StepKeepsRefs(env: Env, s: State, r: string)
    requires Inv(s) && !Done(s) && Step(env, s).Running? && r in RefsOf(s.features + s.aliases)
    ensures r in RefsOf(Step(env, s).features + Step(env, s).aliases)
  {
    var t := Step(env, s);
    var f', deps, kept := StepIs(env, s, t);
    if kept { GrewRefs(s, t, f', deps, r); } else { DroppedRefs(s, t, f', r); }
  }

  lemma {:induction false} IterateKeepsRefs(env: Env, s: State, n: nat, r: string)
    requires Inv(s) && s.Running? && Iterate(env, s, n).Running? && r in RefsOf(s.features + s.aliases)
    ensures r in RefsOf(Iterate(env, s, n).features + Iterate(env, s, n).aliases)
    decreases n
  {
    if n > 0 && !Done(s) {
      StepInv(env, s);
      if Step(env, s).Running? {
        StepKeepsRefs(env, s, r);
        IterateKeepsRefs(env, Step(env, s), n - 1, r);
      }
    }
  }

  lemma MetRef(s: State, key: string, opts: Options)
    requires s.Running? && Met(s.features, s.aliases, key, opts)
    ensures key in RefsOf(s.features + s.aliases)
  {
    var all := s.features + s.aliases;
    if k :| 0 <= k < |s.features| && s.features[k].ref == key && SameOptions(s.features[k], opts) { assert all[k] == s.features[k]; }
    else { var a :| 0 <= a < |s.aliases| && s.aliases[a].ref == key && SameOptions(s.aliases[a], opts); assert all[|s.features| + a] == s.aliases[a]; }
  }

  lemma SameArtifactLeads(env: Env, g: Feature, h: Feature)
    requires ContentAddressed(env) && Consistent(env, g) && Consistent(env, h) && g.resolvedRef == h.resolvedRef
    ensures Leads(env, g.ref) == Leads(env, h.ref)
  {}

  lemma LeadListed(env: Env, s: State, m: nat, key: string)
    requires s.Running? && s.i == |s.features| && AllMet(s) && m < |s.features|
    requires Consistent(env, s.features[m]) && key in Leads(env, s.features[m].ref)
    ensures key in RefsOf(s.features + s.aliases)
  {
    assert DepsMet(s, m);
    MetRef(s, key, s.features[m].metadata.Dependencies()[key]);
  }

  /** At the end, what an entry leads to is listed, for kept entries and for dropped aliases alike. */
  lemma EndLeads(env: Env, s: State, k: nat, key: string)
    requires ContentAddressed(env) && s.Running? && s.i == |s.features| && Inv(s) && Truthful(env, s)
    requires k < |s.features + s.aliases| && key in Leads(env, (s.features + s.aliases)[k].ref)
    ensures key in RefsOf(s.features + s.aliases)
  {
    if k < |s.features| {
      LeadListed(env, s, k, key);
    } else {
      var a := k - |s.features|;
      assert (s.features + s.aliases)[k] == s.aliases[a];
      var m := KeptFor(s, a);
      SameArtifactLeads(env, s.features[m], s.aliases[a]);
      LeadListed(env, s, m, key);
    }
  }

  lemma EndClosed(env: Env, s: State)
    requires ContentAddressed(env) && s.Running? && s.i == |s.features| && Inv(s) && Truthful(env, s)
    ensures ClosedRefs(env, RefsOf(s.features + s.aliases))
  {
    var all := s.features + s.aliases;
    forall r, key | r in RefsOf(all) && key in Leads(env, r) ensures key in RefsOf(all) {
      var k :| 0 <= k < |all| && all[k].ref == r;
      EndLeads(env, s, k, key);
    }
  }

  /** The kept entry an alias duplicates. */
  ghost function KeptFor(s: State, a: nat): (m: nat)
    requires s.Running? && s.i == |s.features| && AliasesKept(s) && a < |s.aliases|
    ensures m < |s.features| && s.features[m].resolvedRef == s.aliases[a].resolvedRef
  {
    assert s.features[..s.i] == s.features;
    assert Duplicate(s.features, s.aliases[a]);
    var m: nat :| m < |s.features| && s.features[m].resolvedRef != "" && s.features[m].resolvedRef == s.aliases[a].resolvedRef && s.features[m].unset == s.aliases[a].unset && s.features[m].options == s.aliases[a].options;
    m
  }

  /** What a finished expansion lists, kept or dropped, is every reference reachable through dependsOn and no other. */
  lemma ExpansionReaches(env: Env, initial: seq<Feature>, n: nat, fs: seq<Feature>, aliases: seq<Feature>)
    requires Unpinned(env) && ContentAddressed(env) && AllDeclared(env, initial)
    requires Iterate(env, Start(initial), n) == Running(|fs|, fs, aliases)
    ensures IsReachable(env, initial, RefsOf(fs + aliases))
  {
    var s := Running(|fs|, fs, aliases);
    var everything := RefsOf(fs + aliases);
    StartTruthful(env, initial);
    IterateInv(env, Start(initial), n);
    IterateTruthful(env, Start(initial), n);
    EndClosed(env, s);
    forall r | r in RefsOf(initial) ensures r in everything {
      assert initial + [] == initial;
      IterateKeepsRefs(env, Start(initial), n, r);
    }
    forall other | RefsOf(initial) <= other && ClosedRefs(env, other) ensures everything <= other {
      WithinClosed(env, initial, n, fs, aliases, other);
    }
  }

  // ---- the first commit ----

  /** The lockfile of a set of references: each non-local one with its artifact's entry. */
  ghost function LockedRefs(env: Env, refs: set<string>): Lockfile {
    map r | r in refs && ArtifactEntry(env, r).Some? :: ArtifactEntry(env, r).value
  }

  lemma {:induction false} NextIs(l: Lock, env: Env, fs: seq<Feature>)
    requires forall k :: 0 <= k < |fs| ==> Recorded(l, fs[k]) == ArtifactEntry(env, fs[k].ref)
    ensures NextLockfile(l, fs) == LockedRefs(env, RefsOf(fs))
  {
    if fs != [] {
      var n := |fs| - 1;
      NextIs(l, env, fs[..n]);
      RefsSnoc(fs);
      LockedSnoc(env, RefsOf(fs[..n]), fs[n].ref);
    }
  }

  lemma RefsSnoc(fs: seq<Feature>)
    requires fs != []
    ensures RefsOf(fs) == RefsOf(fs[..|fs| - 1]) + {fs[|fs| - 1].ref}
  {
    var n := |fs| - 1;
    forall r | r in RefsOf(fs[..n]) ensures r in RefsOf(fs) { var k :| 0 <= k < n && fs[..n][k].ref == r; RefIn(fs, k); }
    RefIn(fs, n);
    forall r | r in RefsOf(fs) ensures r in RefsOf(fs[..n]) + {fs[n].ref} {
      var k :| 0 <= k < |fs| && fs[k].ref == r;
      if k < n { assert fs[..n][k] == fs[k]; RefIn(fs[..n], k); }
    }
  }

  lemma LockedSnoc(env: Env, refs: set<string>, r: string)
    ensures LockedRefs(env, refs + {r}) ==
      if ArtifactEntry(env, r).Some? then LockedRefs(env, refs)[r := ArtifactEntry(env, r).value] else LockedRefs(env, refs)
  {}

  lemma EntryTrue(env: Env, g: Feature)
    requires g.kind == Classify(g.ref) && Consistent(env, g)
    ensures EntryOf(g) == ArtifactEntry(env, g.ref) && (EntryOf(g).Some? <==> !Classify(g.ref).Local?)
  {}

  /** A finished from-scratch expansion. */
  ghost predicate FirstRun(env: Env, initial: seq<Feature>, n: nat, fs: seq<Feature>, aliases: seq<Feature>) {
    Unpinned(env) && ContentAddressed(env) && AllDeclared(env, initial) && Iterate(env, Start(initial), n) == Running(|fs|, fs, aliases)
  }

  lemma FirstRunTruthful(env: Env, initial: seq<Feature>, n: nat, fs: seq<Feature>, aliases: seq<Feature>)
    requires FirstRun(env, initial, n, fs, aliases)
    ensures forall k :: 0 <= k < |fs + aliases| ==> (fs + aliases)[k].kind == Classify((fs + aliases)[k].ref) && Consistent(env, (fs + aliases)[k])
  {
    StartTruthful(env, initial);
    IterateTruthful(env, Start(initial), n);
    var all := fs + aliases;
    forall k | 0 <= k < |all| ensures all[k].kind == Classify(all[k].ref) && Consistent(env, all[k]) {
      assert all[k] == if k < |fs| then fs[k] else aliases[k - |fs|];
    }
  }

  /**
    A from-scratch commit records exactly the non-local references reachable
    through dependsOn, each with its artifact's entry, whatever the base image
    carried and whatever was dropped as a duplicate.
   */
  lemma FirstCommit(env: Env, initial: seq<Feature>, n: nat, fs: seq<Feature>, aliases: seq<Feature>)
    requires FirstRun(env, initial, n, fs, aliases)
    ensures IsReachable(env, initial, RefsOf(fs + aliases))
    ensures NextLockfile(env.lock, fs + aliases) == LockedRefs(env, RefsOf(fs + aliases))
    ensures forall r :: r in RefsOf(fs + aliases) ==> (r in LockedRefs(env, RefsOf(fs + aliases)) <==> !Classify(r).Local?)
  {
    ExpansionReaches(env, initial, n, fs, aliases);
    FirstRunTruthful(env, initial, n, fs, aliases);
    var all := fs + aliases;
    forall k | 0 <= k < |all| ensures Recorded(env.lock, all[k]) == ArtifactEntry(env, all[k].ref) { EntryTrue(env, all[k]); }
    NextIs(env.lock, env, all);
    forall r | r in RefsOf(all) ensures r in LockedRefs(env, RefsOf(all)) <==> !Classify(r).Local? {
      var k :| 0 <= k < |all| && all[k].ref == r;
      EntryTrue(env, all[k]);
    }
  }

  // ---- later runs ----

  /** A digest reference yields the content of that digest, whether spelled by the lockfile or by the label. */
  ghost predicate DigestsServed(env: Env) {
    forall ref :: Classify(ref).OCI? && ArtifactOf(env, ref).Some? ==>
      && env.repository(ref).Some?
      && env.store(env.repository(ref).value + "@" + Integrity(OCI, ArtifactOf(env, ref).value.resolvedRef), OCI) == ArtifactOf(env, ref)
      && env.store(ArtifactOf(env, ref).value.resolvedRef, OCI) == ArtifactOf(env, ref)
  }

  /** The reference handed to the store for f. */
  function AskedFor(env: Env, f: Feature): Option<string> {
    var pin := Pin(env.lock, f);
    if pin.Some? then PinnedRef(env, f, pin.value)
    else Some(if f.kind.Local? then env.localPath(f.ref) else f.ref)
  }

  /** The same world with a lockfile in force. */
  ghost predicate Locks(env: Env, env': Env, refs: set<string>) {
    env' == env.(lock := env'.lock) && env'.lock.existing == Some(LockedRefs(env, refs)) && (env'.lock.mode.Default? || env'.lock.mode.Frozen?)
  }

  /** Under its pin a reference yields the same artifact, asked for by digest. */
  lemma FetchPinned(env: Env, env': Env, refs: set<string>, f: Feature)
    requires Unpinned(env) && DigestsServed(env) && Locks(env, env', refs)
    requires f.ref in refs && f.kind == Classify(f.ref) && ArtifactOf(env, f.ref).Some?
    ensures Fetch(env', f) == Fetch(env, f) == ArtifactOf(env, f.ref)
    ensures !f.kind.Local? ==> Pin(env'.lock, f) == ArtifactEntry(env, f.ref)
    ensures f.kind.OCI? ==> AskedFor(env', f) == Some(env.repository(f.ref).value + "@" + ArtifactEntry(env, f.ref).value.integrity)
  {}

  lemma {:induction false} MissingSame(env: Env, env': Env, fs: seq<Feature>, f: Feature, keys: seq<string>, k: nat, out: seq<Feature>)
    requires env' == env.(lock := env'.lock)
    requires k <= |keys| && forall i :: 0 <= i < |keys| ==> keys[i] in f.metadata.Dependencies()
    ensures Missing(env', fs, f, keys, k, out) == Missing(env, fs, f, keys, k, out)
    decreases |keys| - k
  {
    if k < |keys| {
      var opts := f.metadata.Dependencies()[keys[k]];
      MissingSame(env, env', fs, f, keys, k + 1, out);
      MissingSame(env, env', fs, f, keys, k + 1, out + [Unfetched(keys[k], opts)]);
    }
  }

  lemma GrowSame(env: Env, env': Env, s: State, f: Feature)
    requires env' == env.(lock := env'.lock) && s.Running? && s.i < |s.features|
    ensures Grow(env', s, f) == Grow(env, s, f)
  {
    var keys := Ordering.SortedKeys(f.metadata.Dependencies().Keys);
    assert forall i :: 0 <= i < |keys| ==> keys[i] in Elements(keys);
    MissingSame(env, env', s.features[s.i := f], f, keys, 0, []);
  }

  lemma StepSame(env: Env, env': Env, s: State)
    requires env' == env.(lock := env'.lock) && s.Running? && s.i < |s.features|
    requires Fetch(env', s.features[s.i]) == Fetch(env, s.features[s.i])
    ensures Step(env', s) == Step(env, s)
  {
    var f := s.features[s.i];
    if f.alreadyInstalled {
      var deps := BakedDependsOn(env, f);
      if deps.Some? { GrowSame(env, env', s, f.(metadata := f.metadata.(dependsOn := deps))); }
    } else if Fetch(env, f).Some? {
      var got := Fetch(env, f).value;
      var merged := MergedOptions(got.metadata.options, f.options);
      if merged.Some? { GrowSame(env, env', s, Install(f, got, merged.value)); }
    }
  }

  /** The world of the locked run, and that every reference in it has an artifact. */
  ghost predicate Repeatable(env: Env, env': Env, refs: set<string>) {
    && Unpinned(env) && DigestsServed(env) && Locks(env, env', refs) && ClosedRefs(env, refs)
    && forall r :: r in refs ==> ArtifactOf(env, r).Some?
  }

  ghost predicate OnCourse(env: Env, s: State, refs: set<string>) {
    Inv(s) && Truthful(env, s) && Within(s, refs)
  }

  lemma TurnSame(env: Env, env': Env, s: State, refs: set<string>)
    requires Repeatable(env, env', refs) && OnCourse(env, s, refs) && !Done(s)
    ensures Step(env', s) == Step(env, s) && OnCourse(env, Step(env, s), refs)
  {
    FetchPinned(env, env', refs, s.features[s.i]);
    StepSame(env, env', s);
    StepInv(env, s);
    StepTruthful(env, s);
    StepWithin(env, s, refs);
  }

  /** The k-th turn from s is the same in both worlds. */
  ghost predicate TurnAgrees(env: Env, env': Env, s: State, k: nat) {
    !Done(Iterate(env, s, k)) ==> Step(env', Iterate(env, s, k)) == Step(env, Iterate(env, s, k))
  }

  lemma AgreesOnce(env: Env, env': Env, s: State, n: nat)
    requires Iterate(env', s, n) == Iterate(env, s, n) && TurnAgrees(env, env', s, n)
    ensures Iterate(env', s, n + 1) == Iterate(env, s, n + 1)
  {
    IterateSnoc(env, s, n);
    IterateSnoc(env', s, n);
  }

  lemma {:induction false} IterateAgrees(env: Env, env': Env, s: State, n: nat)
    requires forall k: nat :: k < n ==> TurnAgrees(env, env', s, k)
    ensures Iterate(env', s, n) == Iterate(env, s, n)
    decreases n
  {
    if n > 0 {
      IterateAgrees(env, env', s, n - 1);
      AgreesOnce(env, env', s, n - 1);
    }
  }

  /** A locked run takes the same turns as the from-scratch run did. */
  lemma SameRun(env: Env, env': Env, s: State, n: nat, refs: set<string>)
    requires Repeatable(env, env', refs) && OnCourse(env, s, refs)
    ensures Iterate(env', s, n) == Iterate(env, s, n)
  {
    forall k: nat | k < n ensures TurnAgrees(env, env', s, k) {
      IterateInv(env, s, k);
      IterateTruthful(env, s, k);
      IterateWithin(env, s, k, refs);
      if !Done(Iterate(env, s, k)) { TurnSame(env, env', Iterate(env, s, k), refs); }
    }
    IterateAgrees(env, env', s, n);
  }

  /**
    After a from-scratch commit, a default or frozen run from the same marked
    list ends with the same features and builds the lockfile it read.
   */
  lemma SameStart(env: Env, env': Env, initial: seq<Feature>, n: nat, fs: seq<Feature>, aliases: seq<Feature>)
    requires FirstRun(env, initial, n, fs, aliases) && DigestsServed(env)
    requires Locks(env, env', RefsOf(fs + aliases))
    ensures Iterate(env', Start(initial), n) == Running(|fs|, fs, aliases)
    ensures env'.lock.existing == Some(NextLockfile(env'.lock, fs + aliases))
  {
    var all := fs + aliases;
    var refs := RefsOf(all);
    FirstCommit(env, initial, n, fs, aliases);
    FirstRunTruthful(env, initial, n, fs, aliases);
    forall r | r in refs ensures ArtifactOf(env, r).Some? { var k :| 0 <= k < |all| && all[k].ref == r; }
    StartTruthful(env, initial);
    assert Within(Start(initial), refs);
    SameRun(env, env', Start(initial), n, refs);
    forall k | 0 <= k < |all| ensures Recorded(env'.lock, all[k]) == ArtifactEntry(env, all[k].ref) {
      EntryTrue(env, all[k]);
      RefIn(all, k);
      FetchPinned(env, env', refs, all[k]);
    }
    NextIs(env'.lock, env, all);
  }
}
