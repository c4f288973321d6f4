/**
  When a call after an upgrade call fails over a local path: what it takes, and an
  input on which it happens. (up.go:462-484, 495-520, 1432-1509)
 */
module LockRefused {
  import opened Prelude
  import Ordering
  import opened FeatureModel
  import opened Locking
  import opened Expansion
  import opened Layering
  import opened LockProtocol
  import opened LockLater

  // ---- what it takes ----

  /** The dependency is declared as asked for, and no other reachable reference has its content. */
  ghost predicate Steady(env: Env, declared: seq<Feature>, refs: set<string>, key: string, opts: Options) {
    && Classify(key).Local? && Requested(declared, key, opts)
    && forall r :: r in refs && ArtifactOf(env, r).Some? && ArtifactOf(env, key).Some? && ArtifactOf(env, r).value.resolvedRef == ArtifactOf(env, key).value.resolvedRef ==> r == key
  }

  /** A reachable artifact names a local path it may not, and that path is not steady. */
  ghost predicate Exposed(env: Env, declared: seq<Feature>, refs: set<string>, r: string, key: string) {
    && r in refs && key in DepsOf(env, r) && Classify(key).Local? && !env.localAllowed(Classify(r), key)
    && !Steady(env, declared, refs, key, DepsOf(env, r)[key])
  }

  /** Only published features come from the base image. */
  ghost predicate BakedPublished(s: State) {
    s.Running? ==> forall k :: 0 <= k < |s.features| && s.features[k].alreadyInstalled ==> s.features[k].kind.OCI?
  }

  lemma GrewPublished(s: State, t: State, f': Feature, deps: seq<Feature>)
    requires BakedPublished(s) && Grew(s, t, f', deps) && (f'.alreadyInstalled ==> f'.kind.OCI?)
    ensures BakedPublished(t)
  {
    forall k | 0 <= k < |t.features| ensures t.features[k].alreadyInstalled ==> t.features[k].kind.OCI? {
      if k < |s.features| { assert t.features[k] == if k == s.i then f' else s.features[k]; }
      else { assert t.features[k] == deps[k - |s.features|]; RequestFresh(f', t.features[k]); }
    }
  }

  lemma StepBakedPublished(env: Env, s: State)
    requires Inv(s) && BakedPublished(s) && !Done(s)
    ensures BakedPublished(Step(env, s))
  {
    var t := Step(env, s);
    if t.Running? {
      var f', deps, kept := StepIs(env, s, t);
      if kept { GrewPublished(s, t, f', deps); }
    }
  }

  /** The entry that outlives a dropped steady one stands under the same reference. */
  lemma SteadyTwin(env: Env, s: State, f': Feature, declared: seq<Feature>, refs: set<string>, key: string, opts: Options) returns (j: nat)
    requires OnCourse(env, s, refs) && BakedPublished(s) && !Done(s) && Steady(env, declared, refs, key, opts)
    requires f'.ref == key && SameOptions(f', opts) && Consistent(env, f') && !f'.alreadyInstalled && Duplicate(s.features[..s.i], f')
    ensures j < s.i && s.features[j].ref == key && SameOptions(s.features[j], opts)
  {
    var earlier := s.features[..s.i];
    var k :| 0 <= k < |earlier| && earlier[k].resolvedRef != "" && earlier[k].resolvedRef == f'.resolvedRef && earlier[k].unset == f'.unset && earlier[k].options == f'.options;
    j := k;
    assert Consistent(env, s.features[j]) && s.features[j].ref in refs;
  }

  lemma GrewHolds(s: State, t: State, f': Feature, deps: seq<Feature>, key: string, opts: Options)
    requires Grew(s, t, f', deps) && Answers(s.features[s.i], f') && Requested(s.features, key, opts)
    ensures Requested(t.features, key, opts)
  {
    var k :| 0 <= k < |s.features| && s.features[k].ref == key && SameOptions(s.features[k], opts);
    assert t.features[k] == if k == s.i then f' else s.features[k];
  }

  lemma DroppedHolds(env: Env, s: State, t: State, f': Feature, declared: seq<Feature>, refs: set<string>, key: string, opts: Options)
    requires OnCourse(env, s, refs) && BakedPublished(s) && !Done(s) && Dropped(s, t, f') && Steady(env, declared, refs, key, opts)
    requires Answers(s.features[s.i], f') && Consistent(env, f') && !f'.alreadyInstalled && Requested(s.features, key, opts)
    ensures Requested(t.features, key, opts)
  {
    var k :| 0 <= k < |s.features| && s.features[k].ref == key && SameOptions(s.features[k], opts);
    if k == s.i {
      k := SteadyTwin(env, s, f', declared, refs, key, opts);
    }
    StaysListed(s, t, f', k, key, opts);
  }

  lemma StaysListed(s: State, t: State, f': Feature, k: nat, key: string, opts: Options)
    requires Dropped(s, t, f') && k < |s.features| && k != s.i && s.features[k].ref == key && SameOptions(s.features[k], opts)
    ensures Requested(t.features, key, opts)
  {
    assert t.features[if k < s.i then k else k - 1] == s.features[k];
  }

  lemma SteadyStep(env: Env, s: State, declared: seq<Feature>, refs: set<string>, key: string, opts: Options)
    requires Unpinned(env) && OnCourse(env, s, refs) && BakedPublished(s) && !Done(s) && Step(env, s).Running?
    requires Steady(env, declared, refs, key, opts) && Requested(s.features, key, opts)
    ensures Requested(Step(env, s).features, key, opts)
  {
    var t := Step(env, s);
    var f', deps, kept := DropsFetched(env, s, t);
    FinalConsistent(env, s.features[s.i], f');
    if kept { GrewHolds(s, t, f', deps, key, opts); } else { DroppedHolds(env, s, t, f', declared, refs, key, opts); }
  }

  /** Only fetched entries are dropped. */
  lemma DropsFetched(env: Env, s: State, t: State) returns (f': Feature, deps: seq<Feature>, kept: bool)
    requires !Done(s) && FreshTail(s) && t == Step(env, s) && t.Running?
    ensures Finalizes(env, s.features[s.i], f') && Answers(s.features[s.i], f')
    ensures if kept then Grew(s, t, f', deps) else Dropped(s, t, f') && !f'.alreadyInstalled
  {
    f', deps, kept := StepIs(env, s, t);
  }

  /** What a run keeps on its way while key stays listed. */
  ghost predicate Holding(env: Env, s: State, refs: set<string>, key: string, opts: Options) {
    OnCourse(env, s, refs) && BakedPublished(s) && (s.Running? ==> Requested(s.features, key, opts))
  }

  lemma {:induction false} SteadyRun(env: Env, s: State, n: nat, declared: seq<Feature>, refs: set<string>, key: string, opts: Options)
    requires Unpinned(env) && ClosedRefs(env, refs) && Steady(env, declared, refs, key, opts) && Holding(env, s, refs, key, opts)
    ensures Holding(env, Iterate(env, s, n), refs, key, opts)
    decreases n
  {
    if n > 0 && !Done(s) {
      StepInv(env, s);
      StepTruthful(env, s);
      StepWithin(env, s, refs);
      StepBakedPublished(env, s);
      if Step(env, s).Running? { SteadyStep(env, s, declared, refs, key, opts); }
      SteadyRun(env, Step(env, s), n - 1, declared, refs, key, opts);
    }
  }

  lemma MarkedPublished(lock: Lock, matches: Matcher, baked: seq<Metadata>, declared: seq<Feature>)
    requires AllRaw(declared)
    ensures BakedPublished(Start(MarkedAll(lock, matches, baked, declared)))
  {
    var gs := MarkedAll(lock, matches, baked, declared);
    forall k | 0 <= k < |gs| && gs[k].alreadyInstalled ensures gs[k].kind.OCI? {
      assert Raw(declared[k]);
      BakedIs(lock, matches, baked, declared[k]);
    }
  }

  lemma MarkedRequested(lock: Lock, matches: Matcher, baked: seq<Metadata>, declared: seq<Feature>, key: string, opts: Options)
    requires AllRaw(declared) && Classify(key).Local? && Requested(declared, key, opts)
    ensures Requested(MarkedAll(lock, matches, baked, declared), key, opts)
  {
    var k :| 0 <= k < |declared| && declared[k].ref == key && SameOptions(declared[k], opts);
    assert Raw(declared[k]);
    assert MarkedAll(lock, matches, baked, declared)[k] == declared[k];
  }

  /** The list a call starts from holds what the declared one asks for of local paths. */
  lemma MarkedHolds(env: Env, lock: Lock, matches: Matcher, baked: seq<Metadata>, declared: seq<Feature>, refs: set<string>, key: string, opts: Options)
    requires !lock.mode.Disabled? && DigestsServed(env) && AllRaw(declared) && LabelsTell(env, matches, baked, declared) && RefsOf(declared) <= refs
    requires Steady(env, declared, refs, key, opts)
    ensures Holding(env, Start(MarkedAll(lock, matches, baked, declared)), refs, key, opts)
  {
    MarksDeclared(env, lock, matches, baked, declared);
    StartTruthful(env, MarkedAll(lock, matches, baked, declared));
    MarkedPublished(lock, matches, baked, declared);
    MarkedRequested(lock, matches, baked, declared, key, opts);
  }

  /** A refusal is over an exposed path. */
  lemma RefusalExposes(env: Env, env': Env, s: State, declared: seq<Feature>, refs: set<string>)
    requires Repeatable(env, env', refs) && OnCourse(env, s, refs) && Refuses(env', s)
    requires forall key, opts :: Steady(env, declared, refs, key, opts) ==> Requested(s.features, key, opts)
    ensures exists r, key :: Exposed(env, declared, refs, r, key)
  {
    var f := s.features[s.i];
    FetchPinned(env, env', refs, f);
    var f' :| Finalizes(env', f, f') && (f'.alreadyInstalled || !Duplicate(s.features[..s.i], f')) && NamesRefused(env', s.features[s.i := f'], f');
    FinalizesAnswers(env, f, f');
    FinalConsistent(env, f, f');
    var key :| RefusedKey(env', s.features[s.i := f'], f', key);
    var opts := f'.metadata.Dependencies()[key];
    assert opts == DepsOf(env, f.ref)[key];
    if Steady(env, declared, refs, key, opts) { KeptRequested(s.features, s.i, f', key, opts); }
    assert Exposed(env, declared, refs, f.ref, key);
  }

  lemma KeptRequested(fs: seq<Feature>, i: nat, f': Feature, key: string, opts: Options)
    requires i < |fs| && f'.ref == fs[i].ref && Answers(fs[i], f') && Requested(fs, key, opts)
    ensures Requested(fs[i := f'], key, opts)
  {
    var k :| 0 <= k < |fs| && fs[k].ref == key && SameOptions(fs[k], opts);
    assert fs[i := f'][k] == if k == i then f' else fs[k];
  }

  /** No turn of an unmarked run after an upgrade call refuses anything: it repeats the turns of that call. */
  lemma UnmarkedRepeats(env: Env, env': Env, matches: Matcher, baked: seq<Metadata>, declared: seq<Feature>, n: nat, fs: seq<Feature>, aliases: seq<Feature>)
    requires World(env, matches, baked, declared) && env.lock.mode.Upgrade? && Call(env, matches, baked, declared, n, fs, aliases)
    requires Locks(env, env', RefsOf(fs + aliases)) && MarkedAll(env'.lock, matches, baked, declared) == declared
    ensures !Refused(env', Start(declared))
  {
    UpgradeMarksNone(env.lock, matches, baked, declared);
    FirstIsFirst(env, matches, baked, declared, n, fs, aliases);
    SameStart(env, env', declared, n, fs, aliases);
    EndedUnrefused(env', Start(declared), n);
  }

  lemma RefusedExposes(env: Env, env': Env, matches: Matcher, baked: seq<Metadata>, declared: seq<Feature>, refs: set<string>, k: nat)
    requires World(env, matches, baked, declared) && Repeatable(env, env', refs) && RefsOf(declared) <= refs
    requires Refuses(env', Iterate(env', Start(MarkedAll(env'.lock, matches, baked, declared)), k))
    ensures exists r, key :: Exposed(env, declared, refs, r, key)
  {
    var initial := MarkedAll(env'.lock, matches, baked, declared);
    MarksDeclared(env, env'.lock, matches, baked, declared);
    StartTruthful(env, initial);
    assert Within(Start(initial), refs);
    SameRun(env, env', Start(initial), k, refs);
    IterateInv(env, Start(initial), k);
    IterateTruthful(env, Start(initial), k);
    IterateWithin(env, Start(initial), k, refs);
    var s := Iterate(env, Start(initial), k);
    forall key, opts | Steady(env, declared, refs, key, opts) ensures Requested(s.features, key, opts) {
      MarkedHolds(env, env'.lock, matches, baked, declared, refs, key, opts);
      SteadyRun(env, Start(initial), k, declared, refs, key, opts);
    }
    RefusalExposes(env, env', s, declared, refs);
  }

  /**
    What can be seen before the call: it fails over a local path only if the base
    image carries a declared feature and some reachable artifact names a local path
    it may not, one that is not declared with those options or that shares its
    content with another reachable reference.
   */
  lemma RefusedOnlyIf(env: Env, env': Env, matches: Matcher, baked: seq<Metadata>, declared: seq<Feature>, n: nat, fs: seq<Feature>, aliases: seq<Feature>)
    requires World(env, matches, baked, declared) && env.lock.mode.Upgrade? && Call(env, matches, baked, declared, n, fs, aliases)
    requires env' == env.(lock := env'.lock) && (env'.lock.mode.Default? || env'.lock.mode.Frozen?)
    requires env'.lock.existing == Some(NextLockfile(env.lock, fs + aliases))
    requires Refused(env', Start(MarkedAll(env'.lock, matches, baked, declared)))
    ensures MarkedAll(env'.lock, matches, baked, declared) != declared
    ensures exists r, key :: Exposed(env, declared, RefsOf(fs + aliases), r, key)
  {
    LocksIs(env, env', matches, baked, declared, n, fs, aliases);
    if MarkedAll(env'.lock, matches, baked, declared) == declared { UnmarkedRepeats(env, env', matches, baked, declared, n, fs, aliases); }
    FirstIsFirst(env, matches, baked, declared, n, fs, aliases);
    RefsRepeat(env, env', MarkedAll(env.lock, matches, baked, declared), n, fs, aliases);
    var k: nat :| Refuses(env', Iterate(env', Start(MarkedAll(env'.lock, matches, baked, declared)), k));
    RefusedExposes(env, env', matches, baked, declared, RefsOf(fs + aliases), k);
  }
}
