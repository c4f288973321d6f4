/**
  The fetch-and-expand loop of layerFeatures: a worklist that grows while it is
  scanned. Step is one turn of the loop; the properties are invariants of Step,
  and the loop itself is a method that follows it. (up.go:1424-1505, 462-558)
 */
module Expansion {
  import opened Prelude
  import opened Ordering
  import opened FeatureModel
  import opened Locking

  /** The outside world of one call: one answer per reference, and the lockfile's view. */
  datatype Env = Env(
    store: (string, SourceKind) -> Option<Fetched>,  // Store.Fetch; None is a failed fetch
    repository: string -> Option<string>,            // the repository of an OCI reference, None if unparseable
    localPath: string -> string,                     // feature.ResolveLocalRef
    localAllowed: (SourceKind, string) -> bool,      // checkLocalDependency
    lock: Lock)

  datatype State =
    | Running(i: nat, features: seq<Feature>, aliases: seq<Feature>)
    | Failed(ref: string)

  function Classify(ref: string): SourceKind {
    if "./" <= ref || "../" <= ref || "/" <= ref then Local
    else if "https://" <= ref || "http://" <= ref then HTTPS
    else OCI
  }

  /** The reference a pinned feature is fetched by: the repository at the locked digest for OCI, else as written. */
  function PinnedRef(env: Env, f: Feature, pin: Locked): Option<string> {
    if !f.kind.OCI? then Some(f.ref)
    else if env.repository(f.ref).None? then None
    else Some(env.repository(f.ref).value + "@" + pin.integrity)
  }

  /** What fetching f yields: the artifact its pin allows, or whatever its reference names. */
  function Fetch(env: Env, f: Feature): Option<Fetched> {
    var pin := Pin(env.lock, f);
    if pin.None? then env.store(if f.kind.Local? then env.localPath(f.ref) else f.ref, f.kind)
    else
      var ref := PinnedRef(env, f, pin.value);
      if ref.None? || env.store(ref.value, f.kind).None? then None
      else
        var got := env.store(ref.value, f.kind).value;
        if Integrity(f.kind, got.resolvedRef) == pin.value.integrity then Some(got) else None
  }

  function Install(f: Feature, got: Fetched, merged: Options): Feature {
    f.(dir := got.dir, resolvedRef := got.resolvedRef, metadata := got.metadata, options := merged, unset := false)
  }

  predicate Requested(fs: seq<Feature>, key: string, opts: Options) {
    exists k :: 0 <= k < |fs| && fs[k].ref == key && SameOptions(fs[k], opts)
  }

  /** duplicateFeature: an earlier entry with f's content and options. */
  predicate Duplicate(earlier: seq<Feature>, f: Feature) {
    exists k :: 0 <= k < |earlier| && earlier[k].resolvedRef != "" && earlier[k].resolvedRef == f.resolvedRef && earlier[k].unset == f.unset && earlier[k].options == f.options
  }

  function Unfetched(key: string, opts: Options): Feature {
    Feature(key, "", "", NoMetadata, opts, false, Classify(key), false)
  }

  /** dependencies, from the k-th sorted key on: the requests not already held, or None when a local key is refused. */
  function Missing(env: Env, fs: seq<Feature>, f: Feature, keys: seq<string>, k: nat, out: seq<Feature>): Option<seq<Feature>>
    requires k <= |keys| && forall i :: 0 <= i < |keys| ==> keys[i] in f.metadata.Dependencies()
    decreases |keys| - k
  {
    if k == |keys| then Some(out)
    else
      var opts := f.metadata.Dependencies()[keys[k]];
      if Requested(fs, keys[k], opts) || Requested(out, keys[k], opts) then Missing(env, fs, f, keys, k + 1, out)
      else if Classify(keys[k]).Local? && !env.localAllowed(f.kind, keys[k]) then None
      else Missing(env, fs, f, keys, k + 1, out + [Unfetched(keys[k], opts)])
  }

  ghost function Dependencies(env: Env, fs: seq<Feature>, f: Feature): Option<seq<Feature>> {
    var keys := SortedKeys(f.metadata.Dependencies().Keys);
    assert forall i :: 0 <= i < |keys| ==> keys[i] in Elements(keys);
    Missing(env, fs, f, keys, 0, [])
  }

  /** The entry at i, now final, brings in what it depends on. */
  ghost function Grow(env: Env, s: State, f: Feature): State
    requires s.Running? && s.i < |s.features|
  {
    var fs := s.features[s.i := f];
    match Dependencies(env, fs, f)
    case None => Failed(f.ref)
    case Some(deps) => Running(s.i + 1, fs + deps, s.aliases)
  }

  /** bakedDependsOn: what the label does not record is read at the artifact the image carries. */
  function BakedDependsOn(env: Env, f: Feature): Option<map<string, Options>> {
    if f.metadata.dependsOn.Some? then f.metadata.dependsOn
    else
      match env.store(if f.resolvedRef != "" && f.kind.OCI? then f.resolvedRef else f.ref, f.kind)
      case None => None
      case Some(got) => Some(got.metadata.Dependencies())
  }

  ghost function Step(env: Env, s: State): State
    requires s.Running? && s.i < |s.features|
  {
    var f := s.features[s.i];
    if f.alreadyInstalled then
      match BakedDependsOn(env, f)
      case None => Failed(f.ref)
      case Some(deps) => Grow(env, s, f.(metadata := f.metadata.(dependsOn := Some(deps))))
    else if f.dir != "" then s.(i := s.i + 1)
    else
      match Fetch(env, f)
      case None => Failed(f.ref)
      case Some(got) =>
        match MergedOptions(got.metadata.options, f.options)
        case None => Failed(f.ref)
        case Some(merged) =>
          var f' := Install(f, got, merged);
          if Duplicate(s.features[..s.i], f') then
            Running(s.i, s.features[..s.i] + s.features[s.i + 1..], s.aliases + [f'])
          else Grow(env, s, f')
  }

  predicate Done(s: State) {
    s.Failed? || s.i >= |s.features|
  }

  /** The state after at most n turns. */
  ghost function Iterate(env: Env, s: State, n: nat): State
    decreases n
  {
    if n == 0 || Done(s) then s else Iterate(env, Step(env, s), n - 1)
  }

  ghost function Start(fs: seq<Feature>): State { Running(0, fs, []) }

  // ---- what dependencies returns ----

  lemma UnfetchedHolds(key: string, opts: Options)
    ensures SameOptions(Unfetched(key, opts), opts)
  {
    assert Defaults(map[]) + opts == opts;
  }

  ghost predicate IsRequestOf(f: Feature, g: Feature) {
    exists key :: key in f.metadata.Dependencies() && g == Unfetched(key, f.metadata.Dependencies()[key])
  }

  lemma {:induction false} MissingRequests(env: Env, fs: seq<Feature>, f: Feature, keys: seq<string>, k: nat, out: seq<Feature>, r: seq<Feature>)
    requires k <= |keys| && forall i :: 0 <= i < |keys| ==> keys[i] in f.metadata.Dependencies()
    requires Missing(env, fs, f, keys, k, out) == Some(r)
    ensures out <= r && forall m :: |out| <= m < |r| ==> IsRequestOf(f, r[m])
    decreases |keys| - k
  {
    if k < |keys| {
      var opts := f.metadata.Dependencies()[keys[k]];
      if Requested(fs, keys[k], opts) || Requested(out, keys[k], opts) {
        MissingRequests(env, fs, f, keys, k + 1, out, r);
      } else {
        var out' := out + [Unfetched(keys[k], opts)];
        MissingRequests(env, fs, f, keys, k + 1, out', r);
        assert r[|out|] == out'[|out|];
        assert IsRequestOf(f, r[|out|]);
      }
    }
  }

  lemma RequestedPrefix(a: seq<Feature>, b: seq<Feature>, key: string, opts: Options)
    requires a <= b && Requested(a, key, opts)
    ensures Requested(b, key, opts)
  {
    var k :| 0 <= k < |a| && a[k].ref == key && SameOptions(a[k], opts);
    assert b[k] == a[k];
  }

  lemma {:induction false} MissingCovers(env: Env, fs: seq<Feature>, f: Feature, keys: seq<string>, k: nat, out: seq<Feature>, r: seq<Feature>, i: nat)
    requires k <= |keys| && forall i :: 0 <= i < |keys| ==> keys[i] in f.metadata.Dependencies()
    requires Missing(env, fs, f, keys, k, out) == Some(r) && k <= i < |keys|
    ensures Requested(fs, keys[i], f.metadata.Dependencies()[keys[i]]) || Requested(r, keys[i], f.metadata.Dependencies()[keys[i]])
    decreases |keys| - k
  {
    var opts := f.metadata.Dependencies()[keys[k]];
    var held := Requested(fs, keys[k], opts) || Requested(out, keys[k], opts);
    var out' := if held then out else out + [Unfetched(keys[k], opts)];
    MissingRequests(env, fs, f, keys, k + 1, out', r);
    if i > k {
      MissingCovers(env, fs, f, keys, k + 1, out', r, i);
    } else if !Requested(fs, keys[k], opts) {
      if !held { UnfetchedHolds(keys[k], opts); assert out'[|out|] == Unfetched(keys[k], opts); }
      RequestedPrefix(out', r, keys[k], opts);
    }
  }

  /** Every dependency of f is held by the list or among the requests returned, and only dependencies are requested. */
  lemma DependenciesIs(env: Env, fs: seq<Feature>, f: Feature, deps: seq<Feature>)
    requires Dependencies(env, fs, f) == Some(deps)
    ensures forall m :: 0 <= m < |deps| ==> IsRequestOf(f, deps[m])
    ensures forall key :: key in f.metadata.Dependencies() ==> Requested(fs + deps, key, f.metadata.Dependencies()[key])
  {
    var all := f.metadata.Dependencies();
    var keys := SortedKeys(all.Keys);
    assert forall i :: 0 <= i < |keys| ==> keys[i] in Elements(keys);
    MissingRequests(env, fs, f, keys, 0, [], deps);
    forall key | key in all ensures Requested(fs + deps, key, all[key]) {
      assert key in Elements(keys);
      var i :| 0 <= i < |keys| && keys[i] == key;
      MissingCovers(env, fs, f, keys, 0, [], deps, i);
      RequestedConcat(fs, deps, key, all[key]);
    }
  }

  lemma RequestedConcat(a: seq<Feature>, b: seq<Feature>, key: string, opts: Options)
    ensures Requested(a, key, opts) || Requested(b, key, opts) <==> Requested(a + b, key, opts)
  {
    var s := a + b;
    if k :| 0 <= k < |a| && a[k].ref == key && SameOptions(a[k], opts) { assert s[k] == a[k]; }
    if k :| 0 <= k < |b| && b[k].ref == key && SameOptions(b[k], opts) { assert s[|a| + k] == b[k]; }
    if k :| 0 <= k < |s| && s[k].ref == key && SameOptions(s[k], opts) { assert s[k] == if k < |a| then a[k] else b[k - |a|]; }
  }

  // ---- invariants ----

  /** Entries not reached yet are as requested, or are the base image's. */
  ghost predicate Fresh(f: Feature) {
    f.alreadyInstalled || (f.dir == "" && f.resolvedRef == "" && f.metadata == NoMetadata)
  }

  ghost predicate FreshTail(s: State)
    requires s.Running?
  {
    s.i <= |s.features| && forall k :: s.i <= k < |s.features| ==> Fresh(s.features[k])
  }

  /** A dropped entry's content and options live on in an entry already final. */
  ghost predicate AliasesKept(s: State)
    requires s.Running? && s.i <= |s.features|
  {
    forall a :: 0 <= a < |s.aliases| ==> Duplicate(s.features[..s.i], s.aliases[a])
  }

  /** key with opts is met by an entry under that reference, or by the content and options it resolved to. */
  ghost predicate Met(fs: seq<Feature>, aliases: seq<Feature>, key: string, opts: Options) {
    Requested(fs, key, opts) || Requested(aliases, key, opts)
  }

  ghost predicate DepsMet(s: State, k: nat)
    requires s.Running? && k < |s.features|
  {
    var deps := s.features[k].metadata.Dependencies();
    forall key :: key in deps ==> Met(s.features, s.aliases, key, deps[key])
  }

  ghost predicate AllMet(s: State)
    requires s.Running? && s.i <= |s.features|
  {
    forall k :: 0 <= k < s.i ==> DepsMet(s, k)
  }

  /** No fetched entry repeats the content and options of an earlier entry. */
  ghost predicate NoRepeats(s: State)
    requires s.Running? && s.i <= |s.features|
  {
    forall k :: 0 <= k < s.i && !s.features[k].alreadyInstalled ==> !Duplicate(s.features[..k], s.features[k])
  }

  ghost predicate Inv(s: State) {
    s.Running? ==> FreshTail(s) && AliasesKept(s) && AllMet(s) && NoRepeats(s)
  }

  lemma StartInv(fs: seq<Feature>)
    requires forall k :: 0 <= k < |fs| ==> Fresh(fs[k])
    ensures Inv(Start(fs))
  {}

  /** What a turn that keeps its entry does: f at i becomes f', and requests of f' are appended. */
  ghost predicate Grew(s: State, t: State, f': Feature, deps: seq<Feature>) {
    && s.Running? && t.Running? && s.i < |s.features|
    && t.i == s.i + 1 && t.aliases == s.aliases && t.features == s.features[s.i := f'] + deps
    && f'.ref == s.features[s.i].ref
    && (forall m :: 0 <= m < |deps| ==> IsRequestOf(f', deps[m]))
    && (forall key :: key in f'.metadata.Dependencies() ==> Requested(t.features, key, f'.metadata.Dependencies()[key]))
  }

  /** What a turn that drops a duplicate does. */
  ghost predicate Dropped(s: State, t: State, f': Feature) {
    && s.Running? && t.Running? && s.i < |s.features|
    && t.i == s.i && t.features == s.features[..s.i] + s.features[s.i + 1..] && t.aliases == s.aliases + [f']
    && f'.ref == s.features[s.i].ref && Duplicate(s.features[..s.i], f')
  }

  lemma GrowIs(env: Env, s: State, f': Feature, t: State) returns (deps: seq<Feature>)
    requires s.Running? && s.i < |s.features| && f'.ref == s.features[s.i].ref
    requires t == Grow(env, s, f') && t.Running?
    ensures Grew(s, t, f', deps)
  {
    var fs := s.features[s.i := f'];
    deps := Dependencies(env, fs, f').value;
    DependenciesIs(env, fs, f', deps);
  }

  /** Options a request asked for are those it is installed with. */
  lemma InstallKeepsRequest(f: Feature, got: Fetched, merged: Options, opts: Options)
    requires f.metadata == NoMetadata && MergedOptions(got.metadata.options, f.options) == Some(merged) && SameOptions(f, opts)
    ensures SameOptions(Install(f, got, merged), opts)
  {
    assert Defaults(map[]) + opts == opts;
  }

  /** Keeps every request that f answered. */
  ghost predicate Answers(f: Feature, f': Feature) {
    forall opts :: SameOptions(f, opts) ==> SameOptions(f', opts)
  }

  lemma GrewMet(s: State, t: State, f': Feature, deps: seq<Feature>, key: string, opts: Options)
    requires Grew(s, t, f', deps) && Answers(s.features[s.i], f') && Met(s.features, s.aliases, key, opts)
    ensures Met(t.features, t.aliases, key, opts)
  {
    if k :| 0 <= k < |s.features| && s.features[k].ref == key && SameOptions(s.features[k], opts) {
      assert t.features[k] == if k == s.i then f' else s.features[k];
    }
  }

  lemma DroppedMet(s: State, t: State, f': Feature, key: string, opts: Options)
    requires Dropped(s, t, f') && Answers(s.features[s.i], f') && Met(s.features, s.aliases, key, opts)
    ensures Met(t.features, t.aliases, key, opts)
  {
    RequestedConcat(s.aliases, [f'], key, opts);
    if k :| 0 <= k < |s.features| && s.features[k].ref == key && SameOptions(s.features[k], opts) {
      if k < s.i { assert t.features[k] == s.features[k]; }
      else if k > s.i { assert t.features[k - 1] == s.features[k]; }
      else { assert [f'][0] == f'; }
    }
  }

  /** The final form of the entry at the scan position. */
  ghost predicate Finalizes(env: Env, f: Feature, f': Feature) {
    if f.alreadyInstalled then
      BakedDependsOn(env, f).Some? && f' == f.(metadata := f.metadata.(dependsOn := BakedDependsOn(env, f)))
    else
      && Fetch(env, f).Some?
      && MergedOptions(Fetch(env, f).value.metadata.options, f.options).Some?
      && f' == Install(f, Fetch(env, f).value, MergedOptions(Fetch(env, f).value.metadata.options, f.options).value)
  }

  lemma FinalizesAnswers(env: Env, f: Feature, f': Feature)
    requires Fresh(f) && Finalizes(env, f, f')
    ensures Answers(f, f') && f'.ref == f.ref && f'.kind == f.kind && f'.alreadyInstalled == f.alreadyInstalled
  {
    if !f.alreadyInstalled {
      forall opts | SameOptions(f, opts) ensures SameOptions(f', opts) {
        InstallKeepsRequest(f, Fetch(env, f).value, f'.options, opts);
      }
    }
  }

  /** An entry that came with its content is passed over. */
  predicate Carried(f: Feature) { !f.alreadyInstalled && f.dir != "" }

  /** A turn keeps its entry in final form and requests what it depends on, or drops it as a duplicate. */
  lemma TurnIs(env: Env, s: State, t: State) returns (f': Feature, deps: seq<Feature>, kept: bool)
    requires s.Running? && s.i < |s.features| && !Carried(s.features[s.i]) && t == Step(env, s) && t.Running?
    ensures Finalizes(env, s.features[s.i], f') && f'.alreadyInstalled == s.features[s.i].alreadyInstalled
    ensures f'.ref == s.features[s.i].ref && f'.kind == s.features[s.i].kind && (!f'.alreadyInstalled ==> !f'.unset)
    ensures if kept then Grew(s, t, f', deps) else Dropped(s, t, f')
    ensures kept && !f'.alreadyInstalled ==> !Duplicate(s.features[..s.i], f')
  {
    var f := s.features[s.i];
    deps := [];
    if f.alreadyInstalled {
      f' := f.(metadata := f.metadata.(dependsOn := BakedDependsOn(env, f)));
      kept := true;
      deps := GrowIs(env, s, f', t);
    } else {
      f' := Install(f, Fetch(env, f).value, MergedOptions(Fetch(env, f).value.metadata.options, f.options).value);
      kept := !Duplicate(s.features[..s.i], f');
      if kept { deps := GrowIs(env, s, f', t); }
    }
  }

  lemma StepIs(env: Env, s: State, t: State) returns (f': Feature, deps: seq<Feature>, kept: bool)
    requires s.Running? && s.i < |s.features| && FreshTail(s) && t == Step(env, s) && t.Running?
    ensures Finalizes(env, s.features[s.i], f') && Answers(s.features[s.i], f') && f'.alreadyInstalled == s.features[s.i].alreadyInstalled
    ensures f'.ref == s.features[s.i].ref && f'.kind == s.features[s.i].kind
    ensures if kept then Grew(s, t, f', deps) else Dropped(s, t, f')
    ensures kept && !f'.alreadyInstalled ==> !Duplicate(s.features[..s.i], f')
  {
    f', deps, kept := TurnIs(env, s, t);
    FinalizesAnswers(env, s.features[s.i], f');
  }

  lemma RequestFresh(f: Feature, g: Feature)
    requires IsRequestOf(f, g)
    ensures Fresh(g) && !g.alreadyInstalled
  {}

  lemma GrewInv(s: State, t: State, f': Feature, deps: seq<Feature>)
    requires Inv(s) && Grew(s, t, f', deps) && Answers(s.features[s.i], f')
    requires !f'.alreadyInstalled ==> !Duplicate(s.features[..s.i], f')
    ensures Inv(t)
  {
    forall k | t.i <= k < |t.features| ensures Fresh(t.features[k]) {
      if k < |s.features| { assert t.features[k] == s.features[k]; }
      else { assert t.features[k] == deps[k - |s.features|]; RequestFresh(f', t.features[k]); }
    }
    forall k | 0 <= k < t.i ensures DepsMet(t, k) {
      if k < s.i {
        assert t.features[k] == s.features[k] && DepsMet(s, k);
        var ds := t.features[k].metadata.Dependencies();
        forall key | key in ds { GrewMet(s, t, f', deps, key, ds[key]); }
      } else {
        assert t.features[k] == f';
      }
    }
    GrewKept(s, t, f', deps);
  }

  lemma GrewKept(s: State, t: State, f': Feature, deps: seq<Feature>)
    requires s.Running? && s.i <= |s.features| && AliasesKept(s) && NoRepeats(s) && Grew(s, t, f', deps)
    requires !f'.alreadyInstalled ==> !Duplicate(s.features[..s.i], f')
    ensures AliasesKept(t) && NoRepeats(t)
  {
    assert forall k :: 0 <= k <= s.i ==> t.features[..k] == s.features[..k];
    forall a | 0 <= a < |t.aliases| ensures Duplicate(t.features[..t.i], t.aliases[a]) {
      DuplicatePrefix(s.features[..s.i], t.features[..t.i], t.aliases[a]);
    }
    forall k | 0 <= k < t.i && !t.features[k].alreadyInstalled ensures !Duplicate(t.features[..k], t.features[k]) {
      assert t.features[..k] == s.features[..k];
      if k < s.i { assert t.features[k] == s.features[k]; }
    }
  }

  lemma DuplicatePrefix(a: seq<Feature>, b: seq<Feature>, f: Feature)
    requires a <= b && Duplicate(a, f)
    ensures Duplicate(b, f)
  {
    var k :| 0 <= k < |a| && a[k].resolvedRef != "" && a[k].resolvedRef == f.resolvedRef && a[k].unset == f.unset && a[k].options == f.options;
    assert b[k] == a[k];
  }

  lemma DroppedInv(s: State, t: State, f': Feature)
    requires Inv(s) && Dropped(s, t, f') && Answers(s.features[s.i], f')
    ensures Inv(t)
  {
    assert forall k :: 0 <= k <= s.i ==> t.features[..k] == s.features[..k];
    forall k | t.i <= k < |t.features| ensures Fresh(t.features[k]) { assert t.features[k] == s.features[k + 1]; }
    forall k | 0 <= k < t.i ensures DepsMet(t, k) {
      assert t.features[k] == s.features[k] && DepsMet(s, k);
      var ds := t.features[k].metadata.Dependencies();
      forall key | key in ds { DroppedMet(s, t, f', key, ds[key]); }
    }
    forall k | 0 <= k < t.i && !t.features[k].alreadyInstalled ensures !Duplicate(t.features[..k], t.features[k]) {
      assert t.features[k] == s.features[k] && t.features[..k] == s.features[..k];
    }
  }

  lemma StepInv(env: Env, s: State)
    requires Inv(s) && !Done(s)
    ensures Inv(Step(env, s))
  {
    var t := Step(env, s);
    if t.Running? {
      var f', deps, kept := StepIs(env, s, t);
      if kept { GrewInv(s, t, f', deps); } else { DroppedInv(s, t, f'); }
    }
  }

  lemma {:induction false} IterateInv(env: Env, s: State, n: nat)
    requires Inv(s)
    ensures Inv(Iterate(env, s, n))
    decreases n
  {
    if n > 0 && !Done(s) {
      StepInv(env, s);
      IterateInv(env, Step(env, s), n - 1);
    }
  }

  /** Whatever every turn keeps holds all along. */
  lemma {:induction false} IterateKeeps(env: Env, s: State, n: nat, holds: State -> bool)
    requires holds(s) && forall x {:trigger Step(env, x)} :: holds(x) && !Done(x) ==> holds(Step(env, x))
    ensures holds(Iterate(env, s, n))
    decreases n
  {
    if n > 0 && !Done(s) { IterateKeeps(env, Step(env, s), n - 1, holds); }
  }

  // ---- termination ----

  function PairOf(f: Feature): (string, Options) { (f.resolvedRef, f.options) }

  ghost function Kept(fs: seq<Feature>): set<(string, Options)> {
    set k | 0 <= k < |fs| && !fs[k].unset :: PairOf(fs[k])
  }

  ghost function BakedIn(fs: seq<Feature>): nat {
    if fs == [] then 0 else (if fs[0].alreadyInstalled then 1 else 0) + BakedIn(fs[1..])
  }

  /** Requests reachable through dependsOn, and the finitely many (content, merged options) pairs they install. */
  ghost predicate Closed(env: Env, pairs: set<(string, Options)>, requests: iset<Feature>) {
    forall r, f' :: r in requests && Finalizes(env, r, f') ==>
      f'.resolvedRef != "" && PairOf(f') in pairs && forall g :: IsRequestOf(f', g) ==> g in requests
  }

  /** An entry the scan will reach stays within the closure. */
  ghost predicate InScope(env: Env, f: Feature, requests: iset<Feature>) {
    if f.alreadyInstalled then forall f', g :: Finalizes(env, f, f') && IsRequestOf(f', g) ==> g in requests
    else f.dir != "" || f in requests
  }

  ghost predicate TailInScope(env: Env, s: State, requests: iset<Feature>)
    requires s.Running?
  {
    forall k :: s.i <= k < |s.features| ==> InScope(env, s.features[k], requests)
  }

  lemma {:induction false} BakedAppend(fs: seq<Feature>, deps: seq<Feature>)
    requires forall m :: 0 <= m < |deps| ==> !deps[m].alreadyInstalled
    ensures BakedIn(fs + deps) == BakedIn(fs)
  {
    if fs == [] {
      assert fs + deps == deps;
      if deps != [] {
        BakedAppend([], deps[1..]);
        assert [] + deps[1..] == deps[1..];
      }
    } else {
      BakedAppend(fs[1..], deps);
      assert (fs + deps)[1..] == fs[1..] + deps;
    }
  }

  ghost predicate Decreases(s: State, t: State, pairs: set<(string, Options)>)
    requires s.Running? && t.Running? && s.i <= |s.features| && t.i <= |t.features|
  {
    var a, a' := pairs - Kept(s.features[..s.i]), pairs - Kept(t.features[..t.i]);
    var b, b' := BakedIn(s.features[s.i..]), BakedIn(t.features[t.i..]);
    a' < a || (a' <= a && (b' < b || (b' == b && |t.features| - t.i < |s.features| - s.i)))
  }

  lemma DroppedDecreases(s: State, t: State, f': Feature, pairs: set<(string, Options)>)
    requires Dropped(s, t, f') && !s.features[s.i].alreadyInstalled
    ensures Decreases(s, t, pairs)
  {
    assert t.features[..t.i] == s.features[..s.i];
    assert t.features[t.i..] == s.features[s.i..][1..];
  }

  lemma GrewDecreases(s: State, t: State, f': Feature, deps: seq<Feature>, pairs: set<(string, Options)>)
    requires Grew(s, t, f', deps) && f'.alreadyInstalled == s.features[s.i].alreadyInstalled
    requires !f'.alreadyInstalled ==> !f'.unset && f'.resolvedRef != "" && PairOf(f') in pairs && !Duplicate(s.features[..s.i], f')
    ensures Decreases(s, t, pairs)
  {
    assert t.features[..t.i] == s.features[..s.i] + [f'];
    assert t.features[t.i..] == s.features[s.i..][1..] + deps;
    forall m | 0 <= m < |deps| ensures !deps[m].alreadyInstalled { RequestFresh(f', deps[m]); }
    BakedAppend(s.features[s.i..][1..], deps);
    KeptGrows(s.features[..s.i], f');
    if !f'.alreadyInstalled {
      NotKept(s.features[..s.i], f');
    }
  }

  lemma KeptGrows(fs: seq<Feature>, f: Feature)
    ensures Kept(fs + [f]) == if f.unset then Kept(fs) else Kept(fs) + {PairOf(f)}
  {
    var t := fs + [f];
    forall x | x in Kept(fs) ensures x in Kept(t) { var k :| 0 <= k < |fs| && !fs[k].unset && PairOf(fs[k]) == x; assert t[k] == fs[k]; }
    if !f.unset { assert PairOf(t[|fs|]) in Kept(t); }
    forall x | x in Kept(t) ensures x in Kept(fs) || (!f.unset && x == PairOf(f)) {
      var k :| 0 <= k < |t| && !t[k].unset && PairOf(t[k]) == x;
      if k < |fs| { assert fs[k] == t[k]; }
    }
  }

  lemma NotKept(fs: seq<Feature>, f: Feature)
    requires !f.unset && f.resolvedRef != "" && !Duplicate(fs, f)
    ensures PairOf(f) !in Kept(fs)
  {}

  /** Passing over an entry that came with its content shortens what is left. */
  lemma PassedDecreases(s: State, pairs: set<(string, Options)>)
    requires s.Running? && s.i < |s.features| && Carried(s.features[s.i])
    ensures Decreases(s, s.(i := s.i + 1), pairs)
  {
    assert s.features[..s.i + 1] == s.features[..s.i] + [s.features[s.i]];
    KeptGrows(s.features[..s.i], s.features[s.i]);
    assert s.features[s.i + 1..] == s.features[s.i..][1..];
  }

  /** Every turn makes progress, even though a dropped alias may be requested again. */
  lemma StepDecreases(env: Env, s: State, pairs: set<(string, Options)>, requests: iset<Feature>)
    requires s.Running? && s.i < |s.features| && Closed(env, pairs, requests) && TailInScope(env, s, requests)
    requires Step(env, s).Running?
    ensures var t := Step(env, s); t.i <= |t.features| && TailInScope(env, t, requests) && Decreases(s, t, pairs)
  {
    var t := Step(env, s);
    if Carried(s.features[s.i]) {
      PassedDecreases(s, pairs);
    } else {
      var f', deps, kept := TurnIs(env, s, t);
      assert InScope(env, s.features[s.i], requests);
      if kept {
        GrewDecreases(s, t, f', deps, pairs);
        GrewInScope(env, s, t, f', deps, requests);
      } else {
        DroppedDecreases(s, t, f', pairs);
        forall k | t.i <= k < |t.features| ensures InScope(env, t.features[k], requests) { assert t.features[k] == s.features[k + 1]; }
      }
    }
  }

  lemma GrewInScope(env: Env, s: State, t: State, f': Feature, deps: seq<Feature>, requests: iset<Feature>)
    requires Grew(s, t, f', deps) && TailInScope(env, s, requests) && forall g :: IsRequestOf(f', g) ==> g in requests
    ensures TailInScope(env, t, requests)
  {
    forall k | t.i <= k < |t.features| ensures InScope(env, t.features[k], requests) {
      if k < |s.features| { assert t.features[k] == s.features[k]; }
      else { assert t.features[k] == deps[k - |s.features|]; RequestFresh(f', t.features[k]); }
    }
  }

  // ---- markAlreadyInstalled ----

  /** bakedFeature: the first label entry that matches f and that the lockfile accepts. */
  function Baked(lock: Lock, matches: (Metadata, Feature) -> bool, baked: seq<Metadata>, f: Feature): Option<Metadata> {
    if !f.kind.OCI? || baked == [] then None
    else if matches(baked[0], f) && AcceptsBaked(lock, f, baked[0]) then Some(baked[0])
    else Baked(lock, matches, baked[1..], f)
  }

  function Marked(lock: Lock, matches: (Metadata, Feature) -> bool, baked: seq<Metadata>, f: Feature): Feature {
    var b := Baked(lock, matches, baked, f);
    if f.alreadyInstalled || b.None? then f
    else f.(alreadyInstalled := true, metadata := b.value, resolvedRef := b.value.resolvedRef)
  }

  function MarkedAll(lock: Lock, matches: (Metadata, Feature) -> bool, baked: seq<Metadata>, fs: seq<Feature>): (r: seq<Feature>)
    ensures |r| == |fs| && forall k :: 0 <= k < |fs| ==> r[k] == Marked(lock, matches, baked, fs[k])
  {
    seq(|fs|, k requires 0 <= k < |fs| => Marked(lock, matches, baked, fs[k]))
  }

  // ---- the loop ----

  method CollectDependencies(env: Env, fs: seq<Feature>, f: Feature) returns (r: Option<seq<Feature>>)
    ensures r == Dependencies(env, fs, f)
  {
    var all := f.metadata.Dependencies();
    var keys := SortStrings(all.Keys);
    assert forall i :: 0 <= i < |keys| ==> keys[i] in Elements(keys);
    var out: seq<Feature> := [];
    for k := 0 to |keys|
      invariant Missing(env, fs, f, keys, k, out) == Missing(env, fs, f, keys, 0, [])
    {
      var opts := all[keys[k]];
      if Requested(fs, keys[k], opts) || Requested(out, keys[k], opts) { continue; }
      var dep := Unfetched(keys[k], opts);
      if dep.kind.Local? && !env.localAllowed(f.kind, keys[k]) { return None; }
      out := out + [dep];
    }
    return Some(out);
  }

  /** The part of the resolved configuration layerFeatures edits in place. */
  class Config {
    var features: seq<Feature>

    constructor (fs: seq<Feature>)
      ensures features == fs
    {
      features := fs;
    }

    method FindBaked(lock: Lock, matches: (Metadata, Feature) -> bool, baked: seq<Metadata>, f: Feature) returns (r: Option<Metadata>)
      ensures r == Baked(lock, matches, baked, f)
    {
      if !f.kind.OCI? { return None; }
      for k := 0 to |baked|
        invariant Baked(lock, matches, baked, f) == Baked(lock, matches, baked[k..], f)
      {
        if matches(baked[k], f) && AcceptsBaked(lock, f, baked[k]) { return Some(baked[k]); }
      }
      return None;
    }

    method MarkAlreadyInstalled(lock: Lock, matches: (Metadata, Feature) -> bool, baked: seq<Metadata>)
      modifies this
      ensures features == MarkedAll(lock, matches, baked, old(features))
    {
      for k := 0 to |features|
        invariant |features| == |old(features)|
        invariant forall j :: 0 <= j < |features| ==>
          features[j] == if j < k then Marked(lock, matches, baked, old(features)[j]) else old(features)[j]
      {
        if features[k].alreadyInstalled { continue; }
        var b := FindBaked(lock, matches, baked, features[k]);
        if b.Some? {
          features := features[k := features[k].(alreadyInstalled := true, metadata := b.value, resolvedRef := b.value.resolvedRef)];
        }
      }
    }

    /** Stores the final form f of entry i and appends what it depends on. */
    method Append(env: Env, i: nat, f: Feature, ghost aliases: seq<Feature>) returns (ok: bool)
      requires i < |features|
      modifies this
      ensures var t := Grow(env, Running(i, old(features), aliases), f);
        if ok then t == Running(i + 1, features, aliases) else t.Failed?
    {
      features := features[i := f];
      var deps := CollectDependencies(env, features, f);
      if deps.None? { return false; }
      features := features + deps.value;
      return true;
    }

    /** One turn of the loop on entry i. */
    method Turn(env: Env, i: nat, aliases: seq<Feature>) returns (ok: bool, i': nat, aliases': seq<Feature>)
      requires i < |features|
      modifies this
      ensures var t := Step(env, Running(i, old(features), aliases));
        if ok then t == Running(i', features, aliases') else t.Failed?
    {
      i', aliases' := i + 1, aliases;
      var f := features[i];
      if f.alreadyInstalled {
        var deps := BakedDependsOn(env, f);
        if deps.None? { return false, i', aliases'; }
        ok := Append(env, i, f.(metadata := f.metadata.(dependsOn := deps)), aliases);
        return;
      }
      if f.dir != "" { return true, i', aliases'; }
      var got := Fetch(env, f);
      if got.None? { return false, i', aliases'; }
      var merged := MergeOptions(got.value.metadata.options, f.options);
      if merged.None? { return false, i', aliases'; }
      f := Install(f, got.value, merged.value);
      if Duplicate(features[..i], f) {
        aliases' := aliases + [f];
        features := features[..i] + features[i + 1..];
        return true, i, aliases';
      }
      ok := Append(env, i, f, aliases);
    }

    /** The fetch-and-expand loop. It ends because each turn keeps a new pair, finishes a baked entry, or shortens the rest. */
    method Expand(env: Env, ghost pairs: set<(string, Options)>, ghost requests: iset<Feature>)
      returns (ok: bool, aliases: seq<Feature>, ghost n: nat)
      requires forall k :: 0 <= k < |features| ==> InScope(env, features[k], requests)
      requires Closed(env, pairs, requests)
      modifies this
      ensures var t := Iterate(env, Start(old(features)), n);
        if ok then t == Running(|features|, features, aliases) else t.Failed?
      ensures (forall k :: 0 <= k < |old(features)| ==> Fresh(old(features)[k])) ==> Inv(Iterate(env, Start(old(features)), n))
    {
      var i: nat := 0;
      aliases, ok, n := [], true, 0;
      ghost var s := Start(features);
      while i < |features|
        invariant s == Running(i, features, aliases)
        invariant Progress(env, Start(old(features)), n, s, requests)
        decreases pairs - Kept(features[..i]), BakedIn(features[i..]), |features| - i
      {
        Progressed(env, Start(old(features)), n, s, pairs, requests);
        s, n := Step(env, s), n + 1;
        ok, i, aliases := Turn(env, i, aliases);
        if !ok { break; }
      }
      if forall k :: 0 <= k < |old(features)| ==> Fresh(old(features)[k]) {
        StartInv(old(features));
        IterateInv(env, Start(old(features)), n);
      }
    }
  }

  /** s is what n turns from start lead to, and stays in scope. */
  ghost predicate Progress(env: Env, start: State, n: nat, s: State, requests: iset<Feature>) {
    s == Iterate(env, start, n) && (s.Running? ==> s.i <= |s.features| && TailInScope(env, s, requests))
  }

  lemma Progressed(env: Env, start: State, n: nat, s: State, pairs: set<(string, Options)>, requests: iset<Feature>)
    requires Progress(env, start, n, s, requests) && !Done(s) && Closed(env, pairs, requests)
    ensures Progress(env, start, n + 1, Step(env, s), requests)
    ensures Step(env, s).Running? ==> Decreases(s, Step(env, s), pairs)
  {
    IterateSnoc(env, start, n);
    if Step(env, s).Running? { StepDecreases(env, s, pairs, requests); }
  }

  /** The state after one turn in each of the given worlds: references may move between two turns. */
  ghost function IterateIn(worlds: seq<Env>, s: State): State
    decreases |worlds|
  {
    if worlds == [] || Done(s) then s else IterateIn(worlds[1..], Step(worlds[0], s))
  }

  /** The invariant does not need the store to answer alike from turn to turn. */
  lemma {:induction false} MovingInv(worlds: seq<Env>, s: State)
    requires Inv(s)
    ensures Inv(IterateIn(worlds, s))
    decreases |worlds|
  {
    if worlds != [] && !Done(s) {
      StepInv(worlds[0], s);
      MovingInv(worlds[1..], Step(worlds[0], s));
    }
  }

  lemma {:induction false} IterateSnoc(env: Env, s: State, n: nat)
    ensures Iterate(env, s, n + 1) == if Done(Iterate(env, s, n)) then Iterate(env, s, n) else Step(env, Iterate(env, s, n))
    decreases n
  {
    if n > 0 && !Done(s) { IterateSnoc(env, Step(env, s), n - 1); }
  }
}
