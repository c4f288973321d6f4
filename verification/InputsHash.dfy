/**
  The part of composeInputsHash that follows local features: which directories'
  contents the hash covers. (up_compose_reattach.go:122-167)
 */
module InputsHash {
  import opened Prelude
  import opened Ordering
  import opened FeatureModel
  import opened Expansion
  import PinnedFetch

  /** The feature directories: the dependsOn keys each declares, None when its metadata does not parse, and its content digest, None when it cannot be read. */
  datatype Files = Files(dependsOn: string -> Option<set<string>>, digest: string -> Option<string>)

  predicate IsLocal(ref: string) { Classify(ref).Local? }

  /** The local references a local feature depends on. */
  function LocalDeps(files: Files, ref: string): set<string> {
    match files.dependsOn(ref)
    case None => {}
    case Some(deps) => set d | d in deps && IsLocal(d)
  }

  /** The walk goes from a feature to the keys of its dependsOn that begin as a path does, and nowhere from one whose metadata does not parse. */
  lemma LocalDepsAre(files: Files, ref: string, d: string)
    ensures d in LocalDeps(files, ref) <==>
      && files.dependsOn(ref).Some? && d in files.dependsOn(ref).value
      && (PinnedFetch.Begins(d, "./") || PinnedFetch.Begins(d, "../") || PinnedFetch.Begins(d, "/"))
  {
    PinnedFetch.KindIs(d);
  }

  ghost predicate Closed(files: Files, s: set<string>) {
    forall r :: r in s ==> LocalDeps(files, r) <= s
  }

  /** The least set holding the declared references and closed under local dependencies. */
  ghost predicate IsReach(files: Files, declared: set<string>, s: set<string>) {
    declared <= s && Closed(files, s) && forall t :: declared <= t && Closed(files, t) ==> s <= t
  }

  /** What is hashed is reachable, and leads only to what is hashed or to what queued references declare. */
  ghost predicate Walked(files: Files, declared: set<string>, hashed: set<string>, queue: seq<string>) {
    && declared <= hashed && Elements(queue) <= hashed
    && (forall r :: r in hashed && r !in queue ==> LocalDeps(files, r) <= hashed)
    && (forall t :: declared <= t && Closed(files, t) ==> hashed <= t)
  }

  function Refs(out: seq<(string, string)>): seq<string> {
    seq(|out|, i requires 0 <= i < |out| => out[i].0)
  }

  /** The entries name exactly the references of `s`, each once and with its content digest. */
  ghost predicate Lists(files: Files, out: seq<(string, string)>, s: set<string>) {
    && NoDup(Refs(out)) && Elements(Refs(out)) == s
    && forall i :: 0 <= i < |out| ==> files.digest(out[i].0) == Some(out[i].1)
  }

  lemma ListsOneMore(files: Files, out: seq<(string, string)>, s: set<string>, ref: string, digest: string)
    requires Lists(files, out, s) && ref !in s && files.digest(ref) == Some(digest)
    ensures Lists(files, out + [(ref, digest)], s + {ref})
  {
    var refs, refs' := Refs(out), Refs(out + [(ref, digest)]);
    assert refs' == refs + [ref];
    assert forall i :: 0 <= i < |refs| ==> refs[i] in Elements(refs);
    assert forall i :: 0 <= i < |refs| ==> refs'[i] == refs[i];
    assert refs'[|refs|] == ref;
    forall r ensures r in Elements(refs') <==> r in s + {ref} {
      if r in s { assert r in Elements(refs) && r in refs; }
    }
  }

  /** One sorted pass over a feature's dependencies. */
  method AddDeps(files: Files, ghost declared: set<string>, keys: seq<string>, hashed0: set<string>, queue0: seq<string>, out0: seq<(string, string)>)
    returns (bad: Option<string>, hashed: set<string>, queue: seq<string>, out: seq<(string, string)>)
    requires declared <= hashed0 && Lists(files, out0, hashed0 - declared)
    ensures bad.Some? ==> bad.value in keys && IsLocal(bad.value) && bad.value !in hashed0 && files.digest(bad.value).None?
    ensures bad.None? ==> hashed == hashed0 + (set d | d in keys && IsLocal(d))
    ensures bad.None? ==> queue0 <= queue && (hashed == hashed0 ==> queue == queue0)
    ensures bad.None? ==> Elements(queue) == Elements(queue0) + (hashed - hashed0)
    ensures bad.None? ==> Lists(files, out, hashed - declared)
  {
    bad, hashed, queue, out := None, hashed0, queue0, out0;
    for k := 0 to |keys|
      invariant hashed == hashed0 + (set d | d in keys[..k] && IsLocal(d))
      invariant hashed == hashed0 ==> queue == queue0
      invariant queue0 <= queue && Elements(queue) == Elements(queue0) + (hashed - hashed0)
      invariant bad.None? && Lists(files, out, hashed - declared)
    {
      var dep := keys[k];
      assert keys[..k + 1] == keys[..k] + [dep];
      if dep in hashed || !IsLocal(dep) { continue; }
      var digest := files.digest(dep);
      if digest.None? { return Some(dep), hashed + {dep}, queue, out; }
      ListsOneMore(files, out, hashed - declared, dep, digest.value);
      assert hashed + {dep} - declared == hashed - declared + {dep};
      hashed := hashed + {dep};
      out := out + [(dep, digest.value)];
      queue := queue + [dep];
    }
    assert keys[..|keys|] == keys;
  }

  lemma WalkStep(files: Files, declared: set<string>, hashed: set<string>, queue: seq<string>, hashed': set<string>, queue': seq<string>)
    requires Walked(files, declared, hashed, queue) && queue != []
    requires hashed' == hashed + LocalDeps(files, queue[0]) && Elements(queue') == Elements(queue[1..]) + (hashed' - hashed)
    ensures Walked(files, declared, hashed', queue')
  {
    assert queue[0] in Elements(queue);
    forall r | r in hashed' && r !in queue' ensures LocalDeps(files, r) <= hashed' {
      assert r !in Elements(queue');
      if r != queue[0] { assert r !in queue[1..]; }
    }
    assert forall r :: r in queue' ==> r in Elements(queue');
    forall r | r in Elements(queue') ensures r in hashed' {
      if r in Elements(queue[1..]) { assert r in Elements(queue); }
    }
  }

  lemma ReachBound(files: Files, declared: set<string>, hashed: set<string>, queue: seq<string>, universe: set<string>)
    requires Walked(files, declared, hashed, queue) && declared <= universe && Closed(files, universe)
    ensures hashed <= universe
  {}

  /**
    The walk hashes the content of every local feature reachable through local
    dependsOn, the declared ones aside, and fails exactly on one that cannot be read.
   */
  method HashLocals(files: Files, declared: seq<string>, ghost universe: set<string>)
    returns (bad: Option<string>, out: seq<(string, string)>, ghost reach: set<string>)
    requires Elements(declared) <= universe && Closed(files, universe)
    ensures bad.None? ==> IsReach(files, Elements(declared), reach) && Lists(files, out, reach - Elements(declared))
    ensures bad.Some? ==> files.digest(bad.value).None? && bad.value !in declared
    ensures bad.Some? ==> forall t :: Elements(declared) <= t && Closed(files, t) ==> bad.value in t
  {
    var hashed := set r | r in declared;
    var queue := declared;
    ghost var start := Elements(declared);
    out, bad, reach := [], None, {};
    while |queue| > 0
      invariant bad.None? && Walked(files, start, hashed, queue) && Lists(files, out, hashed - start)
      decreases universe - hashed, |queue|
    {
      var ref := queue[0];
      assert ref in Elements(queue);
      var meta := files.dependsOn(ref);
      if meta.None? {
        WalkStep(files, start, hashed, queue, hashed, queue[1..]);
        queue := queue[1..];
        continue;
      }
      var keys := SortStrings(meta.value);
      assert forall d :: d in keys <==> d in Elements(keys);
      assert (set d | d in keys && IsLocal(d)) == LocalDeps(files, ref);
      var hashed', queue', out';
      bad, hashed', queue', out' := AddDeps(files, start, keys, hashed, queue[1..], out);
      if bad.Some? {
        assert bad.value in LocalDeps(files, ref);
        return;
      }
      WalkStep(files, start, hashed, queue, hashed', queue');
      ReachBound(files, start, hashed', queue', universe);
      hashed, queue, out := hashed', queue', out';
    }
    reach := hashed;
  }

  // ---- what the build would fetch ----

  /** The directories hold what the store reads of local references. */
  ghost predicate SameFiles(env: Env, files: Files) {
    forall r :: IsLocal(r) && env.store(env.localPath(r), Local).Some? ==>
      files.dependsOn(r) == Some(env.store(env.localPath(r), Local).value.metadata.Dependencies().Keys)
  }

  /** checkLocalDependency: only a local feature may depend on a local path. */
  ghost predicate OnlyLocalsMay(env: Env) {
    forall kind, key :: env.localAllowed(kind, key) ==> kind.Local?
  }

  /** Entries are classified by their references, only published ones are taken from the base image, and the local ones lie in reach. */
  ghost predicate LocalsIn(fs: seq<Feature>, reach: set<string>) {
    forall k :: 0 <= k < |fs| ==> fs[k].kind == Classify(fs[k].ref) && (fs[k].kind.Local? ==> !fs[k].alreadyInstalled && fs[k].ref in reach)
  }

  ghost predicate Covered(s: State, reach: set<string>) {
    s.Running? ==> LocalsIn(s.features, reach) && LocalsIn(s.aliases, reach)
  }

  lemma {:induction false} MissingAllowed(env: Env, fs: seq<Feature>, f: Feature, keys: seq<string>, k: nat, out: seq<Feature>, r: seq<Feature>)
    requires k <= |keys| && forall i :: 0 <= i < |keys| ==> keys[i] in f.metadata.Dependencies()
    requires Missing(env, fs, f, keys, k, out) == Some(r)
    ensures out <= r && forall m :: |out| <= m < |r| ==> (Classify(r[m].ref).Local? ==> env.localAllowed(f.kind, r[m].ref))
    decreases |keys| - k
  {
    if k < |keys| {
      var opts := f.metadata.Dependencies()[keys[k]];
      if Requested(fs, keys[k], opts) || Requested(out, keys[k], opts) {
        MissingAllowed(env, fs, f, keys, k + 1, out, r);
      } else {
        var more := out + [Unfetched(keys[k], opts)];
        MissingAllowed(env, fs, f, keys, k + 1, more, r);
        assert r[|out|] == more[|out|];
      }
    }
  }

  lemma GrowAllowed(env: Env, s: State, f: Feature, t: State, deps: seq<Feature>)
    requires s.Running? && s.i < |s.features| && t == Grow(env, s, f) && t.Running? && t.features == s.features[s.i := f] + deps
    ensures forall m :: 0 <= m < |deps| ==> (Classify(deps[m].ref).Local? ==> env.localAllowed(f.kind, deps[m].ref))
  {
    var fs := s.features[s.i := f];
    var keys := SortedKeys(f.metadata.Dependencies().Keys);
    assert forall i :: 0 <= i < |keys| ==> keys[i] in Elements(keys);
    var got := Missing(env, fs, f, keys, 0, []).value;
    assert got == deps by { assert fs + got == fs + deps; assert (fs + got)[|fs|..] == got && (fs + deps)[|fs|..] == deps; }
    MissingAllowed(env, fs, f, keys, 0, [], deps);
  }

  /** A request for a local path comes from a local entry, whose directory declares it. */
  lemma RequestCovered(env: Env, files: Files, reach: set<string>, f: Feature, f': Feature, g: Feature)
    requires SameFiles(env, files) && OnlyLocalsMay(env) && Closed(files, reach) && Finalizes(env, f, f') && IsRequestOf(f', g)
    requires f.kind == Classify(f.ref) && (f.kind.Local? ==> !f.alreadyInstalled && f.ref in reach)
    requires Classify(g.ref).Local? ==> env.localAllowed(f.kind, g.ref)
    ensures g.kind == Classify(g.ref) && (g.kind.Local? ==> !g.alreadyInstalled && g.ref in reach)
  {
    if Classify(g.ref).Local? {
      assert f.kind.Local?;
      assert g.ref in LocalDeps(files, f.ref);
      assert LocalDeps(files, f.ref) <= reach;
    }
  }

  lemma GrewCovered(s: State, t: State, f': Feature, deps: seq<Feature>, reach: set<string>)
    requires Grew(s, t, f', deps) && Covered(s, reach) && LocalsIn(deps, reach)
    requires f'.kind == s.features[s.i].kind && f'.alreadyInstalled == s.features[s.i].alreadyInstalled
    ensures Covered(t, reach)
  {
    forall k | 0 <= k < |t.features|
      ensures t.features[k].kind == Classify(t.features[k].ref) && (t.features[k].kind.Local? ==> !t.features[k].alreadyInstalled && t.features[k].ref in reach)
    {
      assert t.features[k] == if k >= |s.features| then deps[k - |s.features|] else if k == s.i then f' else s.features[k];
    }
  }

  lemma DroppedCovered(s: State, t: State, f': Feature, reach: set<string>)
    requires Dropped(s, t, f') && Covered(s, reach) && f'.kind == s.features[s.i].kind && f'.alreadyInstalled == s.features[s.i].alreadyInstalled
    ensures Covered(t, reach)
  {
    forall k | 0 <= k < |t.features| ensures t.features[k] == s.features[if k < s.i then k else k + 1] {}
  }

  lemma StepCovered(env: Env, files: Files, s: State, reach: set<string>)
    requires SameFiles(env, files) && OnlyLocalsMay(env) && Closed(files, reach) && Expansion.Inv(s) && !Done(s) && Covered(s, reach)
    ensures Covered(Step(env, s), reach)
  {
    var t := Step(env, s);
    if t.Running? {
      var f', deps, kept := StepIs(env, s, t);
      if kept {
        GrowAllowed(env, s, f', t, deps);
        forall m | 0 <= m < |deps| ensures deps[m].kind == Classify(deps[m].ref) && (deps[m].kind.Local? ==> !deps[m].alreadyInstalled && deps[m].ref in reach) {
          RequestCovered(env, files, reach, s.features[s.i], f', deps[m]);
        }
        GrewCovered(s, t, f', deps, reach);
      } else {
        DroppedCovered(s, t, f', reach);
      }
    }
  }

  /**
    Whatever the build would fetch from the declared list, at any turn, its local
    features are among those whose content the hash covers: a changed directory
    that could change the build changes the hash.
   */
  lemma CoversFetches(env: Env, files: Files, s: State, n: nat, reach: set<string>)
    requires SameFiles(env, files) && OnlyLocalsMay(env) && Closed(files, reach) && Expansion.Inv(s) && Covered(s, reach)
    ensures Covered(Iterate(env, s, n), reach)
  {
    forall x: State | Expansion.Inv(x) && Covered(x, reach) && !Done(x) ensures Expansion.Inv(Step(env, x)) && Covered(Step(env, x), reach) {
      StepInv(env, x);
      StepCovered(env, files, x, reach);
    }
    IterateKeeps(env, s, n, (x: State) => Expansion.Inv(x) && Covered(x, reach));
  }

  /** From the declared list: every local feature of every state of the expansion is declared, or is listed by the walk with its digest. */
  lemma HashCovers(env: Env, files: Files, declared: seq<Feature>, locals: set<string>, reach: set<string>, out: seq<(string, string)>, n: nat, k: nat)
    requires SameFiles(env, files) && OnlyLocalsMay(env) && IsReach(files, locals, reach) && Lists(files, out, reach - locals)
    requires forall i :: 0 <= i < |declared| ==> Fresh(declared[i]) && declared[i].kind == Classify(declared[i].ref)
    requires forall i :: 0 <= i < |declared| && declared[i].kind.Local? ==> !declared[i].alreadyInstalled && declared[i].ref in locals
    requires var t := Iterate(env, Start(declared), n); t.Running? && k < |t.features| && t.features[k].kind.Local?
    ensures var ref := Iterate(env, Start(declared), n).features[k].ref;
      ref in locals || exists i :: 0 <= i < |out| && out[i].0 == ref && files.digest(ref) == Some(out[i].1)
  {
    StartInv(declared);
    CoversFetches(env, files, Start(declared), n, reach);
    var ref := Iterate(env, Start(declared), n).features[k].ref;
    if ref !in locals {
      assert ref in Elements(Refs(out));
      var i :| 0 <= i < |Refs(out)| && Refs(out)[i] == ref;
      assert out[i].0 == ref;
    }
  }
}
