/**
  Expansion followed by ordering, as layerFeatures runs them: every dependency
  of every listed feature is met, and met earlier in the installation order.
  (up.go:1424-1517)
 */
module Layering {
  import opened Prelude
  import opened Graphs
  import opened FeatureModel
  import opened FeatureGraph
  import opened TopoSort
  import opened Determinism
  import opened Locking
  import opened Expansion

  /** A reference resolving to some content always yields that content's metadata. */
  ghost predicate ContentAddressed(env: Env) {
    forall r, k, r', k' ::
      env.store(r, k).Some? && env.store(r', k').Some? && env.store(r, k).value.resolvedRef == env.store(r', k').value.resolvedRef ==>
        env.store(r, k).value.metadata == env.store(r', k').value.metadata
  }

  /** g carries what the store holds for some reference. */
  ghost predicate Stored(env: Env, g: Feature) {
    exists r, k :: env.store(r, k).Some? && env.store(r, k).value.resolvedRef == g.resolvedRef && env.store(r, k).value.metadata == g.metadata
  }

  ghost predicate Sourced(env: Env, s: State) {
    s.Running? ==>
      && s.i <= |s.features|
      && (forall k :: 0 <= k < s.i && !s.features[k].alreadyInstalled ==> Stored(env, s.features[k]))
      && (forall a :: 0 <= a < |s.aliases| ==> !s.aliases[a].alreadyInstalled && Stored(env, s.aliases[a]))
  }

  lemma FinalizedStored(env: Env, f: Feature, f': Feature)
    requires Finalizes(env, f, f') && !f.alreadyInstalled
    ensures Stored(env, f')
  {
    var pin := Pin(env.lock, f);
    var got := Fetch(env, f).value;
    if pin.None? {
      assert env.store(if f.kind.Local? then env.localPath(f.ref) else f.ref, f.kind) == Some(got);
    } else {
      assert env.store(PinnedRef(env, f, pin.value).value, f.kind) == Some(got);
    }
  }

  lemma StepSourced(env: Env, s: State)
    requires Inv(s) && Sourced(env, s) && !Done(s)
    ensures Sourced(env, Step(env, s))
  {
    var t := Step(env, s);
    if t.Running? {
      StepInv(env, s);
      var f', deps, kept := StepIs(env, s, t);
      if !f'.alreadyInstalled { FinalizedStored(env, s.features[s.i], f'); }
      forall k | 0 <= k < t.i && !t.features[k].alreadyInstalled ensures Stored(env, t.features[k]) {
        if k < s.i { assert t.features[k] == s.features[k]; } else { assert t.features[k] == f'; }
      }
    }
  }

  lemma {:induction false} IterateSourced(env: Env, s: State, n: nat)
    requires Inv(s) && Sourced(env, s)
    ensures Sourced(env, Iterate(env, s, n))
    decreases n
  {
    if n > 0 && !Done(s) {
      StepInv(env, s);
      StepSourced(env, s);
      IterateSourced(env, Step(env, s), n - 1);
    }
  }

  /** g is the entry a request for key with opts led to: under that reference, or as the content and options it resolved to. */
  ghost predicate Meets(g: Feature, aliases: seq<Feature>, key: string, opts: Options) {
    || (g.ref == key && SameOptions(g, opts))
    || exists a :: 0 <= a < |aliases| && aliases[a].ref == key && SameOptions(aliases[a], opts) &&
         g.resolvedRef != "" && g.resolvedRef == aliases[a].resolvedRef && g.unset == aliases[a].unset && g.options == aliases[a].options
  }

  lemma MetMeets(s: State, key: string, opts: Options) returns (j: nat)
    requires s.Running? && s.i == |s.features| && AliasesKept(s) && Met(s.features, s.aliases, key, opts)
    ensures j < |s.features| && Meets(s.features[j], s.aliases, key, opts)
  {
    if Requested(s.features, key, opts) {
      j :| 0 <= j < |s.features| && s.features[j].ref == key && SameOptions(s.features[j], opts);
    } else {
      var a :| 0 <= a < |s.aliases| && s.aliases[a].ref == key && SameOptions(s.aliases[a], opts);
      assert s.features[..s.i] == s.features;
      assert Duplicate(s.features, s.aliases[a]);
      j :| 0 <= j < |s.features| && s.features[j].resolvedRef != "" && s.features[j].resolvedRef == s.aliases[a].resolvedRef && s.features[j].unset == s.aliases[a].unset && s.features[j].options == s.aliases[a].options;
    }
  }

  /** An entry meeting a dependency under the same id holds the requested options itself. */
  lemma MeetsOptions(env: Env, s: State, j: nat, key: string, opts: Options)
    requires ContentAddressed(env) && s.Running? && s.i == |s.features| && Sourced(env, s) && j < |s.features|
    requires Meets(s.features[j], s.aliases, key, opts) && !s.features[j].alreadyInstalled
    ensures SameOptions(s.features[j], opts)
  {
    var g := s.features[j];
    if !(g.ref == key && SameOptions(g, opts)) {
      var a :| 0 <= a < |s.aliases| && s.aliases[a].ref == key && SameOptions(s.aliases[a], opts) &&
        g.resolvedRef != "" && g.resolvedRef == s.aliases[a].resolvedRef && g.unset == s.aliases[a].unset && g.options == s.aliases[a].options;
      SameContent(env, g, s.aliases[a]);
    }
  }

  lemma SameContent(env: Env, g: Feature, h: Feature)
    requires ContentAddressed(env) && Stored(env, g) && Stored(env, h) && g.resolvedRef == h.resolvedRef
    ensures g.metadata == h.metadata
  {
    var r, k :| env.store(r, k).Some? && env.store(r, k).value.resolvedRef == g.resolvedRef && env.store(r, k).value.metadata == g.metadata;
    var r', k' :| env.store(r', k').Some? && env.store(r', k').value.resolvedRef == h.resolvedRef && env.store(r', k').value.metadata == h.metadata;
  }

  /** In an installation order, an entry for a dependency's id with the requested options stands before the dependent. */
  lemma EntryBefore(fs: seq<Feature>, order: seq<nat>, out: seq<Feature>, a: nat, b: nat, key: string)
    requires IsInstallOrder(fs, order, out) && a < |out| && b < |out|
    requires key in out[a].metadata.Dependencies() && Named(out[b], key) && SameOptions(out[b], out[a].metadata.Dependencies()[key])
    ensures b < a
  {
    var i, j := order[a], order[b];
    assert DependencyEntry(fs, j, key, fs[i].metadata.Dependencies()[key]);
    assert HasEdge(fs, j, i);
    var x, y :| 0 <= x < y < |order| && order[x] == j && order[y] == i;
  }

  /** The features of a finished expansion. */
  ghost predicate Expanded(env: Env, initial: seq<Feature>, fs: seq<Feature>, aliases: seq<Feature>) {
    && (forall k :: 0 <= k < |initial| ==> Fresh(initial[k]))
    && exists n: nat :: Iterate(env, Start(initial), n) == Running(|fs|, fs, aliases)
  }

  lemma ExpandedInv(env: Env, initial: seq<Feature>, fs: seq<Feature>, aliases: seq<Feature>)
    requires Expanded(env, initial, fs, aliases)
    ensures Inv(Running(|fs|, fs, aliases)) && Sourced(env, Running(|fs|, fs, aliases))
  {
    var n: nat :| Iterate(env, Start(initial), n) == Running(|fs|, fs, aliases);
    StartInv(initial);
    IterateInv(env, Start(initial), n);
    IterateSourced(env, Start(initial), n);
  }

  /** Some entry meets the dependency; every one that was fetched and bears its id stands before position a. */
  ghost predicate MetBefore(out: seq<Feature>, aliases: seq<Feature>, a: nat, key: string, opts: Options) {
    && (exists b :: 0 <= b < |out| && Meets(out[b], aliases, key, opts))
    && forall b :: 0 <= b < |out| && Meets(out[b], aliases, key, opts) && Named(out[b], key) && !out[b].alreadyInstalled ==> b < a
  }

  lemma MetInOrder(env: Env, s: State, order: seq<nat>, out: seq<Feature>, a: nat, key: string)
    requires ContentAddressed(env) && s.Running? && s.i == |s.features| && AliasesKept(s) && AllMet(s) && Sourced(env, s)
    requires IsInstallOrder(s.features, order, out) && a < |out| && key in out[a].metadata.Dependencies()
    ensures MetBefore(out, s.aliases, a, key, out[a].metadata.Dependencies()[key])
  {
    var fs := s.features;
    var opts := out[a].metadata.Dependencies()[key];
    assert out[a] == fs[order[a]] && DepsMet(s, order[a]);
    var j := MetMeets(s, key, opts);
    assert j in Elements(order);
    var b :| 0 <= b < |order| && order[b] == j;
    assert out[b] == fs[j];
    forall b | 0 <= b < |out| && Meets(out[b], s.aliases, key, opts) && Named(out[b], key) && !out[b].alreadyInstalled ensures b < a {
      assert out[b] == fs[order[b]];
      MeetsOptions(env, s, order[b], key, opts);
      EntryBefore(fs, order, out, a, b, key);
    }
  }

  /** After a successful expansion and ordering of two or more features, every dependency is met, and met in time. */
  lemma DependenciesInstalled(env: Env, initial: seq<Feature>, fs: seq<Feature>, aliases: seq<Feature>,
                              text: Options -> string, r: Outcome, a: nat, key: string)
    requires ContentAddressed(env) && Expanded(env, initial, fs, aliases) && |fs| >= 2
    requires Produces(fs, text, r) && r.Sorted? && a < |r.out| && key in r.out[a].metadata.Dependencies()
    ensures MetBefore(r.out, aliases, a, key, r.out[a].metadata.Dependencies()[key])
  {
    ExpandedInv(env, initial, fs, aliases);
    var order :| IsInstallOrder(fs, order, r.out);
    MetInOrder(env, Running(|fs|, fs, aliases), order, r.out, a, key);
  }

  /** No fetched entry shares content and options with an earlier one; options that are absent equal none that are there. */
  lemma NoFetchedDuplicates(env: Env, initial: seq<Feature>, fs: seq<Feature>, aliases: seq<Feature>, j: nat, k: nat)
    requires Expanded(env, initial, fs, aliases) && j < k < |fs| && !fs[k].alreadyInstalled && fs[k].resolvedRef != ""
    ensures fs[j].resolvedRef != fs[k].resolvedRef || fs[j].options != fs[k].options || fs[j].unset != fs[k].unset
  {
    ExpandedInv(env, initial, fs, aliases);
    assert fs[..k][j] == fs[j];
  }
}
