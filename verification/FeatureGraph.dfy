/**
  The installation graph of a feature list and the edge lists topoSort builds
  from it. An edge (j, i) says entry j is installed before entry i.
  (feature/graph.go)
 */
module FeatureGraph {
  import opened Prelude
  import opened Ordering
  import opened Graphs
  import opened FeatureModel

  /** A feature's options as JSON: absent ones read null. */
  function OptionsText(f: Feature, text: Options -> string): string {
    if f.unset then "null" else text(f.options)
  }

  /** featureLess: by reference, then by the JSON text of the options. */
  predicate FeatureLess(a: Feature, b: Feature, text: Options -> string) {
    if a.ref != b.ref then Less(a.ref, b.ref) else Less(OptionsText(a, text), OptionsText(b, text))
  }

  function IndexLess(fs: seq<Feature>, text: Options -> string): (nat, nat) -> bool {
    (a: nat, b: nat) => a < |fs| && b < |fs| && FeatureLess(fs[a], fs[b], text)
  }

  lemma FeatureLessWeak(a: Feature, b: Feature, c: Feature, text: Options -> string)
    requires FeatureLess(a, b, text)
    ensures !FeatureLess(b, a, text)
    ensures FeatureLess(a, c, text) || FeatureLess(c, b, text)
  {
    if a.ref != b.ref {
      LessWeak(a.ref, b.ref, c.ref);
    } else {
      LessWeak(OptionsText(a, text), OptionsText(b, text), OptionsText(c, text));
      LessTotal(a.ref, c.ref);
    }
  }

  lemma LessWeak(a: string, b: string, c: string)
    requires Less(a, b)
    ensures a != b && !Less(b, a)
    ensures c == a || c == b || Less(a, c) || Less(c, b)
  {
    LessAsymmetric(a, b);
    LessTotal(a, c);
    if Less(c, a) { LessTransitive(c, a, b); }
    LessIrreflexive(a);
  }

  lemma IndexLessWeak(fs: seq<Feature>, text: Options -> string)
    ensures StrictWeak(IndexLess(fs, text), Below(|fs|))
  {
    var less := IndexLess(fs, text);
    forall x, y, z | x in Below(|fs|) && y in Below(|fs|) && z in Below(|fs|) && less(x, y)
      ensures !less(y, x) && (less(x, z) || less(z, y))
    {
      FeatureLessWeak(fs[x], fs[y], fs[z], text);
    }
  }

  predicate Named(f: Feature, key: string) {
    NormalizeID(f.ref) == NormalizeID(key)
  }

  predicate NamedByAny(f: Feature, keys: seq<string>) {
    exists key :: key in keys && Named(f, key)
  }

  lemma NamedByMore(f: Feature, keys: seq<string>, key: string)
    ensures NamedByAny(f, keys + [key]) <==> NamedByAny(f, keys) || Named(f, key)
  {
    if Named(f, key) { assert key in keys + [key]; }
    if x :| x in keys && Named(f, x) { assert x in keys + [key]; }
  }

  /** i installs after every entry for an id it names. */
  predicate InstallsAfter(fs: seq<Feature>, j: nat, i: nat)
    requires i < |fs| && j < |fs|
  {
    NamedByAny(fs[j], fs[i].metadata.installsAfter)
  }

  /** dependencyEntries: the entries holding the requested options, or, when none does, every entry for the id. */
  predicate DependencyEntry(fs: seq<Feature>, j: nat, key: string, opts: Options)
    requires j < |fs|
  {
    Named(fs[j], key) &&
    (SameOptions(fs[j], opts) || forall k :: 0 <= k < |fs| && Named(fs[k], key) ==> !SameOptions(fs[k], opts))
  }

  predicate DependsOn(fs: seq<Feature>, j: nat, i: nat)
    requires i < |fs| && j < |fs|
  {
    var deps := fs[i].metadata.Dependencies();
    exists key :: key in deps && DependencyEntry(fs, j, key, deps[key])
  }

  predicate HasEdge(fs: seq<Feature>, j: nat, i: nat) {
    j < |fs| && i < |fs| && (InstallsAfter(fs, j, i) || DependsOn(fs, j, i))
  }

  ghost function EdgeSet(fs: seq<Feature>): (r: set<(nat, nat)>)
    ensures forall j: nat, i: nat :: (j, i) in r <==> HasEdge(fs, j, i)
  {
    set j: nat, i: nat | j in Below(|fs|) && i in Below(|fs|) && HasEdge(fs, j, i) :: (j, i)
  }

  // ---- edge lists: adj[i] and inDegree[i] as the edge calls leave them ----

  /** The successors of i in the order their edges were added. */
  ghost function Targets(edges: seq<(nat, nat)>, i: nat): seq<nat> {
    if edges == [] then []
    else
      var n := |edges| - 1;
      Targets(edges[..n], i) + if edges[n].0 == i then [edges[n].1] else []
  }

  /** How many edges reach j from nodes outside done. */
  ghost function CountIn(edges: seq<(nat, nat)>, j: nat, done: set<nat>): nat {
    if edges == [] then 0
    else
      var n := |edges| - 1;
      CountIn(edges[..n], j, done) + if edges[n].1 == j && edges[n].0 !in done then 1 else 0
  }

  lemma TargetsIn(edges: seq<(nat, nat)>, i: nat, j: nat)
    ensures j in Targets(edges, i) <==> (i, j) in edges
  {
    if edges != [] { TargetsIn(edges[..|edges| - 1], i, j); }
  }

  lemma CountDone(edges: seq<(nat, nat)>, j: nat, done: set<nat>, i: nat)
    requires i !in done
    ensures CountIn(edges, j, done) == CountIn(edges, j, done + {i}) + multiset(Targets(edges, i))[j]
  {
    if edges != [] { CountDone(edges[..|edges| - 1], j, done, i); }
  }

  lemma CountPositive(edges: seq<(nat, nat)>, j: nat, done: set<nat>)
    ensures CountIn(edges, j, done) == 0 <==> forall a :: (a, j) in edges ==> a in done
  {
    if edges != [] {
      var n := |edges| - 1;
      CountPositive(edges[..n], j, done);
      assert edges == edges[..n] + [edges[n]];
    }
  }

  /** The adjacency and in-degree slices hold exactly the edges added so far. */
  ghost predicate Holds(n: nat, edges: seq<(nat, nat)>, adj: seq<seq<nat>>, inDegree: seq<nat>) {
    && |adj| == |inDegree| == n
    && (forall e :: e in edges ==> e.0 < n && e.1 < n)
    && (forall i :: 0 <= i < n ==> adj[i] == Targets(edges, i))
    && (forall i :: 0 <= i < n ==> inDegree[i] == CountIn(edges, i, {}))
  }

  lemma AddEdge(n: nat, edges: seq<(nat, nat)>, adj: seq<seq<nat>>, inDegree: seq<nat>, from: nat, to: nat)
    requires Holds(n, edges, adj, inDegree) && from < n && to < n
    ensures Holds(n, edges + [(from, to)], adj[from := adj[from] + [to]], inDegree[to := inDegree[to] + 1])
  {
    assert (edges + [(from, to)])[..|edges|] == edges;
  }

  // ---- building the graph ----

  /** The positions of the entries for an id. */
  ghost predicate IsIndex(fs: seq<Feature>, upto: nat, idx: map<string, seq<nat>>)
    requires upto <= |fs|
  {
    forall id: string, i: nat :: (id in idx && i in idx[id]) <==> (i < upto && NormalizeID(fs[i].ref) == id)
  }

  method BuildIndex(fs: seq<Feature>) returns (idx: map<string, seq<nat>>)
    ensures IsIndex(fs, |fs|, idx)
  {
    idx := map[];
    for i := 0 to |fs|
      invariant IsIndex(fs, i, idx)
    {
      var id := NormalizeID(fs[i].ref);
      idx := idx[id := (if id in idx then idx[id] else []) + [i]];
    }
  }

  function Lookup(idx: map<string, seq<nat>>, key: string): seq<nat> {
    var id := NormalizeID(key);
    if id in idx then idx[id] else []
  }

  method DependencyEntries(fs: seq<Feature>, candidates: seq<nat>, key: string, opts: Options) returns (out: seq<nat>)
    requires forall j: nat :: j in candidates <==> j < |fs| && Named(fs[j], key)
    ensures forall j: nat :: j in out <==> j < |fs| && DependencyEntry(fs, j, key, opts)
  {
    out := [];
    for k := 0 to |candidates|
      invariant forall j: nat :: j in out <==> j in candidates[..k] && j < |fs| && SameOptions(fs[j], opts)
    {
      assert candidates[k] in candidates;
      if SameOptions(fs[candidates[k]], opts) { out := out + [candidates[k]]; }
    }
    assert candidates[..|candidates|] == candidates;
    if |out| == 0 {
      forall j: nat | j in candidates ensures !SameOptions(fs[j], opts) { assert j !in out; }
      out := candidates;
    } else {
      assert out[0] in out;
    }
  }

  /** Adds an edge to `to` from each of froms, in order. */
  method AddEdges(n: nat, froms: seq<nat>, to: nat, ghost edges0: seq<(nat, nat)>, adj0: seq<seq<nat>>, inDegree0: seq<nat>)
    returns (ghost edges: seq<(nat, nat)>, adj: seq<seq<nat>>, inDegree: seq<nat>)
    requires Holds(n, edges0, adj0, inDegree0) && to < n && forall j :: j in froms ==> j < n
    ensures Holds(n, edges, adj, inDegree)
    ensures forall j, i :: (j, i) in edges <==> (j, i) in edges0 || (i == to && j in froms)
  {
    edges, adj, inDegree := edges0, adj0, inDegree0;
    for k := 0 to |froms|
      invariant Holds(n, edges, adj, inDegree)
      invariant forall j, i :: (j, i) in edges <==> (j, i) in edges0 || (i == to && j in froms[..k])
    {
      assert froms[k] in froms;
      AddEdge(n, edges, adj, inDegree, froms[k], to);
      edges := edges + [(froms[k], to)];
      adj := adj[froms[k] := adj[froms[k]] + [to]];
      inDegree := inDegree[to := inDegree[to] + 1];
    }
    assert froms[..|froms|] == froms;
  }

  lemma LookupIs(fs: seq<Feature>, idx: map<string, seq<nat>>, key: string)
    requires IsIndex(fs, |fs|, idx)
    ensures forall j: nat :: j in Lookup(idx, key) <==> j < |fs| && Named(fs[j], key)
  {}

  method AddInstallsAfter(fs: seq<Feature>, idx: map<string, seq<nat>>, i: nat,
                          ghost edges0: seq<(nat, nat)>, adj0: seq<seq<nat>>, inDegree0: seq<nat>)
    returns (ghost edges: seq<(nat, nat)>, adj: seq<seq<nat>>, inDegree: seq<nat>)
    requires IsIndex(fs, |fs|, idx) && i < |fs| && Holds(|fs|, edges0, adj0, inDegree0)
    ensures Holds(|fs|, edges, adj, inDegree)
    ensures forall a: nat, b: nat :: (a, b) in edges <==> (a, b) in edges0 || (b == i && a < |fs| && InstallsAfter(fs, a, i))
  {
    edges, adj, inDegree := edges0, adj0, inDegree0;
    var deps := fs[i].metadata.installsAfter;
    for k := 0 to |deps|
      invariant Holds(|fs|, edges, adj, inDegree)
      invariant forall a: nat, b: nat :: (a, b) in edges <==>
        (a, b) in edges0 || (b == i && a < |fs| && NamedByAny(fs[a], deps[..k]))
    {
      LookupIs(fs, idx, deps[k]);
      assert deps[..k + 1] == deps[..k] + [deps[k]];
      forall a | 0 <= a < |fs| { NamedByMore(fs[a], deps[..k], deps[k]); }
      edges, adj, inDegree := AddEdges(|fs|, Lookup(idx, deps[k]), i, edges, adj, inDegree);
    }
    assert deps[..|deps|] == deps;
  }

  method AddDependsOn(fs: seq<Feature>, idx: map<string, seq<nat>>, i: nat,
                      ghost edges0: seq<(nat, nat)>, adj0: seq<seq<nat>>, inDegree0: seq<nat>)
    returns (ghost edges: seq<(nat, nat)>, adj: seq<seq<nat>>, inDegree: seq<nat>)
    requires IsIndex(fs, |fs|, idx) && i < |fs| && Holds(|fs|, edges0, adj0, inDegree0)
    ensures Holds(|fs|, edges, adj, inDegree)
    ensures forall a: nat, b: nat :: (a, b) in edges <==> (a, b) in edges0 || (b == i && a < |fs| && DependsOn(fs, a, i))
  {
    edges, adj, inDegree := edges0, adj0, inDegree0;
    var deps := fs[i].metadata.Dependencies();
    var done: set<string> := {};
    while deps.Keys - done != {}
      invariant done <= deps.Keys
      invariant Holds(|fs|, edges, adj, inDegree)
      invariant forall a: nat, b: nat :: (a, b) in edges <==>
        (a, b) in edges0 || (b == i && a < |fs| && exists key :: key in done && DependencyEntry(fs, a, key, deps[key]))
      decreases deps.Keys - done
    {
      var key :| key in deps.Keys - done;
      LookupIs(fs, idx, key);
      var froms := DependencyEntries(fs, Lookup(idx, key), key, deps[key]);
      edges, adj, inDegree := AddEdges(|fs|, froms, i, edges, adj, inDegree);
      done := done + {key};
    }
    DiffEmpty(deps.Keys, done);
  }

  /** The edge loop of topoSort: afterwards the slices hold exactly the installation graph. */
  method BuildGraph(fs: seq<Feature>) returns (adj: seq<seq<nat>>, inDegree: seq<nat>, ghost edges: seq<(nat, nat)>)
    ensures Holds(|fs|, edges, adj, inDegree)
    ensures forall a: nat, b: nat :: (a, b) in edges <==> HasEdge(fs, a, b)
    ensures forall a: nat, b: nat :: a < |fs| ==> (b in adj[a] <==> HasEdge(fs, a, b))
    ensures forall b: nat :: b < |fs| ==> (inDegree[b] == 0 <==> forall a: nat :: !HasEdge(fs, a, b))
  {
    var idx := BuildIndex(fs);
    edges, adj, inDegree := [], seq(|fs|, _ => []), seq(|fs|, _ => 0);
    for i := 0 to |fs|
      invariant Holds(|fs|, edges, adj, inDegree)
      invariant forall a: nat, b: nat :: (a, b) in edges <==> b < i && HasEdge(fs, a, b)
    {
      edges, adj, inDegree := AddInstallsAfter(fs, idx, i, edges, adj, inDegree);
      edges, adj, inDegree := AddDependsOn(fs, idx, i, edges, adj, inDegree);
    }
    forall a: nat, b: nat | a < |fs| ensures b in adj[a] <==> HasEdge(fs, a, b) { TargetsIn(edges, a, b); }
    forall b: nat | b < |fs| ensures inDegree[b] == 0 <==> forall a: nat :: !HasEdge(fs, a, b) { NoneIn(fs, edges, b); }
  }

  lemma NoneIn(fs: seq<Feature>, edges: seq<(nat, nat)>, b: nat)
    requires forall a: nat, b: nat :: (a, b) in edges <==> HasEdge(fs, a, b)
    ensures CountIn(edges, b, {}) == 0 <==> forall a: nat :: !HasEdge(fs, a, b)
  {
    CountPositive(edges, b, {});
    if a: nat :| HasEdge(fs, a, b) { assert (a, b) in edges; }
  }
}
