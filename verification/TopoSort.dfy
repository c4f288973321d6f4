/**
  topoSort: Kahn's algorithm with longest-path tracking, and the outcome it
  reports. (feature/graph.go:42-155, 201-227)
 */
module TopoSort {
  import opened Prelude
  import opened Ordering
  import opened Graphs
  import opened FeatureModel
  import opened FeatureGraph
  import opened Kahn
  import CyclePath

  /** The child loop: one decrement per edge, so a child reaches its base count at its last occurrence. */
  method Relax(children: seq<nat>, i: nat, ghost less: (nat, nat) -> bool, ghost base: seq<nat>, inDegree0: seq<nat>, depth0: seq<nat>)
    returns (inDegree: seq<nat>, depth: seq<nat>, batch: seq<nat>)
    requires |inDegree0| == |depth0| == |base| && i < |base| && i !in children && SortedBy(less, children)
    requires InRange(children, |base|) && Degrees(base, children, inDegree0)
    ensures inDegree == base && Deeper(depth0, i, children, depth) && Batch(less, children, base, batch)
  {
    inDegree, depth, batch := inDegree0, depth0, [];
    assert children[0..] == children;
    for c := 0 to |children|
      invariant Degrees(base, children[c..], inDegree) && Deeper(depth0, i, children[..c], depth) && |depth| == |base|
      invariant Batch(less, children[..c], inDegree, batch)
    {
      var j := children[c];
      assert j in children;
      ChildStep(children, c, less, base, inDegree, batch);
      DeeperStep(depth0, i, children, c, depth);
      if depth[i] + 1 > depth[j] { depth := depth[j := depth[i] + 1]; }
      inDegree := inDegree[j := inDegree[j] - 1];
      if inDegree[j] == 0 { batch := batch + [j]; }
    }
    assert children[..|children|] == children;
    assert children[|children|..] == [];
    assert inDegree == base;
  }

  lemma DeeperStep(depth0: seq<nat>, i: nat, children: seq<nat>, c: nat, depth: seq<nat>)
    requires c < |children| && i !in children && children[c] < |depth| && Deeper(depth0, i, children[..c], depth)
    ensures depth[i] == depth0[i]
    ensures Deeper(depth0, i, children[..c + 1], if depth[i] + 1 > depth[children[c]] then depth[children[c] := depth[i] + 1] else depth)
  {
    assert children[..c + 1] == children[..c] + [children[c]];
    assert children[c] in children;
  }

  /** rest has yet to be counted down. */
  ghost predicate Degrees(base: seq<nat>, rest: seq<nat>, inDegree: seq<nat>) {
    |inDegree| == |base| && forall j :: 0 <= j < |base| ==> inDegree[j] == base[j] + multiset(rest)[j]
  }

  /** The children seen lie below i. */
  ghost predicate Deeper(depth0: seq<nat>, i: nat, seen: seq<nat>, depth: seq<nat>) {
    && |depth| == |depth0| && i < |depth0| && i !in seen
    && forall j :: 0 <= j < |depth| ==> depth[j] == if j in seen then Max(depth0[j], depth0[i] + 1) else depth0[j]
  }

  /** The children seen whose count is down to nothing, sorted. */
  ghost predicate Batch(less: (nat, nat) -> bool, seen: seq<nat>, inDegree: seq<nat>, batch: seq<nat>) {
    NoDup(batch) && SortedBy(less, batch) && forall j: nat :: j in batch <==> j in seen && j < |inDegree| && inDegree[j] == 0
  }

  lemma ChildStep(children: seq<nat>, c: nat, less: (nat, nat) -> bool, base: seq<nat>, inDegree: seq<nat>, batch: seq<nat>)
    requires c < |children| && SortedBy(less, children) && children[c] < |base|
    requires Degrees(base, children[c..], inDegree) && Batch(less, children[..c], inDegree, batch)
    ensures inDegree[children[c]] > 0
    ensures var left := inDegree[children[c] := inDegree[children[c]] - 1];
      && Degrees(base, children[c + 1..], left)
      && Batch(less, children[..c + 1], left, if left[children[c]] == 0 then batch + [children[c]] else batch)
  {
    assert children[c..] == [children[c]] + children[c + 1..];
    assert children[..c + 1] == children[..c] + [children[c]];
    BatchSorted(children, c, less, batch);
  }

  lemma BatchSorted(children: seq<nat>, c: nat, less: (nat, nat) -> bool, batch: seq<nat>)
    requires c < |children| && SortedBy(less, children) && SortedBy(less, batch)
    requires forall j :: j in batch ==> j in children[..c]
    ensures SortedBy(less, batch + [children[c]])
  {
    forall k | 0 <= k < |batch| ensures !less(children[c], batch[k]) {
      assert batch[k] in children[..c];
    }
  }

  predicate InRange(idx: seq<nat>, n: nat) {
    forall k :: 0 <= k < |idx| ==> idx[k] < n
  }

  function Refs(fs: seq<Feature>, idx: seq<nat>): (r: seq<string>)
    requires InRange(idx, |fs|)
    ensures |r| == |idx| && forall k :: 0 <= k < |idx| ==> r[k] == fs[idx[k]].ref
  {
    seq(|idx|, k requires 0 <= k < |idx| => fs[idx[k]].ref)
  }

  ghost predicate PredecessorsUpTo(preds: seq<seq<nat>>, adj: seq<seq<nat>>, n: nat)
    requires |preds| == |adj| && n <= |adj|
  {
    forall j: nat, a: nat {:trigger a in preds[j]} :: j < |adj| ==> (a in preds[j] <==> a < n && j in adj[a])
  }

  method Predecessors(adj: seq<seq<nat>>) returns (preds: seq<seq<nat>>)
    requires forall i, j :: 0 <= i < |adj| && j in adj[i] ==> j < |adj|
    ensures |preds| == |adj|
    ensures PredecessorsUpTo(preds, adj, |adj|)
  {
    preds := seq(|adj|, _ => []);
    for i := 0 to |adj|
      invariant |preds| == |adj|
      invariant PredecessorsUpTo(preds, adj, i)
    {
      preds := AddPredecessors(preds, adj[i], i);
    }
  }

  method AddPredecessors(preds0: seq<seq<nat>>, children: seq<nat>, i: nat) returns (preds: seq<seq<nat>>)
    requires forall j :: j in children ==> j < |preds0|
    ensures |preds| == |preds0|
    ensures forall a: nat, j: nat :: j < |preds| ==> (a in preds[j] <==> a in preds0[j] || (a == i && j in children))
  {
    preds := preds0;
    for k := 0 to |children|
      invariant |preds| == |preds0|
      invariant forall a: nat, j: nat :: j < |preds| ==> (a in preds[j] <==> a in preds0[j] || (a == i && j in children[..k]))
    {
      assert children[k] in children;
      preds := preds[children[k] := preds[children[k]] + [i]];
    }
    assert children[..|children|] == children;
  }

  method FindShallower(preds: seq<nat>, depth: seq<nat>, d: nat) returns (prev: int)
    requires forall p :: p in preds ==> p < |depth|
    ensures prev >= 0 ==> prev in preds && depth[prev] == d
    ensures prev < 0 ==> forall p :: p in preds ==> depth[p] != d
  {
    for k := 0 to |preds|
      invariant forall p :: p in preds[..k] ==> p < |depth| && depth[p] != d
    {
      assert preds[k] in preds && preds[..k + 1] == preds[..k] + [preds[k]];
      if depth[preds[k]] == d { return preds[k]; }
    }
    assert preds[..|preds|] == preds;
    return -1;
  }

  /** An entry all of whose predecessors are listed has one exactly one level up, unless it is a root. */
  lemma StepUp(edges: set<(nat, nat)>, n: nat, s: State, cur: nat)
    requires QueueInv(edges, n, s) && DepthInv(edges, n, s) && cur < n && Unblocked(edges, Elements(s.out), cur)
    ensures s.depth[cur] == 0 ==> forall a :: (a, cur) !in edges
    ensures s.depth[cur] > 0 ==> exists a: nat :: a < n && (a, cur) in edges && s.depth[a] == s.depth[cur] - 1
    ensures forall a :: (a, cur) in edges ==> Unblocked(edges, Elements(s.out), a)
  {
    assert Deep(edges, s.out, s.depth, cur);
    forall a | (a, cur) in edges ensures a in s.out && a < n && Unblocked(edges, Elements(s.out), a) {
      assert a in Elements(s.out);
    }
  }

  lemma PredecessorsAre(edges: set<(nat, nat)>, preds: seq<seq<nat>>, adj: seq<seq<nat>>, cur: nat)
    requires |preds| == |adj| && cur < |adj| && PredecessorsUpTo(preds, adj, |adj|) && WellFormed(edges, |adj|)
    requires forall i: nat, j: nat :: i < |adj| ==> (j in adj[i] <==> (i, j) in edges)
    ensures forall p: nat :: p in preds[cur] <==> (p, cur) in edges
  {}

  lemma ChainGrows(fs: seq<Feature>, edges: set<(nat, nat)>, a: nat, chain: seq<nat>)
    requires IsPath(edges, chain) && (a, chain[0]) in edges && InRange(chain, |fs|) && a < |fs|
    ensures IsPath(edges, [a] + chain) && InRange([a] + chain, |fs|) && Refs(fs, [a] + chain) == [fs[a].ref] + Refs(fs, chain)
  {}

  /** buildDeepestPath: walks up from target to a root, one level at a time. */
  method BuildDeepestPath(fs: seq<Feature>, target: nat, depth: seq<nat>, adj: seq<seq<nat>>,
                          ghost edges: set<(nat, nat)>, ghost s: State)
    returns (path: seq<string>, ghost chain: seq<nat>)
    requires WellFormed(edges, |fs|) && QueueInv(edges, |fs|, s) && DepthInv(edges, |fs|, s) && s.depth == depth
    requires target < |fs| && Unblocked(edges, Elements(s.out), target)
    requires |adj| == |fs| && forall i: nat, j: nat :: i < |fs| ==> (j in adj[i] <==> (i, j) in edges)
    ensures RootChain(edges, chain, target, depth[target])
    ensures InRange(chain, |fs|) && path == Refs(fs, chain)
    ensures |path| == depth[target] + 1 && path[depth[target]] == fs[target].ref
  {
    var preds := Predecessors(adj);
    path, chain := [fs[target].ref], [target];
    var cur := target;
    while depth[cur] > 0
      invariant cur < |fs| && Unblocked(edges, Elements(s.out), cur)
      invariant InRange(chain, |fs|) && path == Refs(fs, chain)
      invariant IsPath(edges, chain) && chain[0] == cur && chain[|chain| - 1] == target
      invariant |chain| - 1 == depth[target] - depth[cur]
      decreases depth[cur]
    {
      StepUp(edges, |fs|, s, cur);
      PredecessorsAre(edges, preds, adj, cur);
      var prev := FindShallower(preds[cur], depth, depth[cur] - 1);
      if prev < 0 { break; }
      assert (prev as nat, cur) in edges;
      ChainGrows(fs, edges, prev, chain);
      path, chain := [fs[prev].ref] + path, [prev as nat] + chain;
      cur := prev;
    }
    StepUp(edges, |fs|, s, cur);
  }

  /** The listing as features. */
  ghost predicate Lists(fs: seq<Feature>, order: seq<nat>, out: seq<Feature>) {
    InRange(order, |fs|) && |out| == |order| && forall k :: 0 <= k < |order| ==> out[k] == fs[order[k]]
  }

  /** The in-degrees left count blockers not yet listed. */
  ghost predicate Counts(list: seq<(nat, nat)>, done: set<nat>, inDegree: seq<nat>) {
    forall j: nat :: j < |inDegree| ==> inDegree[j] == CountIn(list, j, done)
  }

  /** The deepest chain seen so far, reported from a root down. */
  ghost predicate Deepest(fs: seq<Feature>, edges: set<(nat, nat)>, maxDepth: nat, deepest: seq<string>, chain: seq<nat>) {
    if maxDepth == 0 then deepest == []
    else InRange(chain, |fs|) && chain != [] && RootChain(edges, chain, chain[|chain| - 1], maxDepth) && deepest == Refs(fs, chain)
  }

  ghost predicate Bounds(order: seq<nat>, depth: seq<nat>, maxDepth: nat) {
    forall j :: j in order ==> j < |depth| && depth[j] <= maxDepth
  }

  ghost predicate Sound(fs: seq<Feature>, edges: set<(nat, nat)>, s: State) {
    WellFormed(edges, |fs|) && QueueInv(edges, |fs|, s) && DepthInv(edges, |fs|, s)
  }

  /** What every turn of the queue loop keeps, for the in-memory queue and the run it has followed. */
  ghost predicate Queue(fs: seq<Feature>, list: seq<(nat, nat)>, edges: set<(nat, nat)>, less: (nat, nat) -> bool,
                        run: seq<State>, s: State, inDegree: seq<nat>, out: seq<Feature>) {
    && IsRun(edges, |fs|, less, run) && s == run[|run| - 1] && Sound(fs, edges, s) && Lists(fs, s.out, out)
    && |inDegree| == |fs| && Counts(list, Elements(s.out), inDegree) && |s.out| <= |fs|
  }

  /** The adjacency lists, as lists and as an edge set. */
  ghost predicate Adjacency(fs: seq<Feature>, list: seq<(nat, nat)>, edges: set<(nat, nat)>, adj: seq<seq<nat>>) {
    && edges == Elements(list) && |adj| == |fs|
    && (forall i: nat :: i < |fs| ==> adj[i] == Targets(list, i))
    && (forall i: nat, j: nat :: i < |fs| ==> (j in adj[i] <==> (i, j) in edges))
  }

  /** The depth bookkeeping of one turn: a new deepest entry is reported with its chain. */
  method Record(fs: seq<Feature>, adj: seq<seq<nat>>, ghost edges: set<(nat, nat)>, ghost s: State, i: nat, depth: seq<nat>,
                maxDepth0: nat, deepest0: seq<string>, ghost chain0: seq<nat>)
    returns (maxDepth: nat, deepest: seq<string>, ghost chain: seq<nat>)
    requires Sound(fs, edges, s) && s.ready != [] && s.ready[0] == i && s.depth == depth
    requires |adj| == |fs| && forall i: nat, j: nat :: i < |fs| ==> (j in adj[i] <==> (i, j) in edges)
    requires Bounds(s.out, depth, maxDepth0) && Deepest(fs, edges, maxDepth0, deepest0, chain0)
    ensures Bounds(s.out + [i], depth, maxDepth) && Deepest(fs, edges, maxDepth, deepest, chain)
  {
    HeadFresh(edges, |fs|, s);
    maxDepth, deepest, chain := maxDepth0, deepest0, chain0;
    if depth[i] > maxDepth {
      maxDepth := depth[i];
      deepest, chain := BuildDeepestPath(fs, i, depth, adj, edges, s);
    }
  }

  /** One turn of the queue: the head is listed and its successors relaxed. */
  method Turn(fs: seq<Feature>, text: Options -> string, adj: seq<seq<nat>>, ghost list: seq<(nat, nat)>, ghost edges: set<(nat, nat)>,
              ghost run0: seq<State>, ghost s0: State, inDegree0: seq<nat>, ready0: seq<nat>, depth0: seq<nat>, out0: seq<Feature>)
    returns (inDegree: seq<nat>, ready: seq<nat>, depth: seq<nat>, out: seq<Feature>, ghost run: seq<State>, ghost s: State)
    requires Adjacency(fs, list, edges, adj) && Queue(fs, list, edges, IndexLess(fs, text), run0, s0, inDegree0, out0)
    requires ready0 != [] && s0.ready == ready0 && s0.depth == depth0
    ensures Queue(fs, list, edges, IndexLess(fs, text), run, s, inDegree, out)
    ensures s == State(s0.out + [ready0[0]], ready, depth)
    ensures forall j :: j in s.out && j < |fs| ==> depth[j] == depth0[j]
  {
    HeadFresh(edges, |fs|, s0);
    var i := ready0[0];
    var batch;
    inDegree, depth, batch := Pop(fs, text, adj, list, edges, Elements(s0.out), i, inDegree0, depth0);
    ready := ready0[1..] + batch;
    s := State(s0.out + [i], ready, depth);
    StepMade(edges, |fs|, IndexLess(fs, text), s0, batch, s);
    Advance(fs, list, edges, IndexLess(fs, text), run0, s0, inDegree0, out0, s, inDegree);
    out, run := out0 + [fs[i]], run0 + [s];
  }

  /** The queue loop of topoSort: a full run of the queue discipline. */
  method RunQueue(fs: seq<Feature>, text: Options -> string, adj: seq<seq<nat>>, inDegree0: seq<nat>,
                  ghost list: seq<(nat, nat)>, ghost edges: set<(nat, nat)>)
    returns (out: seq<Feature>, inDegree: seq<nat>, maxDepth: nat, deepest: seq<string>,
             ghost chain: seq<nat>, ghost run: seq<State>, ghost s: State)
    requires Holds(|fs|, list, adj, inDegree0) && edges == Elements(list)
    ensures Queue(fs, list, edges, IndexLess(fs, text), run, s, inDegree, out) && s.ready == []
    ensures Bounds(s.out, s.depth, maxDepth) && Deepest(fs, edges, maxDepth, deepest, chain)
  {
    ghost var less := IndexLess(fs, text);
    AdjacencyIs(fs, list, adj, inDegree0, edges);
    inDegree, out, maxDepth, deepest, chain := inDegree0, [], 0, [], [];
    var depth: seq<nat> := seq(|fs|, _ => 0);
    var ready := InitialReady(fs, text, inDegree, list, edges);
    s := State([], ready, depth);
    run := [s];
    QueueInit(edges, |fs|, less, s);
    assert Elements(s.out) == {};
    while |ready| > 0
      invariant Queue(fs, list, edges, less, run, s, inDegree, out)
      invariant s.ready == ready && s.depth == depth
      invariant Bounds(s.out, depth, maxDepth) && Deepest(fs, edges, maxDepth, deepest, chain)
      decreases |fs| - |s.out|
    {
      maxDepth, deepest, chain := Record(fs, adj, edges, s, ready[0], depth, maxDepth, deepest, chain);
      inDegree, ready, depth, out, run, s := Turn(fs, text, adj, list, edges, run, s, inDegree, ready, depth, out);
    }
  }

  lemma StepMade(edges: set<(nat, nat)>, n: nat, less: (nat, nat) -> bool, s: State, batch: seq<nat>, t: State)
    requires s.ready != [] && s.ready[0] < |s.depth|
    requires t == State(s.out + [s.ready[0]], s.ready[1..] + batch, Deepened(edges, s.depth, s.ready[0]))
    requires NoDup(batch) && SortedBy(less, batch) && Elements(batch) == Released(edges, n, Elements(s.out), s.ready[0])
    ensures IsStep(edges, n, less, s, t)
  {
    assert t.ready[|s.ready| - 1..] == batch;
  }

  lemma Advance(fs: seq<Feature>, list: seq<(nat, nat)>, edges: set<(nat, nat)>, less: (nat, nat) -> bool,
                run: seq<State>, s: State, inDegree: seq<nat>, out: seq<Feature>, t: State, inDegree': seq<nat>)
    requires Queue(fs, list, edges, less, run, s, inDegree, out) && IsStep(edges, |fs|, less, s, t) && s.ready[0] < |fs|
    requires |inDegree'| == |fs| && Counts(list, Elements(s.out) + {s.ready[0]}, inDegree')
    ensures Queue(fs, list, edges, less, run + [t], t, inDegree', out + [fs[s.ready[0]]])
  {
    QueueStep(edges, |fs|, less, s, t);
    DepthStep(edges, |fs|, less, s, t);
    ListedBound(edges, |fs|, t);
    RunExtend(edges, |fs|, less, run, t);
    assert Elements(s.out) + {s.ready[0]} == Elements(t.out);
  }

  lemma ListedBound(edges: set<(nat, nat)>, n: nat, s: State)
    requires QueueInv(edges, n, s)
    ensures |s.out| <= n
  {
    assert NoDup(s.out) by {
      forall i, j | 0 <= i < j < |s.out| ensures s.out[i] != s.out[j] {
        assert (s.out + s.ready)[i] == s.out[i] && (s.out + s.ready)[j] == s.out[j];
      }
    }
    NoDupCard(s.out);
    BelowCard(n);
    SubsetCard(Elements(s.out), Below(n));
  }

  lemma AdjacencyIs(fs: seq<Feature>, list: seq<(nat, nat)>, adj: seq<seq<nat>>, inDegree: seq<nat>, edges: set<(nat, nat)>)
    requires Holds(|fs|, list, adj, inDegree) && edges == Elements(list)
    ensures Adjacency(fs, list, edges, adj)
  {
    forall i: nat, j: nat | i < |fs| ensures j in adj[i] <==> (i, j) in edges { TargetsIn(list, i, j); }
  }

  /** The entries nothing blocks, sorted. */
  method InitialReady(fs: seq<Feature>, text: Options -> string, inDegree: seq<nat>, ghost list: seq<(nat, nat)>, ghost edges: set<(nat, nat)>)
    returns (ready: seq<nat>)
    requires |inDegree| == |fs| && edges == Elements(list)
    requires forall j: nat :: j < |fs| ==> inDegree[j] == CountIn(list, j, {})
    ensures NoDup(ready) && SortedBy(IndexLess(fs, text), ready)
    ensures forall j: nat :: j in ready <==> j < |fs| && Unblocked(edges, {}, j)
  {
    var roots: seq<nat> := [];
    for i := 0 to |inDegree|
      invariant NoDup(roots) && forall j: nat :: j in roots <==> j < i && inDegree[j] == 0
    {
      if inDegree[i] == 0 { roots := roots + [i]; }
    }
    IndexLessWeak(fs, text);
    ready := Sort<nat>(roots, IndexLess(fs, text), Below(|fs|));
    PermutedNoDup(roots, ready);
    forall j: nat ensures j in ready <==> j < |fs| && Unblocked(edges, {}, j) { CountPositive(list, j, {}); }
  }

  /** Takes the head i off the queue: sorts its successors and relaxes them. */
  method Pop(fs: seq<Feature>, text: Options -> string, adj: seq<seq<nat>>, ghost list: seq<(nat, nat)>, ghost edges: set<(nat, nat)>,
             ghost done: set<nat>, i: nat, inDegree0: seq<nat>, depth0: seq<nat>)
    returns (inDegree: seq<nat>, depth: seq<nat>, batch: seq<nat>)
    requires |adj| == |inDegree0| == |depth0| == |fs| && i < |fs| && i !in done && (i, i) !in edges
    requires edges == Elements(list) && WellFormed(edges, |fs|) && adj[i] == Targets(list, i)
    requires forall j: nat :: j < |fs| ==> inDegree0[j] == CountIn(list, j, done)
    ensures |inDegree| == |fs| && forall j: nat :: j < |fs| ==> inDegree[j] == CountIn(list, j, done + {i})
    ensures depth == Deepened(edges, depth0, i)
    ensures NoDup(batch) && SortedBy(IndexLess(fs, text), batch) && Elements(batch) == Released(edges, |fs|, done, i)
  {
    forall j: nat ensures j in adj[i] <==> (i, j) in edges { TargetsIn(list, i, j); }
    IndexLessWeak(fs, text);
    var children := Sort<nat>(adj[i], IndexLess(fs, text), Below(|fs|));
    forall j: nat ensures j in children <==> (i, j) in edges { assert j in multiset(children) <==> j in multiset(adj[i]); }
    ghost var base := CountedDown(list, |fs|, done, i, children, inDegree0);
    inDegree, depth, batch := Relax(children, i, IndexLess(fs, text), base, inDegree0, depth0);
    BatchReleased(edges, list, |fs|, done, i, IndexLess(fs, text), children, base, batch);
  }

  /** What the in-degrees come to once i's edges are taken off. */
  lemma CountedDown(list: seq<(nat, nat)>, n: nat, done: set<nat>, i: nat, children: seq<nat>, inDegree0: seq<nat>) returns (base: seq<nat>)
    requires |inDegree0| == n && i !in done && multiset(children) == multiset(Targets(list, i))
    requires forall j: nat :: j < n ==> inDegree0[j] == CountIn(list, j, done)
    ensures |base| == n && (forall j: nat :: j < n ==> base[j] == CountIn(list, j, done + {i})) && Degrees(base, children, inDegree0)
  {
    base := seq(n, j requires 0 <= j < n => CountIn(list, j, done + {i}));
    forall j: nat | j < n ensures inDegree0[j] == base[j] + multiset(children)[j] { CountDone(list, j, done, i); }
  }

  lemma BatchReleased(edges: set<(nat, nat)>, list: seq<(nat, nat)>, n: nat, done: set<nat>, i: nat, less: (nat, nat) -> bool,
                      children: seq<nat>, base: seq<nat>, batch: seq<nat>)
    requires edges == Elements(list) && WellFormed(edges, n) && |base| == n
    requires (forall j: nat :: j < n ==> base[j] == CountIn(list, j, done + {i})) && Batch(less, children, base, batch)
    requires forall j: nat :: j in children <==> (i, j) in edges
    ensures Elements(batch) == Released(edges, n, done, i)
  {
    forall j: nat ensures j in batch <==> j in Released(edges, n, done, i) { CountPositive(list, j, done + {i}); }
  }

  // ---- outcome ----

  const DAG_WARN_DEPTH := 16
  const DAG_ERROR_DEPTH := 64

  /** A too-long chain is warned about with its depth and path. */
  datatype Outcome =
    | Sorted(out: seq<Feature>, warning: Option<(nat, seq<string>)>)
    | Cyclic(path: seq<string>)
    | TooDeep(depth: nat, path: seq<string>)

  /** order lists every entry once, along which every edge goes forward. */
  ghost predicate IsInstallOrder(fs: seq<Feature>, order: seq<nat>, out: seq<Feature>) {
    NoDup(order) && Elements(order) == Below(|fs|) && Lists(fs, order, out) && Respects(EdgeSet(fs), order)
  }

  /** path reads a longest chain from a root to its deepest entry. */
  ghost predicate ReadsChain(fs: seq<Feature>, d: nat, path: seq<string>) {
    exists c :: InRange(c, |fs|) && c != [] && RootChain(EdgeSet(fs), c, c[|c| - 1], d) && path == Refs(fs, c)
  }

  /** path reads one simple cycle, its last entry written twice. */
  ghost predicate ReadsCycle(fs: seq<Feature>, path: seq<string>) {
    exists c :: InRange(c, |fs|) && IsSimpleCycle(EdgeSet(fs), c) && path == Refs(fs, c) + [fs[c[|c| - 1]].ref]
  }

  /** What each outcome of sorting two or more features says about their graph. */
  ghost predicate Reports(fs: seq<Feature>, r: Outcome) {
    match r
    case Sorted(out, warning) =>
      && Acyclic(EdgeSet(fs)) && (exists order :: IsInstallOrder(fs, order, out))
      && exists d: nat :: IsLongestChain(EdgeSet(fs), d) && d < DAG_ERROR_DEPTH &&
           if d < DAG_WARN_DEPTH then warning == None
           else warning.Some? && warning.value.0 == d && ReadsChain(fs, d, warning.value.1)
    case TooDeep(d, path) =>
      Acyclic(EdgeSet(fs)) && IsLongestChain(EdgeSet(fs), d) && d >= DAG_ERROR_DEPTH && ReadsChain(fs, d, path)
    case Cyclic(path) =>
      !Acyclic(EdgeSet(fs)) && ReadsCycle(fs, path)
  }

  /** order is what an exhausted run of the queue listed. */
  ghost predicate IsListing(fs: seq<Feature>, text: Options -> string, order: seq<nat>) {
    exists run: seq<State> :: IsRun(EdgeSet(fs), |fs|, IndexLess(fs, text), run) && run[|run| - 1].ready == [] && run[|run| - 1].out == order
  }

  /** The largest depth recorded over a full listing is the length of the longest chain. */
  lemma LongestFound(edges: set<(nat, nat)>, n: nat, s: State, maxDepth: nat, chain: seq<nat>)
    requires n > 0 && WellFormed(edges, n) && QueueInv(edges, n, s) && DepthInv(edges, n, s) && Elements(s.out) == Below(n)
    requires Bounds(s.out, s.depth, maxDepth)
    requires maxDepth > 0 ==> chain != [] && RootChain(edges, chain, chain[|chain| - 1], maxDepth)
    ensures IsLongestChain(edges, maxDepth)
  {
    forall j: nat | j < n ensures j < |s.depth| && s.depth[j] <= maxDepth { assert j in Below(n) && j in Elements(s.out); }
    if maxDepth == 0 {
      DepthExact(edges, n, s, 0);
    } else {
      var i := chain[|chain| - 1];
      assert (chain[|chain| - 2], i) in edges;
      ChainBound(edges, n, s, chain);
      DepthExact(edges, n, s, i);
    }
  }

  lemma FullReport(fs: seq<Feature>, s: State, out: seq<Feature>, maxDepth: nat, deepest: seq<string>, chain: seq<nat>)
    requires fs != [] && Sound(fs, EdgeSet(fs), s) && s.ready == [] && Lists(fs, s.out, out) && |s.out| == |fs|
    requires Bounds(s.out, s.depth, maxDepth) && Deepest(fs, EdgeSet(fs), maxDepth, deepest, chain)
    ensures Acyclic(EdgeSet(fs)) && IsInstallOrder(fs, s.out, out)
    ensures IsLongestChain(EdgeSet(fs), maxDepth) && (maxDepth > 0 ==> ReadsChain(fs, maxDepth, deepest))
  {
    FullListing(EdgeSet(fs), |fs|, s);
    LongestFound(EdgeSet(fs), |fs|, s, maxDepth, chain);
  }

  lemma StuckReport(fs: seq<Feature>, list: seq<(nat, nat)>, s: State, inDegree: seq<nat>)
    requires Sound(fs, EdgeSet(fs), s) && s.ready == [] && |s.out| < |fs| && Elements(list) == EdgeSet(fs)
    requires |inDegree| == |fs| && Counts(list, Elements(s.out), inDegree)
    ensures CyclePath.Stuck(EdgeSet(fs), CyclePath.Remaining(inDegree))
  {
    var edges := EdgeSet(fs);
    var remaining := CyclePath.Remaining(inDegree);
    var j0 := StuckListing(edges, |fs|, s);
    forall j: nat ensures j in remaining <==> j < |fs| && j !in s.out {
      CountPositive(list, j, Elements(s.out));
      assert j in s.out <==> j < |fs| && Unblocked(edges, Elements(s.out), j);
    }
    assert j0 in remaining;
    forall j | j in remaining ensures CyclePath.Waits(edges, remaining, j) {
      var a := Blocker(edges, |fs|, s, j);
      assert a in remaining;
    }
  }

  /** The references along a cycle of positions. */
  function CycleRefs(fs: seq<Feature>, path: seq<nat>, ghost edges: set<(nat, nat)>): (r: seq<string>)
    requires edges == EdgeSet(fs) && |path| >= 2 && IsSimpleCycle(edges, path[..|path| - 1]) && path[|path| - 1] == path[|path| - 2]
    ensures ReadsCycle(fs, r)
  {
    var c := path[..|path| - 1];
    CycleInRange(fs, c);
    Refs(fs, c) + [fs[path[|path| - 1]].ref]
  }

  lemma CycleInRange(fs: seq<Feature>, c: seq<nat>)
    requires IsSimpleCycle(EdgeSet(fs), c)
    ensures InRange(c, |fs|)
  {
    forall k | 0 <= k < |c| ensures c[k] < |fs| {
      if k < |c| - 1 { assert (c[k], c[k + 1]) in EdgeSet(fs); }
    }
  }

  /** topoSort: for two or more features, exactly one of an order, a cycle or a too-deep chain. */
  method TopoSort(fs: seq<Feature>, text: Options -> string) returns (r: Outcome, ghost order: seq<nat>)
    ensures |fs| <= 1 ==> r == Sorted(fs, None)
    ensures |fs| >= 2 ==> Reports(fs, r)
    ensures |fs| >= 2 && r.Sorted? ==> IsListing(fs, text, order) && Lists(fs, order, r.out)
  {
    order := [];
    if |fs| <= 1 { return Sorted(fs, None), order; }
    var adj, inDegree0, list := BuildGraph(fs);
    ghost var edges := EdgeSet(fs);
    assert edges == Elements(list);
    var out, inDegree, maxDepth, deepest, chain, run, s := RunQueue(fs, text, adj, inDegree0, list, edges);
    order := s.out;
    if |out| < |fs| {
      StuckReport(fs, list, s, inDegree);
      AdjacencyIs(fs, list, adj, inDegree0, edges);
      var path := CyclePath.CycleOf(adj, inDegree, edges);
      r := Cyclic(CycleRefs(fs, path, edges));
      CycleRefutesAcyclic(edges, path[..|path| - 1]);
    } else {
      FullReport(fs, s, out, maxDepth, deepest, chain);
      if maxDepth >= DAG_ERROR_DEPTH {
        r := TooDeep(maxDepth, deepest);
      } else {
        r := Sorted(out, if maxDepth >= DAG_WARN_DEPTH then Some((maxDepth, deepest)) else None);
      }
    }
  }
}
