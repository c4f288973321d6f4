/**
  topoSort depends on the set of features only: relabelling the input by any
  permutation relabels every edge, every sort and so every turn of the queue.
  Map iteration order never shows, because runs are described by edge sets.
  (feature/graph.go:51-135, 190-199)
 */
module Determinism {
  import opened Prelude
  import opened Ordering
  import opened Graphs
  import opened FeatureModel
  import opened FeatureGraph
  import opened Kahn
  import opened TopoSort

  /** What topoSort promises of its outcome. */
  ghost predicate Produces(fs: seq<Feature>, text: Options -> string, r: Outcome) {
    if |fs| <= 1 then r == Sorted(fs, None)
    else Reports(fs, r) && (r.Sorted? ==> exists order :: IsListing(fs, text, order) && Lists(fs, order, r.out))
  }

  ghost predicate DistinctKeys(fs: seq<Feature>) {
    forall i, j :: 0 <= i < j < |fs| ==> fs[i].ref != fs[j].ref || fs[i].unset != fs[j].unset || (!fs[i].unset && fs[i].options != fs[j].options)
  }

  /** The JSON of option maps: one text each, and none reads null. */
  ghost predicate Injective(text: Options -> string) {
    (forall a, b :: text(a) == text(b) ==> a == b) && forall a :: text(a) != "null"
  }

  /** p sends each position of fs to the position of the same feature in gs. */
  ghost predicate Relabels(fs: seq<Feature>, gs: seq<Feature>, p: seq<nat>) {
    && |p| == |fs| == |gs| && NoDup(p) && InRange(p, |gs|)
    && (forall i :: 0 <= i < |fs| ==> gs[p[i]] == fs[i])
    && (forall k: nat :: k < |gs| ==> k in p)
  }

  function Apply(p: seq<nat>, s: seq<nat>): (r: seq<nat>)
    requires InRange(s, |p|)
    ensures |r| == |s| && forall k :: 0 <= k < |s| ==> r[k] == p[s[k]]
  {
    seq(|s|, k requires 0 <= k < |s| => p[s[k]])
  }

  // ---- a permutation of distinct features is a relabelling ----

  function Position(gs: seq<Feature>, f: Feature): (k: nat)
    requires f in gs
    ensures k < |gs| && gs[k] == f
  {
    if gs[0] == f then 0 else 1 + Position(gs[1..], f)
  }

  lemma Relabelling(fs: seq<Feature>, gs: seq<Feature>) returns (p: seq<nat>)
    requires DistinctKeys(fs) && multiset(fs) == multiset(gs)
    ensures Relabels(fs, gs, p)
  {
    assert NoDup(fs);
    PermutedNoDup(fs, gs);
    assert |fs| == |multiset(fs)| == |multiset(gs)| == |gs|;
    p := seq(|fs|, i requires 0 <= i < |fs| => assert fs[i] in fs; Position(gs, fs[i]));
    forall k: nat | k < |gs| ensures k in p {
      assert gs[k] in gs;
      var i :| 0 <= i < |fs| && fs[i] == gs[k];
      assert p[i] == k;
    }
  }

  // ---- edges and order are relabelled ----

  lemma EntryMoves(fs: seq<Feature>, gs: seq<Feature>, p: seq<nat>, j: nat, key: string, opts: Options)
    requires Relabels(fs, gs, p) && j < |fs|
    ensures DependencyEntry(fs, j, key, opts) == DependencyEntry(gs, p[j], key, opts)
  {
    if k :| 0 <= k < |gs| && Named(gs[k], key) && SameOptions(gs[k], opts) {
      assert k in p;
      var i :| 0 <= i < |p| && p[i] == k;
      assert fs[i] == gs[k];
    }
    if i :| 0 <= i < |fs| && Named(fs[i], key) && SameOptions(fs[i], opts) {
      assert gs[p[i]] == fs[i];
    }
  }

  lemma EdgeMoves(fs: seq<Feature>, gs: seq<Feature>, p: seq<nat>, j: nat, i: nat)
    requires Relabels(fs, gs, p) && j < |fs| && i < |fs|
    ensures HasEdge(fs, j, i) == HasEdge(gs, p[j], p[i])
  {
    assert fs[i] == gs[p[i]] && fs[j] == gs[p[j]];
    var deps := fs[i].metadata.Dependencies();
    forall key | key in deps { EntryMoves(fs, gs, p, j, key, deps[key]); }
  }

  /** Relabelled graphs: what the run simulation needs of the two inputs. */
  ghost predicate Mirrors(e: set<(nat, nat)>, f: set<(nat, nat)>, n: nat, p: seq<nat>) {
    && |p| == n && NoDup(p) && InRange(p, n) && (forall k: nat :: k < n ==> k in p)
    && WellFormed(e, n) && WellFormed(f, n)
    && forall j, i :: 0 <= j < n && 0 <= i < n ==> ((j, i) in e <==> (p[j], p[i]) in f)
  }

  ghost predicate SameLess(less: (nat, nat) -> bool, less': (nat, nat) -> bool, n: nat, p: seq<nat>) {
    |p| == n && forall a, b :: 0 <= a < n && 0 <= b < n ==> less(a, b) == less'(p[a], p[b])
  }

  lemma GraphMoves(fs: seq<Feature>, gs: seq<Feature>, p: seq<nat>, text: Options -> string)
    requires Relabels(fs, gs, p)
    ensures Mirrors(EdgeSet(fs), EdgeSet(gs), |fs|, p)
    ensures SameLess(IndexLess(fs, text), IndexLess(gs, text), |fs|, p)
  {
    forall j, i | 0 <= j < |fs| && 0 <= i < |fs| ensures (j, i) in EdgeSet(fs) <==> (p[j], p[i]) in EdgeSet(gs) {
      EdgeMoves(fs, gs, p, j, i);
    }
  }

  lemma TotalOrder(gs: seq<Feature>, text: Options -> string)
    requires DistinctKeys(gs) && Injective(text)
    ensures StrictTotal(IndexLess(gs, text), Below(|gs|))
  {
    var less := IndexLess(gs, text);
    forall x, y | x in Below(|gs|) && y in Below(|gs|)
      ensures less(x, y) ==> !less(y, x)
      ensures x != y ==> less(x, y) || less(y, x)
    {
      if less(x, y) { FeatureLessWeak(gs[x], gs[y], gs[x], text); }
      LessTotal(gs[x].ref, gs[y].ref);
      LessTotal(OptionsText(gs[x], text), OptionsText(gs[y], text));
    }
  }

  // ---- runs are relabelled ----

  lemma ImageIn(p: seq<nat>, s: seq<nat>, x: nat)
    requires NoDup(p) && InRange(s, |p|) && x < |p|
    ensures x in s <==> p[x] in Apply(p, s)
  {
    var t := Apply(p, s);
    if x in s { var k :| 0 <= k < |s| && s[k] == x; assert t[k] == p[x]; }
    if p[x] in t { var k :| 0 <= k < |t| && t[k] == p[x]; assert s[k] == x; }
  }

  lemma UnblockedMoves(e: set<(nat, nat)>, f: set<(nat, nat)>, n: nat, p: seq<nat>, out: seq<nat>, j: nat)
    requires Mirrors(e, f, n, p) && InRange(out, n) && j < n
    ensures Unblocked(e, Elements(out), j) <==> Unblocked(f, Elements(Apply(p, out)), p[j])
  {
    if Unblocked(e, Elements(out), j) {
      forall b | (b, p[j]) in f ensures b in Apply(p, out) {
        assert b in p;
        var a :| 0 <= a < |p| && p[a] == b;
        ImageIn(p, out, a);
        assert (a, j) in e;
      }
    }
    if Unblocked(f, Elements(Apply(p, out)), p[j]) {
      forall a | (a, j) in e ensures a in out {
        ImageIn(p, out, a);
        assert (p[a], p[j]) in f;
      }
    }
  }

  lemma ReleasedMoves(e: set<(nat, nat)>, f: set<(nat, nat)>, n: nat, p: seq<nat>, out: seq<nat>, i: nat, j: nat)
    requires Mirrors(e, f, n, p) && InRange(out, n) && i < n && j < n
    ensures j in Released(e, n, Elements(out), i) <==> p[j] in Released(f, n, Elements(Apply(p, out)), p[i])
  {
    assert Elements(out + [i]) == Elements(out) + {i};
    assert Apply(p, out + [i]) == Apply(p, out) + [p[i]];
    assert Elements(Apply(p, out) + [p[i]]) == Elements(Apply(p, out)) + {p[i]};
    UnblockedMoves(e, f, n, p, out + [i], j);
  }

  lemma SortedMoves(less: (nat, nat) -> bool, less': (nat, nat) -> bool, n: nat, p: seq<nat>, s: seq<nat>)
    requires SameLess(less, less', n, p) && NoDup(p) && InRange(s, n) && NoDup(s) && SortedBy(less, s)
    ensures NoDup(Apply(p, s)) && SortedBy(less', Apply(p, s))
  {
    var t := Apply(p, s);
    forall i, j | 0 <= i < j < |t| ensures t[i] != t[j] && !less'(t[j], t[i]) {
      assert t[i] == p[s[i]] && t[j] == p[s[j]];
      assert less(s[j], s[i]) == less'(p[s[j]], p[s[i]]);
    }
  }

  /** Two sorted lists of corresponding elements correspond. */
  lemma BatchMoves(less: (nat, nat) -> bool, less': (nat, nat) -> bool, n: nat, p: seq<nat>, s: seq<nat>, t: seq<nat>)
    requires SameLess(less, less', n, p) && NoDup(p) && InRange(p, n) && (forall k: nat :: k < n ==> k in p)
    requires StrictTotal(less', Below(n))
    requires InRange(s, n) && NoDup(s) && SortedBy(less, s) && InRange(t, n) && NoDup(t) && SortedBy(less', t)
    requires forall j: nat :: j < n ==> (j in s <==> p[j] in t)
    ensures t == Apply(p, s)
  {
    SortedMoves(less, less', n, p, s);
    var s' := Apply(p, s);
    forall b ensures b in t <==> b in s' {
      if b in t || b in s' {
        assert b < n;
        assert b in p;
        var a :| 0 <= a < |p| && p[a] == b;
        ImageIn(p, s, a);
      }
    }
    assert Elements(t) == Elements(s');
    SortUnique(less', t, s');
  }

  ghost predicate Related(s: State, t: State, n: nat, p: seq<nat>) {
    |p| == n && InRange(s.out, n) && InRange(s.ready, n) && t.out == Apply(p, s.out) && t.ready == Apply(p, s.ready)
  }

  /** The two graphs, orders and relabelling of one simulation. */
  ghost predicate Setting(e: set<(nat, nat)>, f: set<(nat, nat)>, less: (nat, nat) -> bool, less': (nat, nat) -> bool, n: nat, p: seq<nat>) {
    Mirrors(e, f, n, p) && SameLess(less, less', n, p) && StrictTotal(less', Below(n))
  }

  lemma InitRelated(e: set<(nat, nat)>, f: set<(nat, nat)>, less: (nat, nat) -> bool, less': (nat, nat) -> bool, n: nat, p: seq<nat>, s: State, t: State)
    requires Setting(e, f, less, less', n, p) && IsInit(e, n, less, s) && IsInit(f, n, less', t)
    ensures Related(s, t, n, p)
  {
    assert Elements<nat>([]) == {};
    assert Apply(p, []) == [];
    forall j: nat | j < n ensures j in s.ready <==> p[j] in t.ready { UnblockedMoves(e, f, n, p, [], j); }
    assert forall k :: 0 <= k < |s.ready| ==> s.ready[k] in s.ready;
    assert forall k :: 0 <= k < |t.ready| ==> t.ready[k] in t.ready;
    BatchMoves(less, less', n, p, s.ready, t.ready);
  }

  lemma StepRelated(e: set<(nat, nat)>, f: set<(nat, nat)>, less: (nat, nat) -> bool, less': (nat, nat) -> bool, n: nat, p: seq<nat>,
                    s: State, t: State, s': State, t': State)
    requires Setting(e, f, less, less', n, p) && Related(s, t, n, p)
    requires IsStep(e, n, less, s, s') && IsStep(f, n, less', t, t')
    ensures Related(s', t', n, p)
  {
    var b, b' := s'.ready[|s.ready| - 1..], t'.ready[|t.ready| - 1..];
    BatchRelated(e, f, less, less', n, p, s.out, s.ready[0], b, b');
    QueueMoves(p, s, t, b, s', t');
  }

  lemma QueueMoves(p: seq<nat>, s: State, t: State, b: seq<nat>, s': State, t': State)
    requires Related(s, t, |p|, p) && s.ready != [] && InRange(b, |p|)
    requires s'.out == s.out + [s.ready[0]] && t'.out == t.out + [t.ready[0]]
    requires s.ready[1..] <= s'.ready && s'.ready[|s.ready| - 1..] == b
    requires t.ready[1..] <= t'.ready && t'.ready[|t.ready| - 1..] == Apply(p, b)
    ensures Related(s', t', |p|, p)
  {
    assert s'.ready == s.ready[1..] + b;
    assert t'.ready == t.ready[1..] + Apply(p, b);
  }

  lemma BatchRelated(e: set<(nat, nat)>, f: set<(nat, nat)>, less: (nat, nat) -> bool, less': (nat, nat) -> bool, n: nat, p: seq<nat>,
                     out: seq<nat>, i: nat, b: seq<nat>, b': seq<nat>)
    requires Setting(e, f, less, less', n, p) && InRange(out, n) && i < n
    requires NoDup(b) && SortedBy(less, b) && Elements(b) == Released(e, n, Elements(out), i)
    requires NoDup(b') && SortedBy(less', b') && Elements(b') == Released(f, n, Elements(Apply(p, out)), p[i])
    ensures InRange(b, n) && b' == Apply(p, b)
  {
    forall j: nat | j < n ensures j in b <==> p[j] in b' {
      ReleasedMoves(e, f, n, p, out, i, j);
      assert j in b <==> j in Elements(b);
      assert p[j] in b' <==> p[j] in Elements(b');
    }
    ReleasedInRange(e, n, Elements(out), i, b);
    ReleasedInRange(f, n, Elements(Apply(p, out)), p[i], b');
    BatchMoves(less, less', n, p, b, b');
  }

  lemma ReleasedInRange(e: set<(nat, nat)>, n: nat, done: set<nat>, i: nat, b: seq<nat>)
    requires Elements(b) == Released(e, n, done, i)
    ensures InRange(b, n)
  {
    forall k | 0 <= k < |b| ensures b[k] < n { assert b[k] in Elements(b); }
  }

  /** A relation that holds at the start and across paired steps holds all along two runs. */
  lemma {:induction false} Lockstep(related: (State, State) -> bool, e: set<(nat, nat)>, f: set<(nat, nat)>, less: (nat, nat) -> bool, less': (nat, nat) -> bool,
                    n: nat, run: seq<State>, run': seq<State>, k: nat)
    requires IsRun(e, n, less, run) && IsRun(f, n, less', run') && k < |run| && k < |run'| && related(run[0], run'[0])
    requires forall s, t, s', t' :: related(s, t) && IsStep(e, n, less, s, s') && IsStep(f, n, less', t, t') ==> related(s', t')
    ensures related(run[k], run'[k])
  {
    if k > 0 {
      Lockstep(related, e, f, less, less', n, run, run', k - 1);
      assert StepAt(e, n, less, run, k) && StepAt(f, n, less', run', k);
    }
  }

  lemma RunsRelated(e: set<(nat, nat)>, f: set<(nat, nat)>, less: (nat, nat) -> bool, less': (nat, nat) -> bool, n: nat, p: seq<nat>,
                    run: seq<State>, run': seq<State>, k: nat)
    requires Setting(e, f, less, less', n, p) && IsRun(e, n, less, run) && IsRun(f, n, less', run') && k < |run| && k < |run'|
    ensures Related(run[k], run'[k], n, p)
  {
    var related := (s: State, t: State) => Related(s, t, n, p);
    InitRelated(e, f, less, less', n, p, run[0], run'[0]);
    forall s, t, s', t' | related(s, t) && IsStep(e, n, less, s, s') && IsStep(f, n, less', t, t') ensures related(s', t') {
      StepRelated(e, f, less, less', n, p, s, t, s', t');
    }
    Lockstep(related, e, f, less, less', n, run, run', k);
  }

  lemma ReadyBeforeEnd(e: set<(nat, nat)>, n: nat, less: (nat, nat) -> bool, run: seq<State>, k: nat)
    requires IsRun(e, n, less, run) && k < |run|
    ensures k < |run| - 1 ==> run[k].ready != []
  {
    if k < |run| - 1 { assert StepAt(e, n, less, run, k + 1); }
  }

  /** Exhausted runs over relabelled inputs list corresponding entries. */
  lemma RunsAgree(e: set<(nat, nat)>, f: set<(nat, nat)>, less: (nat, nat) -> bool, less': (nat, nat) -> bool, n: nat, p: seq<nat>,
                  run: seq<State>, run': seq<State>)
    requires Setting(e, f, less, less', n, p) && IsRun(e, n, less, run) && IsRun(f, n, less', run')
    requires run[|run| - 1].ready == [] && run'[|run'| - 1].ready == []
    ensures Related(run[|run| - 1], run'[|run'| - 1], n, p)
  {
    var k := if |run| <= |run'| then |run| - 1 else |run'| - 1;
    RunsRelated(e, f, less, less', n, p, run, run', k);
    ReadyBeforeEnd(e, n, less, run, k);
    ReadyBeforeEnd(f, n, less', run', k);
  }

  lemma ListingsAgree(fs: seq<Feature>, gs: seq<Feature>, text: Options -> string, p: seq<nat>,
                      order: seq<nat>, order': seq<nat>, out: seq<Feature>, out': seq<Feature>)
    requires Relabels(fs, gs, p) && DistinctKeys(gs) && Injective(text)
    requires IsListing(fs, text, order) && Lists(fs, order, out) && IsListing(gs, text, order') && Lists(gs, order', out')
    ensures out == out'
  {
    GraphMoves(fs, gs, p, text);
    TotalOrder(gs, text);
    var e, f, less, less' := EdgeSet(fs), EdgeSet(gs), IndexLess(fs, text), IndexLess(gs, text);
    var run: seq<State> :| IsRun(e, |fs|, less, run) && run[|run| - 1].ready == [] && run[|run| - 1].out == order;
    var run': seq<State> :| IsRun(f, |gs|, less', run') && run'[|run'| - 1].ready == [] && run'[|run'| - 1].out == order';
    RunsAgree(e, f, less, less', |fs|, p, run, run');
  }
}
