/**
  Order: features named by overrideFeatureInstallOrder lead, the rest are
  topologically sorted. (feature/order.go)
 */
module FeatureOrder {
  import opened Prelude
  import opened Graphs
  import opened FeatureModel
  import opened FeatureGraph
  import opened Kahn
  import opened TopoSort
  import opened Determinism
  import Overrides

  // ---- outcomes agree across permutations ----

  lemma PullBack(e: set<(nat, nat)>, f: set<(nat, nat)>, n: nat, p: seq<nat>, q: seq<nat>) returns (r: seq<nat>)
    requires Mirrors(e, f, n, p) && IsPath(f, q) && |q| >= 2
    ensures IsPath(e, r) && InRange(r, n) && Apply(p, r) == q
  {
    forall k | 0 <= k < |q| ensures q[k] in p {
      if k < |q| - 1 { assert (q[k], q[k + 1]) in f; } else { assert (q[k - 1], q[k]) in f; }
    }
    r := seq(|q|, k requires 0 <= k < |q| => IndexOf(p, q[k]));
    forall k | 0 <= k < |r| - 1 ensures (r[k], r[k + 1]) in e {
      assert (q[k], q[k + 1]) in f && q[k] == p[r[k]] && q[k + 1] == p[r[k + 1]];
    }
  }

  function IndexOf(p: seq<nat>, x: nat): (i: nat)
    requires x in p
    ensures i < |p| && p[i] == x
  {
    if p[0] == x then 0 else 1 + IndexOf(p[1..], x)
  }

  lemma AcyclicMoves(e: set<(nat, nat)>, f: set<(nat, nat)>, n: nat, p: seq<nat>)
    requires Mirrors(e, f, n, p) && Acyclic(e)
    ensures Acyclic(f)
  {
    forall q | IsPath(f, q) && |q| >= 2 ensures q[0] != q[|q| - 1] {
      var r := PullBack(e, f, n, p, q);
    }
  }

  lemma LongestBound(e: set<(nat, nat)>, f: set<(nat, nat)>, n: nat, p: seq<nat>, d: nat, d': nat)
    requires Mirrors(e, f, n, p) && IsLongestChain(e, d) && IsLongestChain(f, d')
    ensures d' <= d
  {
    var q :| IsPath(f, q) && |q| - 1 == d';
    if |q| >= 2 { var r := PullBack(e, f, n, p, q); }
  }

  lemma DistinctPermuted(fs: seq<Feature>, gs: seq<Feature>)
    requires DistinctKeys(fs) && multiset(fs) == multiset(gs)
    ensures DistinctKeys(gs)
  {
    var p := Relabelling(fs, gs);
    forall i, j | 0 <= i < j < |gs| ensures gs[i].ref != gs[j].ref || gs[i].unset != gs[j].unset || (!gs[i].unset && gs[i].options != gs[j].options) {
      assert i in p && j in p;
      var a, b := IndexOf(p, i), IndexOf(p, j);
      assert gs[p[a]] == fs[a] && gs[p[b]] == fs[b];
    }
  }

  ghost predicate Alike(r: Outcome, r': Outcome) {
    && (r.Sorted? <==> r'.Sorted?) && (r.Cyclic? <==> r'.Cyclic?)
    && (r.Sorted? ==> r.out == r'.out) && (r.TooDeep? ==> r.depth == r'.depth) && (r.Sorted? ==> WarnedDepth(r) == WarnedDepth(r'))
  }

  /** The depth a successful sort warns about. */
  function WarnedDepth(r: Outcome): Option<nat>
    requires r.Sorted?
  {
    if r.warning.Some? then Some(r.warning.value.0) else None
  }

  ghost predicate ChainOf(r: Outcome, fs: seq<Feature>, d: nat) {
    && IsLongestChain(EdgeSet(fs), d) && !r.Cyclic? && (r.TooDeep? <==> d >= DAG_ERROR_DEPTH) && (r.TooDeep? ==> d == r.depth)
    && (r.Sorted? ==> WarnedDepth(r) == if d < DAG_WARN_DEPTH then None else Some(d))
  }

  ghost function LongestChain(r: Outcome, fs: seq<Feature>): (d: nat)
    requires Reports(fs, r) && !r.Cyclic?
    ensures ChainOf(r, fs, d)
  {
    HasChain(r, fs);
    var d: nat :| ChainOf(r, fs, d); d
  }

  lemma HasChain(r: Outcome, fs: seq<Feature>)
    requires Reports(fs, r) && !r.Cyclic?
    ensures exists d: nat :: ChainOf(r, fs, d)
  {
    if r.TooDeep? {
      assert ChainOf(r, fs, r.depth);
    } else {
      var d: nat :| IsLongestChain(EdgeSet(fs), d) && d < DAG_ERROR_DEPTH &&
        if d < DAG_WARN_DEPTH then r.warning == None else r.warning.Some? && r.warning.value.0 == d && ReadsChain(fs, d, r.warning.value.1);
      assert ChainOf(r, fs, d);
    }
  }

  lemma FailuresAgree(fs: seq<Feature>, gs: seq<Feature>, p: seq<nat>, r: Outcome, r': Outcome)
    requires Mirrors(EdgeSet(fs), EdgeSet(gs), |fs|, p) && |fs| == |gs| >= 2
    requires Reports(fs, r) && Reports(gs, r')
    ensures !r.Cyclic? ==> !r'.Cyclic? && LongestChain(r', gs) <= LongestChain(r, fs)
  {
    if !r.Cyclic? {
      AcyclicMoves(EdgeSet(fs), EdgeSet(gs), |fs|, p);
      LongestBound(EdgeSet(fs), EdgeSet(gs), |fs|, p, LongestChain(r, fs), LongestChain(r', gs));
    }
  }

  lemma OutcomesAgree(fs: seq<Feature>, gs: seq<Feature>, text: Options -> string, r: Outcome, r': Outcome)
    requires |fs| == |gs| >= 2 && DistinctKeys(fs) && DistinctKeys(gs) && multiset(fs) == multiset(gs)
    requires Reports(fs, r) && Reports(gs, r')
    ensures (r.Cyclic? <==> r'.Cyclic?) && (r.TooDeep? <==> r'.TooDeep?) && (r.TooDeep? ==> r.depth == r'.depth)
    ensures r.Sorted? ==> WarnedDepth(r) == WarnedDepth(r')
  {
    OneWay(fs, gs, text, r, r');
    OneWay(gs, fs, text, r', r);
  }

  lemma OneWay(fs: seq<Feature>, gs: seq<Feature>, text: Options -> string, r: Outcome, r': Outcome)
    requires |fs| == |gs| >= 2 && DistinctKeys(fs) && multiset(fs) == multiset(gs) && Reports(fs, r) && Reports(gs, r')
    ensures !r.Cyclic? ==> !r'.Cyclic? && LongestChain(r', gs) <= LongestChain(r, fs)
  {
    var p := Relabelling(fs, gs);
    GraphMoves(fs, gs, p, text);
    FailuresAgree(fs, gs, p, r, r');
  }

  /** topoSort answers the same for every permutation of distinct features: the same slice, or the same kind of failure. */
  lemma SortDeterministic(fs: seq<Feature>, gs: seq<Feature>, text: Options -> string, r: Outcome, r': Outcome)
    requires DistinctKeys(fs) && Injective(text) && multiset(fs) == multiset(gs)
    requires Produces(fs, text, r) && Produces(gs, text, r')
    ensures Alike(r, r')
  {
    assert |fs| == |multiset(fs)| == |multiset(gs)| == |gs|;
    if |fs| <= 1 {
      Singleton(fs, gs);
    } else {
      DistinctPermuted(fs, gs);
      OutcomesAgree(fs, gs, text, r, r');
      if r.Sorted? {
        var p := Relabelling(fs, gs);
        var order :| IsListing(fs, text, order) && Lists(fs, order, r.out);
        var order' :| IsListing(gs, text, order') && Lists(gs, order', r'.out);
        ListingsAgree(fs, gs, text, p, order, order', r.out, r'.out);
      }
    }
  }

  lemma Singleton(fs: seq<Feature>, gs: seq<Feature>)
    requires |fs| == |gs| <= 1 && multiset(fs) == multiset(gs)
    ensures fs == gs
  {
    if |fs| == 1 { assert fs[0] in multiset(gs); }
  }

  // ---- splitByOverride ----

  const IdOf: Feature -> string := (f: Feature) => NormalizeID(f.ref)

  function Ids(ov: seq<string>): seq<string> {
    seq(|ov|, k requires 0 <= k < |ov| => NormalizeID(ov[k]))
  }

  /** The features each override entry names, in list order; an id counts at its first entry only. */
  function Picked(fs: seq<Feature>, ov: seq<string>): seq<Feature> {
    Overrides.Picked(fs, IdOf, Ids(ov))
  }

  /** The features no override entry names, in list order. */
  function Unpicked(fs: seq<Feature>, ov: seq<string>): seq<Feature> {
    Overrides.Unpicked(fs, IdOf, Ids(ov))
  }

  method SplitByOverride(fs: seq<Feature>, ov: seq<string>) returns (overridden: seq<Feature>, remaining: seq<Feature>)
    ensures overridden == Picked(fs, ov) && remaining == Unpicked(fs, ov)
  {
    overridden, remaining := Overrides.Split(fs, IdOf, Ids(ov));
  }

  // ---- Order ----

  function Prefixed(head: seq<Feature>, r: Outcome): Outcome {
    if r.Sorted? then Sorted(head + r.out, r.warning) else r
  }

  /** What Order promises of its outcome. */
  ghost predicate Orders(fs: seq<Feature>, text: Options -> string, ov: seq<string>, r: Outcome) {
    exists tail :: Produces(Unpicked(fs, ov), text, tail) && r == Prefixed(Picked(fs, ov), tail)
  }

  method Order(fs: seq<Feature>, text: Options -> string, ov: seq<string>) returns (r: Outcome)
    ensures Orders(fs, text, ov, r)
  {
    var overridden, remaining := SplitByOverride(fs, ov);
    var tail, order := TopoSort.TopoSort(remaining, text);
    assert Produces(remaining, text, tail);
    r := Prefixed(overridden, tail);
  }

  /** Without overrides, Order is a function of the set of features. */
  lemma OrderDeterministic(fs: seq<Feature>, gs: seq<Feature>, text: Options -> string, r: Outcome, r': Outcome)
    requires DistinctKeys(fs) && Injective(text) && multiset(fs) == multiset(gs)
    requires Orders(fs, text, [], r) && Orders(gs, text, [], r')
    ensures Alike(r, r')
  {
    Overrides.NothingPicked(fs, IdOf);
    Overrides.NothingPicked(gs, IdOf);
    assert Ids([]) == [];
    var t :| Produces(Unpicked(fs, []), text, t) && r == Prefixed([], t);
    var t' :| Produces(Unpicked(gs, []), text, t') && r' == Prefixed([], t');
    PrefixedNone(t);
    PrefixedNone(t');
    SortDeterministic(fs, gs, text, t, t');
  }

  lemma PrefixedNone(r: Outcome)
    ensures Prefixed([], r) == r
  {
    if r.Sorted? { assert [] + r.out == r.out; }
  }

  lemma DistinctUnpicked(fs: seq<Feature>, ov: seq<string>)
    requires DistinctKeys(fs)
    ensures DistinctKeys(Unpicked(fs, ov))
  {
    var at := Overrides.UnpickedIndices(fs, IdOf, Ids(ov));
  }

  /** out reads s at each of its positions once, in the given order. */
  ghost predicate Reads<T>(s: seq<T>, order: seq<nat>, out: seq<T>) {
    && NoDup(order) && |out| == |order| && (forall i: nat :: i in order <==> i < |s|)
    && forall k :: 0 <= k < |order| ==> order[k] < |s| && out[k] == s[order[k]]
  }

  lemma ReadsRest<T>(s: seq<T>, order: seq<nat>, out: seq<T>, k: nat)
    requires s != [] && Reads(s, order, out) && k < |order| && order[k] == |s| - 1
    ensures Reads(s[..|s| - 1], order[..k] + order[k + 1..], out[..k] + out[k + 1..])
  {
    var n, rest := |s| - 1, order[..k] + order[k + 1..];
    forall i: nat ensures i in rest <==> i < n { RemovedAt(order, k, i); }
    forall j | 0 <= j < |rest| ensures rest[j] < n { assert rest[j] in rest; }
    forall i, j | 0 <= i < j < |rest| ensures rest[i] != rest[j] {
      assert rest[i] == order[if i < k then i else i + 1] && rest[j] == order[if j < k then j else j + 1];
    }
  }

  /** So it permutes it. */
  lemma {:induction false} ReadOnce<T>(s: seq<T>, order: seq<nat>, out: seq<T>)
    requires Reads(s, order, out)
    ensures multiset(out) == multiset(s)
  {
    assert order != [] ==> order[0] in order;
    if s != [] {
      var n := |s| - 1;
      assert n in order;
      var k: nat :| k < |order| && order[k] == n;
      ReadsRest(s, order, out, k);
      ReadOnce(s[..n], order[..k] + order[k + 1..], out[..k] + out[k + 1..]);
      PulledOut(out, k, s);
    }
  }

  lemma PulledOut<T>(out: seq<T>, k: nat, s: seq<T>)
    requires k < |out| && s != [] && s[|s| - 1] == out[k] && multiset(out[..k] + out[k + 1..]) == multiset(s[..|s| - 1])
    ensures multiset(out) == multiset(s)
  {
    assert out == out[..k] + [out[k]] + out[k + 1..] && s == s[..|s| - 1] + [out[k]];
  }

  lemma RemovedAt(s: seq<nat>, k: nat, x: nat)
    requires NoDup(s) && k < |s|
    ensures x in s[..k] + s[k + 1..] <==> x in s && x != s[k]
  {
    var rest := s[..k] + s[k + 1..];
    if j :| 0 <= j < |s| && s[j] == x && x != s[k] { assert rest[if j < k then j else j - 1] == x; }
    if j :| 0 <= j < |rest| && rest[j] == x { assert s[if j < k then j else j + 1] == x; }
  }

  lemma InstallReads(fs: seq<Feature>, order: seq<nat>, out: seq<Feature>)
    requires NoDup(order) && Elements(order) == Below(|fs|) && Lists(fs, order, out)
    ensures Reads(fs, order, out)
  {
    forall i: nat ensures i in order <==> i < |fs| { assert i in order <==> i in Elements(order); }
  }

  /** A successful sort returns the features it was given, as often as it was given them. */
  lemma SortedPermutes(fs: seq<Feature>, text: Options -> string, r: Outcome)
    requires Produces(fs, text, r) && r.Sorted?
    ensures multiset(r.out) == multiset(fs)
  {
    if |fs| >= 2 {
      var order :| IsInstallOrder(fs, order, r.out);
      InstallReads(fs, order, r.out);
      ReadOnce(fs, order, r.out);
    }
  }

  /** A successful Order permutes its input. */
  lemma OrderPermutes(fs: seq<Feature>, text: Options -> string, ov: seq<string>, r: Outcome)
    requires Orders(fs, text, ov, r) && r.Sorted?
    ensures multiset(r.out) == multiset(fs)
  {
    var t :| Produces(Unpicked(fs, ov), text, t) && r == Prefixed(Picked(fs, ov), t);
    SortedPermutes(Unpicked(fs, ov), text, t);
    Overrides.SplitPermutes(fs, IdOf, Ids(ov));
  }

  /** The k-th override entry names the feature: both have one id. */
  ghost predicate NamedAt(ov: seq<string>, k: nat, f: Feature) {
    k < |ov| && NormalizeID(ov[k]) == NormalizeID(f.ref)
  }

  ghost predicate IsNamed(ov: seq<string>, f: Feature) {
    exists k: nat :: NamedAt(ov, k, f)
  }

  lemma NamedIs(ov: seq<string>, f: Feature)
    ensures IsNamed(ov, f) <==> IdOf(f) in Ids(ov)
  {
    if k: nat :| NamedAt(ov, k, f) { assert Ids(ov)[k] == IdOf(f); }
    if IdOf(f) in Ids(ov) {
      var k :| 0 <= k < |Ids(ov)| && Ids(ov)[k] == IdOf(f);
      assert NamedAt(ov, k, f);
    }
  }

  /** Some entry names f before any names g, or both at once. */
  ghost predicate NamedNoLater(ov: seq<string>, f: Feature, g: Feature) {
    exists k: nat :: NamedAt(ov, k, f) && forall j: nat :: NamedAt(ov, j, g) ==> k <= j
  }

  /** a stands at a place of ids, and b at none before. */
  lemma NotBefore(ids: seq<string>, a: string, b: string) returns (k: nat)
    requires Overrides.NoLater(ids, a, b)
    ensures k < |ids| && ids[k] == a && forall j :: 0 <= j < k ==> ids[j] != b
  {
    k :| 0 <= k < |ids| && ids[k] == a && b !in ids[..k];
    forall j | 0 <= j < k ensures ids[j] != b { assert ids[..k][j] in ids[..k]; }
  }

  lemma NoLaterNamed(ov: seq<string>, f: Feature, g: Feature)
    requires Overrides.NoLater(Ids(ov), IdOf(f), IdOf(g))
    ensures NamedNoLater(ov, f, g)
  {
    var k := NotBefore(Ids(ov), IdOf(f), IdOf(g));
    assert NamedAt(ov, k, f);
    forall j: nat | NamedAt(ov, j, g) ensures k <= j { assert Ids(ov)[j] == IdOf(g); }
  }

  /** The first n lead, being those an override names, in the order of the overrides. */
  ghost predicate Led(ov: seq<string>, out: seq<Feature>, n: nat) {
    && n <= |out| && (forall k :: 0 <= k < |out| ==> (k < n <==> IsNamed(ov, out[k])))
    && forall i, j :: 0 <= i <= j < n ==> NamedNoLater(ov, out[i], out[j])
  }

  /** The features an override names lead, in the order of the overrides; the others follow. */
  lemma OverridesLead(fs: seq<Feature>, text: Options -> string, ov: seq<string>, r: Outcome) returns (n: nat)
    requires Orders(fs, text, ov, r) && r.Sorted?
    ensures Led(ov, r.out, n)
  {
    var t :| Produces(Unpicked(fs, ov), text, t) && r == Prefixed(Picked(fs, ov), t);
    n := |Picked(fs, ov)|;
    SortedPermutes(Unpicked(fs, ov), text, t);
    Overrides.UnpickedKeys(fs, IdOf, Ids(ov));
    forall x | x in t.out ensures IdOf(x) !in Ids(ov) { assert x in multiset(t.out); }
    Overrides.PickedLead(fs, IdOf, Ids(ov), t.out, r.out);
    forall k | 0 <= k < |r.out| ensures k < n <==> IsNamed(ov, r.out[k]) { NamedIs(ov, r.out[k]); }
    forall i, j | 0 <= i <= j < n ensures NamedNoLater(ov, r.out[i], r.out[j]) { NoLaterNamed(ov, r.out[i], r.out[j]); }
  }

  /** rest holds the features of fs that no override names, as they stand there. */
  ghost predicate LeftOver(fs: seq<Feature>, ov: seq<string>, rest: seq<Feature>, at: seq<nat>) {
    && |at| == |rest| && (forall k :: 0 <= k < |at| ==> at[k] < |fs| && rest[k] == fs[at[k]])
    && (forall j, k :: 0 <= j < k < |at| ==> at[j] < at[k])
    && forall i: nat :: i < |fs| ==> (i in at <==> !IsNamed(ov, fs[i]))
  }

  /** Order fails, warns and goes on as topoSort does on the features no override names, and puts the others first. */
  lemma OrderSortsRest(fs: seq<Feature>, text: Options -> string, ov: seq<string>, r: Outcome) returns (rest: seq<Feature>, at: seq<nat>, t: Outcome)
    requires Orders(fs, text, ov, r)
    ensures LeftOver(fs, ov, rest, at) && Produces(rest, text, t)
    ensures if t.Sorted? then r.Sorted? && r.warning == t.warning && |t.out| <= |r.out| && r.out[|r.out| - |t.out|..] == t.out else r == t
  {
    t :| Produces(Unpicked(fs, ov), text, t) && r == Prefixed(Picked(fs, ov), t);
    rest := Unpicked(fs, ov);
    at := Overrides.UnpickedIndices(fs, IdOf, Ids(ov));
    forall i: nat | i < |fs| ensures i in at <==> !IsNamed(ov, fs[i]) { NamedIs(ov, fs[i]); }
  }

  /** Order is idempotent, with or without overrides. */
  lemma OrderIdempotent(fs: seq<Feature>, text: Options -> string, ov: seq<string>, r: Outcome, r': Outcome)
    requires DistinctKeys(fs) && Injective(text)
    requires Orders(fs, text, ov, r) && r.Sorted? && Orders(r.out, text, ov, r')
    ensures r'.Sorted? && r'.out == r.out
  {
    var t :| Produces(Unpicked(fs, ov), text, t) && r == Prefixed(Picked(fs, ov), t);
    var t' :| Produces(Unpicked(r.out, ov), text, t') && r' == Prefixed(Picked(r.out, ov), t');
    DistinctUnpicked(fs, ov);
    SortedPermutes(Unpicked(fs, ov), text, t);
    Overrides.UnpickedKeys(fs, IdOf, Ids(ov));
    forall x | x in t.out ensures IdOf(x) !in Ids(ov) { assert x in multiset(t.out); }
    Overrides.SplitAgain(fs, IdOf, Ids(ov), t.out);
    SortDeterministic(Unpicked(fs, ov), t.out, text, t, t');
  }
}
