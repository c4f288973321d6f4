/** Paths and cycles of a finite directed graph given by its edge set. */
module Graphs {
  import opened Prelude

  ghost predicate IsPath<T(!new)>(edges: set<(T, T)>, p: seq<T>) {
    |p| > 0 && forall k :: 0 <= k < |p| - 1 ==> (p[k], p[k + 1]) in edges
  }

  ghost predicate Acyclic<T(!new)>(edges: set<(T, T)>) {
    forall p :: IsPath(edges, p) && |p| >= 2 ==> p[0] != p[|p| - 1]
  }

  /** The nodes of a cycle in edge order, each listed once; the last one leads back to the first. */
  ghost predicate IsSimpleCycle<T(!new)>(edges: set<(T, T)>, c: seq<T>) {
    IsPath(edges, c) && NoDup(c) && (c[|c| - 1], c[0]) in edges
  }

  lemma CycleRefutesAcyclic<T(!new)>(edges: set<(T, T)>, c: seq<T>)
    requires IsSimpleCycle(edges, c)
    ensures !Acyclic(edges)
  {
    var p := c + [c[0]];
    assert IsPath(edges, p) && p[0] == p[|p| - 1];
  }

  /** The longest chain of edges ending anywhere has length d. */
  ghost predicate IsLongestChain<T(!new)>(edges: set<(T, T)>, d: nat) {
    && (exists p :: IsPath(edges, p) && |p| - 1 == d)
    && (forall p :: IsPath(edges, p) ==> |p| - 1 <= d)
  }

  /** A listing in which every edge goes forward rules out cycles. */
  ghost predicate Respects<T(!new)>(edges: set<(T, T)>, order: seq<T>) {
    forall a, b :: (a, b) in edges ==>
      exists i, j :: 0 <= i < j < |order| && order[i] == a && order[j] == b
  }

  lemma {:induction false} RespectedPath<T(!new)>(edges: set<(T, T)>, order: seq<T>, p: seq<T>)
    requires NoDup(order) && Respects(edges, order) && IsPath(edges, p) && |p| >= 2
    ensures exists i, j :: 0 <= i < j < |order| && order[i] == p[0] && order[j] == p[|p| - 1]
  {
    var n := |p| - 1;
    assert (p[n - 1], p[n]) in edges;
    if n > 1 {
      RespectedPath(edges, order, p[..n]);
      var i, j :| 0 <= i < j < |order| && order[i] == p[..n][0] && order[j] == p[..n][n - 1];
      var j', k :| 0 <= j' < k < |order| && order[j'] == p[n - 1] && order[k] == p[n];
      assert j' == j;
      assert order[i] == p[0] && order[k] == p[n];
    }
  }

  lemma RespectedAcyclic<T(!new)>(edges: set<(T, T)>, order: seq<T>)
    requires NoDup(order) && Respects(edges, order)
    ensures Acyclic(edges)
  {
    forall p | IsPath(edges, p) && |p| >= 2 ensures p[0] != p[|p| - 1] {
      RespectedPath(edges, order, p);
    }
  }
}
