/**
  cyclePath: the depth-first search that names one cycle among the entries the
  queue could not list. (feature/graph.go:229-280)
 */
module CyclePath {
  import opened Prelude
  import opened Graphs

  datatype Color = White | Gray | Black

  ghost predicate AdjacencyOf(edges: set<(nat, nat)>, adj: seq<seq<nat>>) {
    && (forall i: nat, j: nat :: i < |adj| ==> (j in adj[i] <==> (i, j) in edges))
    && (forall i: nat, j: nat :: (i, j) in edges ==> i < |adj| && j < |adj|)
  }

  /** The gray entries are the path being explored, and parent leads back along it. */
  ghost predicate OnStack(edges: set<(nat, nat)>, color: seq<Color>, parent: seq<int>, stack: seq<nat>) {
    && |color| == |parent| && NoDup(stack)
    && (forall v: nat :: v in stack <==> v < |color| && color[v] == Gray)
    && (forall k :: 0 < k < |stack| ==> stack[k] < |parent| && (stack[k - 1], stack[k]) in edges && parent[stack[k]] == stack[k - 1])
  }

  /** The black entries, in the order they were finished, lead only to entries finished earlier. */
  ghost predicate Finished(edges: set<(nat, nat)>, color: seq<Color>, finished: seq<nat>) {
    && (forall v: nat :: v in finished <==> v < |color| && color[v] == Black)
    && LeadsBack(edges, finished)
  }

  ghost predicate LeadsBack(edges: set<(nat, nat)>, finished: seq<nat>) {
    forall k, v :: 0 <= k < |finished| && (finished[k], v) in edges ==> v in finished[..k]
  }

  /** A cycle whose parent links lead from its last entry back to its first. */
  ghost predicate Closes(edges: set<(nat, nat)>, parent: seq<int>, cycle: seq<nat>, start: nat, end: nat) {
    && IsSimpleCycle(edges, cycle) && cycle[0] == start && cycle[|cycle| - 1] == end
    && forall k :: 0 < k < |cycle| ==> cycle[k] < |parent| && parent[cycle[k]] == cycle[k - 1]
  }

  ghost function Whites(color: seq<Color>): set<nat> {
    set v: nat | v in Below(|color|) && color[v] == White
  }

  lemma Enter(edges: set<(nat, nat)>, color: seq<Color>, parent: seq<int>, stack: seq<nat>, finished: seq<nat>, u: nat)
    requires OnStack(edges, color, parent, stack) && Finished(edges, color, finished)
    requires u < |color| && color[u] == White
    requires stack != [] ==> (stack[|stack| - 1], u) in edges && parent[u] == stack[|stack| - 1]
    ensures OnStack(edges, color[u := Gray], parent, stack + [u]) && Finished(edges, color[u := Gray], finished)
    ensures Whites(color[u := Gray]) < Whites(color)
  {
    assert u in Whites(color) && u !in Whites(color[u := Gray]);
    assert u !in stack;
  }

  lemma Leave(edges: set<(nat, nat)>, color: seq<Color>, parent: seq<int>, stack: seq<nat>, finished: seq<nat>, u: nat)
    requires OnStack(edges, color, parent, stack + [u]) && Finished(edges, color, finished) && u < |color|
    requires forall v :: (u, v) in edges ==> v in finished
    ensures OnStack(edges, color[u := Black], parent, stack) && Finished(edges, color[u := Black], finished + [u])
  {
    var s := stack + [u];
    assert forall k :: 0 <= k < |stack| ==> s[k] == stack[k];
    assert s[|stack|] == u;
    assert u !in stack;
    forall v: nat ensures v in stack <==> v < |color| && color[u := Black][v] == Gray {
      assert v in s <==> v in stack || v == u;
    }
    var f := finished + [u];
    forall k, v | 0 <= k < |f| && (f[k], v) in edges ensures v in f[..k] {
      assert f[..k] == finished[..k];
      if k == |finished| { assert finished[..k] == finished; }
    }
  }

  lemma BackEdge(edges: set<(nat, nat)>, color: seq<Color>, parent: seq<int>, stack: seq<nat>, u: nat, v: nat) returns (cycle: seq<nat>)
    requires OnStack(edges, color, parent, stack) && stack != [] && stack[|stack| - 1] == u
    requires v < |color| && color[v] == Gray && (u, v) in edges
    ensures Closes(edges, parent, cycle, v, u)
  {
    assert v in stack;
    var m :| 0 <= m < |stack| && stack[m] == v;
    cycle := stack[m..];
    forall k | 0 < k < |cycle| ensures cycle[k] < |parent| && (cycle[k - 1], cycle[k]) in edges && parent[cycle[k]] == cycle[k - 1] {
      assert cycle[k] == stack[m + k] && cycle[k - 1] == stack[m + k - 1];
    }
  }

  /** The dfs closure: explores u and everything white below it. */
  method Visit(adj: seq<seq<nat>>, u: nat, color: array<Color>, parent: array<int>,
               ghost edges: set<(nat, nat)>, ghost stack: seq<nat>, ghost finished0: seq<nat>)
    returns (found: bool, start: nat, end: nat, ghost finished: seq<nat>, ghost cycle: seq<nat>)
    requires AdjacencyOf(edges, adj) && color.Length == parent.Length == |adj|
    requires OnStack(edges, color[..], parent[..], stack) && Finished(edges, color[..], finished0)
    requires u < |adj| && color[u] == White
    requires stack != [] ==> (stack[|stack| - 1], u) in edges && parent[u] == stack[|stack| - 1]
    modifies color, parent
    ensures found ==> Closes(edges, parent[..], cycle, start, end)
    ensures !found ==> OnStack(edges, color[..], parent[..], stack) && Finished(edges, color[..], finished)
    ensures !found ==> finished0 <= finished && u in finished
    ensures Whites(color[..]) <= old(Whites(color[..]))
    decreases Whites(color[..])
  {
    Enter(edges, color[..], parent[..], stack, finished0, u);
    color[u] := Gray;
    assert color[..] == old(color[..])[u := Gray];
    start, end, finished, cycle := 0, 0, finished0, [];
    ghost var path := stack + [u];
    for k := 0 to |adj[u]|
      invariant OnStack(edges, color[..], parent[..], path) && Finished(edges, color[..], finished)
      invariant finished0 <= finished && forall v :: v in adj[u][..k] ==> v in finished
      invariant Whites(color[..]) < old(Whites(color[..]))
    {
      var v := adj[u][k];
      assert v in adj[u] && (u, v) in edges;
      if color[v] == White {
        SetParent(edges, color[..], parent[..], path, v, u);
        ghost var links := parent[..];
        parent[v] := u;
        assert parent[..] == links[v := u];
        found, start, end, finished, cycle := Visit(adj, v, color, parent, edges, path, finished);
        if found { return; }
      } else if color[v] == Gray {
        cycle := BackEdge(edges, color[..], parent[..], path, u, v);
        return true, v, u, finished, cycle;
      }
      assert adj[u][..k + 1] == adj[u][..k] + [v];
    }
    assert adj[u][..|adj[u]|] == adj[u];
    Leave(edges, color[..], parent[..], stack, finished, u);
    ghost var before := color[..];
    color[u] := Black;
    assert color[..] == before[u := Black];
    finished := finished + [u];
    found := false;
  }

  lemma SetParent(edges: set<(nat, nat)>, color: seq<Color>, parent: seq<int>, stack: seq<nat>, v: nat, u: nat)
    requires OnStack(edges, color, parent, stack) && v < |color| && color[v] == White
    ensures OnStack(edges, color, parent[v := u], stack)
  {
    assert v !in stack;
  }

  lemma FinishedEarlier(edges: set<(nat, nat)>, finished: seq<nat>, k: nat, a: nat, x: nat)
    requires LeadsBack(edges, finished) && 0 < k <= |finished| && a in finished[..k] && (a, x) in edges
    ensures x in finished[..k - 1]
  {
    var m :| 0 <= m < k && finished[..k][m] == a;
    assert finished[m] == a && x in finished[..m];
    var q :| 0 <= q < m && finished[..m][q] == x;
    assert finished[..k - 1][q] == x;
  }

  ghost predicate Waits(edges: set<(nat, nat)>, remaining: set<nat>, j: nat) {
    exists a :: a in remaining && (a, j) in edges
  }

  /** Were everything explored, the remaining entries finished last would wait for ones finished later. */
  lemma {:induction false} AllFinishedAbsurd(edges: set<(nat, nat)>, finished: seq<nat>, remaining: set<nat>, k: nat)
    requires LeadsBack(edges, finished) && k <= |finished|
    requires forall j :: j in remaining ==> j in finished[..k]
    requires forall j {:trigger Waits(edges, remaining, j)} :: j in remaining ==> Waits(edges, remaining, j)
    ensures remaining == {}
  {
    if k > 0 {
      forall x | x in remaining ensures x in finished[..k - 1] {
        assert Waits(edges, remaining, x);
        var a :| a in remaining && (a, x) in edges;
        FinishedEarlier(edges, finished, k, a, x);
      }
      AllFinishedAbsurd(edges, finished, remaining, k - 1);
    }
  }

  /** Follows parent from end back to start, listing each entry in front of the last. */
  method WalkBack(parent: array<int>, start: nat, end: nat, ghost edges: set<(nat, nat)>, ghost cycle: seq<nat>) returns (path: seq<nat>)
    requires Closes(edges, parent[..], cycle, start, end)
    ensures path == cycle[1..] + [start]
  {
    path := [start];
    var v := end;
    ghost var m := |cycle| - 1;
    while v != start
      invariant 0 <= m < |cycle| && v == cycle[m] && path == cycle[m + 1..] + [start]
      decreases m
    {
      assert parent[..][v] == parent[v] == cycle[m - 1];
      path := [v] + path;
      assert cycle[m..] == [v] + cycle[m + 1..];
      v, m := parent[v], m - 1;
    }
    assert m == 0;
  }

  lemma Rotated(edges: set<(nat, nat)>, c: seq<nat>)
    requires IsSimpleCycle(edges, c)
    ensures IsSimpleCycle(edges, c[1..] + [c[0]])
  {
    var r := c[1..] + [c[0]];
    forall k | 0 <= k < |r| - 1 ensures (r[k], r[k + 1]) in edges {
      assert r[k] == c[k + 1];
      if k + 2 < |c| { assert r[k + 1] == c[k + 2]; }
    }
    assert forall k :: 0 <= k < |c| - 1 ==> r[k] == c[k + 1];
    if |c| > 1 { assert r[0] == c[1] && (c[0], c[1]) in edges; }
  }

  /** What is left when the queue runs dry: each remaining entry waits for another. */
  ghost predicate Stuck(edges: set<(nat, nat)>, remaining: set<nat>) {
    remaining != {} && forall j {:trigger Waits(edges, remaining, j)} :: j in remaining ==> Waits(edges, remaining, j)
  }

  ghost function Remaining(inDegree: seq<nat>): set<nat> {
    set j: nat | j in Below(|inDegree|) && inDegree[j] > 0
  }

  /** Searches from each remaining entry until a cycle closes. */
  method Search(adj: seq<seq<nat>>, inDegree: seq<nat>, color: array<Color>, parent: array<int>, ghost edges: set<(nat, nat)>)
    returns (found: bool, start: nat, end: nat, ghost finished: seq<nat>, ghost cycle: seq<nat>)
    requires AdjacencyOf(edges, adj) && |inDegree| == |adj| == color.Length == parent.Length
    requires OnStack(edges, color[..], parent[..], []) && Finished(edges, color[..], [])
    modifies color, parent
    ensures found ==> Closes(edges, parent[..], cycle, start, end)
    ensures !found ==> LeadsBack(edges, finished) && forall j :: j in Remaining(inDegree) ==> j in finished
  {
    found, start, end, finished, cycle := false, 0, 0, [], [];
    for i := 0 to |inDegree|
      invariant OnStack(edges, color[..], parent[..], []) && Finished(edges, color[..], finished)
      invariant forall j: nat :: j < i && inDegree[j] > 0 ==> j in finished
    {
      if inDegree[i] > 0 && color[i] == White {
        ghost var finished0 := finished;
        found, start, end, finished, cycle := Visit(adj, i, color, parent, edges, [], finished0);
        if found { return; }
        assert forall j :: j in finished0 ==> j in finished;
      }
    }
    found := false;
  }

  /**
    cyclePath over positions. The entries with inDegree > 0 are those each of
    which waits for another of them, so a cycle exists and the search finds it.
    The positions returned are c1, ..., end, start, start.
   */
  method CycleOf(adj: seq<seq<nat>>, inDegree: seq<nat>, ghost edges: set<(nat, nat)>) returns (path: seq<nat>)
    requires AdjacencyOf(edges, adj) && |inDegree| == |adj| && Stuck(edges, Remaining(inDegree))
    ensures |path| >= 2 && IsSimpleCycle(edges, path[..|path| - 1]) && path[|path| - 1] == path[|path| - 2]
  {
    var color := new Color[|adj|](_ => White);
    var parent := new int[|adj|](_ => -1);
    var found, start, end, finished, cycle := Search(adj, inDegree, color, parent, edges);
    if !found { // the "<unknown cycle>" fallback is never taken
      assert finished[..|finished|] == finished;
      AllFinishedAbsurd(edges, finished, Remaining(inDegree), |finished|);
      assert false;
    }
    path := WalkBack(parent, start, end, edges, cycle);
    Rotated(edges, cycle);
    path := path + [start];
    assert path[..|path| - 1] == cycle[1..] + [start];
  }
}
