/**
  The queue discipline of topoSort, stated over the edge set alone: pop the
  head, append the entries that just lost their last blocker, in order, and
  push every successor one below the head. (feature/graph.go:93-135)
 */
module Kahn {
  import opened Prelude
  import opened Ordering
  import opened Graphs

  datatype State = State(out: seq<nat>, ready: seq<nat>, depth: seq<nat>)

  ghost predicate Unblocked(edges: set<(nat, nat)>, done: set<nat>, j: nat) {
    forall a :: (a, j) in edges ==> a in done
  }

  ghost function Released(edges: set<(nat, nat)>, n: nat, done: set<nat>, i: nat): (r: set<nat>)
    ensures forall j: nat :: j in r <==> j < n && (i, j) in edges && Unblocked(edges, done + {i}, j)
  {
    set j: nat | j in Below(n) && (i, j) in edges && Unblocked(edges, done + {i}, j)
  }

  function Max(a: int, b: int): int { if a > b then a else b }

  ghost function Deepened(edges: set<(nat, nat)>, depth: seq<nat>, i: nat): (r: seq<nat>)
    requires i < |depth|
    ensures |r| == |depth|
    ensures forall j :: 0 <= j < |depth| ==> r[j] == if (i, j) in edges then Max(depth[j], depth[i] + 1) else depth[j]
  {
    seq(|depth|, j requires 0 <= j < |depth| => if (i, j) in edges then Max(depth[j], depth[i] + 1) else depth[j])
  }

  ghost predicate IsInit(edges: set<(nat, nat)>, n: nat, less: (nat, nat) -> bool, s: State) {
    && s.out == [] && NoDup(s.ready) && SortedBy(less, s.ready)
    && (forall j: nat :: j in s.ready <==> j < n && Unblocked(edges, {}, j))
    && s.depth == seq(n, _ => 0)
  }

  ghost predicate IsStep(edges: set<(nat, nat)>, n: nat, less: (nat, nat) -> bool, s: State, t: State) {
    && s.ready != [] && s.ready[0] < |s.depth|
    && t.out == s.out + [s.ready[0]]
    && t.depth == Deepened(edges, s.depth, s.ready[0])
    && s.ready[1..] <= t.ready
    && var batch := t.ready[|s.ready| - 1..];
       NoDup(batch) && SortedBy(less, batch) && Elements(batch) == Released(edges, n, Elements(s.out), s.ready[0])
  }

  /** A run of the queue from its start to exhaustion. */
  ghost predicate IsRun(edges: set<(nat, nat)>, n: nat, less: (nat, nat) -> bool, run: seq<State>) {
    && run != [] && IsInit(edges, n, less, run[0])
    && (forall k :: 0 < k < |run| ==> StepAt(edges, n, less, run, k))
  }

  ghost predicate StepAt(edges: set<(nat, nat)>, n: nat, less: (nat, nat) -> bool, run: seq<State>, k: int)
    requires 0 < k < |run|
  {
    IsStep(edges, n, less, run[k - 1], run[k])
  }

  lemma RunExtend(edges: set<(nat, nat)>, n: nat, less: (nat, nat) -> bool, run: seq<State>, t: State)
    requires IsRun(edges, n, less, run) && IsStep(edges, n, less, run[|run| - 1], t)
    ensures IsRun(edges, n, less, run + [t])
  {
    var r := run + [t];
    forall k | 0 < k < |r| ensures StepAt(edges, n, less, r, k) {
      assert r[k - 1] == run[k - 1];
      if k < |run| { assert StepAt(edges, n, less, run, k) && r[k] == run[k]; }
    }
  }

  ghost predicate WellFormed(edges: set<(nat, nat)>, n: nat) {
    forall a, b :: (a, b) in edges ==> a < n && b < n
  }

  /** Listed and queued entries are distinct and are exactly the unblocked ones. */
  ghost predicate ListedInv(edges: set<(nat, nat)>, n: nat, s: State) {
    && NoDup(s.out + s.ready)
    && (forall j: nat :: j in s.out || j in s.ready <==> j < n && Unblocked(edges, Elements(s.out), j))
  }

  /** Each listed entry follows everything that blocks it. */
  ghost predicate OrderInv(edges: set<(nat, nat)>, out: seq<nat>) {
    forall k :: 0 <= k < |out| ==> Unblocked(edges, Elements(out[..k]), out[k])
  }

  ghost predicate QueueInv(edges: set<(nat, nat)>, n: nat, s: State) {
    ListedInv(edges, n, s) && OrderInv(edges, s.out)
  }

  /** depth[j] is one more than that of a listed predecessor of j, or 0. */
  ghost predicate Deep(edges: set<(nat, nat)>, out: seq<nat>, depth: seq<nat>, j: nat)
    requires j < |depth|
  {
    depth[j] == 0 || exists a: nat :: a in out && a < |depth| && (a, j) in edges && depth[j] == depth[a] + 1
  }

  /** depth[j] is one more than that of the deepest listed predecessor of j, or 0. */
  ghost predicate DepthInv(edges: set<(nat, nat)>, n: nat, s: State) {
    && |s.depth| == n
    && (forall a: nat, j: nat :: (a, j) in edges && a in s.out && a < n && j < n ==> s.depth[a] + 1 <= s.depth[j])
    && (forall j: nat :: j < n ==> Deep(edges, s.out, s.depth, j))
  }

  lemma QueueInit(edges: set<(nat, nat)>, n: nat, less: (nat, nat) -> bool, s: State)
    requires WellFormed(edges, n) && IsInit(edges, n, less, s)
    ensures QueueInv(edges, n, s) && DepthInv(edges, n, s)
  {
    assert s.out + s.ready == s.ready && Elements(s.out) == {};
  }

  lemma HeadFresh(edges: set<(nat, nat)>, n: nat, s: State)
    requires QueueInv(edges, n, s) && s.ready != []
    ensures s.ready[0] !in s.out && s.ready[0] < n && Unblocked(edges, Elements(s.out), s.ready[0])
    ensures forall a :: a in s.out + [s.ready[0]] ==> (s.ready[0], a) !in edges
  {
    var i := s.ready[0];
    var all := s.out + s.ready;
    forall m | 0 <= m < |s.out| ensures s.out[m] != i { assert all[m] == s.out[m] && all[|s.out|] == i; }
    assert i in s.ready;
    forall a | a in s.out ensures (i, a) !in edges {
      var k :| 0 <= k < |s.out| && s.out[k] == a;
      assert Unblocked(edges, Elements(s.out[..k]), a);
    }
  }

  lemma ListedStep(edges: set<(nat, nat)>, n: nat, less: (nat, nat) -> bool, s: State, t: State)
    requires QueueInv(edges, n, s) && IsStep(edges, n, less, s, t)
    ensures ListedInv(edges, n, t)
  {
    HeadFresh(edges, n, s);
    var i := s.ready[0];
    var batch := t.ready[|s.ready| - 1..];
    assert t.ready == s.ready[1..] + batch;
    ListedExtended(edges, n, s.out, i, s.ready[1..], batch) by {
      assert [i] + s.ready[1..] == s.ready;
    }
  }

  lemma ListedExtended(edges: set<(nat, nat)>, n: nat, out: seq<nat>, i: nat, rest: seq<nat>, batch: seq<nat>)
    requires NoDup(out + ([i] + rest)) && NoDup(batch) && i !in out
    requires Elements(batch) == Released(edges, n, Elements(out), i)
    requires forall j: nat :: j in out || j == i || j in rest <==> j < n && Unblocked(edges, Elements(out), j)
    ensures NoDup(out + [i] + (rest + batch))
    ensures forall j: nat :: j in out + [i] || j in rest + batch <==> j < n && Unblocked(edges, Elements(out + [i]), j)
  {
    assert Elements(out + [i]) == Elements(out) + {i};
    assert forall j :: j in batch <==> j in Elements(batch);
    forall x | x in batch ensures x !in out + ([i] + rest) {
      assert (i, x) in edges && !Unblocked(edges, Elements(out), x);
    }
    NoDupConcat(out + ([i] + rest), batch);
    assert out + ([i] + rest) + batch == out + [i] + (rest + batch);
    forall j: nat ensures j < n && Unblocked(edges, Elements(out) + {i}, j) <==> j in batch || (j < n && Unblocked(edges, Elements(out), j)) {
    }
  }

  lemma OrderStep(edges: set<(nat, nat)>, out: seq<nat>, i: nat)
    requires OrderInv(edges, out) && Unblocked(edges, Elements(out), i)
    ensures OrderInv(edges, out + [i])
  {
    var t := out + [i];
    forall k | 0 <= k < |t| ensures Unblocked(edges, Elements(t[..k]), t[k]) {
      assert t[..k] == out[..k];
      if k == |out| { assert out[..k] == out; }
    }
  }

  lemma QueueStep(edges: set<(nat, nat)>, n: nat, less: (nat, nat) -> bool, s: State, t: State)
    requires QueueInv(edges, n, s) && IsStep(edges, n, less, s, t)
    ensures QueueInv(edges, n, t)
  {
    HeadFresh(edges, n, s);
    ListedStep(edges, n, less, s, t);
    OrderStep(edges, s.out, s.ready[0]);
  }

  lemma DepthStep(edges: set<(nat, nat)>, n: nat, less: (nat, nat) -> bool, s: State, t: State)
    requires QueueInv(edges, n, s) && DepthInv(edges, n, s) && IsStep(edges, n, less, s, t)
    ensures DepthInv(edges, n, t)
  {
    HeadFresh(edges, n, s);
    var i := s.ready[0];
    assert forall a :: a in t.out && a < n ==> t.depth[a] == s.depth[a];
    forall j: nat | j < n ensures Deep(edges, t.out, t.depth, j) {
      assert Deep(edges, s.out, s.depth, j);
      if t.depth[j] == s.depth[j] > 0 {
        var a: nat :| a in s.out && a < n && (a, j) in edges && s.depth[j] == s.depth[a] + 1;
        assert a in t.out;
      } else if t.depth[j] > 0 {
        assert i in t.out && (i, j) in edges;
      }
    }
  }

  lemma {:induction false} RunInv(edges: set<(nat, nat)>, n: nat, less: (nat, nat) -> bool, run: seq<State>, k: nat)
    requires WellFormed(edges, n) && IsRun(edges, n, less, run) && k < |run|
    ensures QueueInv(edges, n, run[k]) && DepthInv(edges, n, run[k])
  {
    if k == 0 {
      QueueInit(edges, n, less, run[0]);
    } else {
      RunInv(edges, n, less, run, k - 1);
      assert StepAt(edges, n, less, run, k);
      QueueStep(edges, n, less, run[k - 1], run[k]);
      DepthStep(edges, n, less, run[k - 1], run[k]);
    }
  }

  // ---- what the end of a run says ----

  /** Everything was listed: the listing is a permutation along which every edge goes forward. */
  lemma FullListing(edges: set<(nat, nat)>, n: nat, s: State)
    requires WellFormed(edges, n) && QueueInv(edges, n, s) && s.ready == [] && |s.out| == n
    ensures NoDup(s.out) && Elements(s.out) == Below(n)
    ensures Respects(edges, s.out) && Acyclic(edges)
  {
    assert s.out + s.ready == s.out;
    NoDupCard(s.out);
    BelowCard(n);
    assert Elements(s.out) <= Below(n);
    SubsetEq(Elements(s.out), Below(n));
    forall a, b | (a, b) in edges
      ensures exists i, j :: 0 <= i < j < |s.out| && s.out[i] == a && s.out[j] == b
    {
      assert b in Elements(s.out);
      var j :| 0 <= j < |s.out| && s.out[j] == b;
      assert a in Elements(s.out[..j]);
      var i :| 0 <= i < j && s.out[..j][i] == a;
      assert s.out[i] == a;
    }
    RespectedAcyclic(edges, s.out);
  }

  /** Something was left unlisted ... */
  lemma StuckListing(edges: set<(nat, nat)>, n: nat, s: State) returns (j: nat)
    requires QueueInv(edges, n, s) && s.ready == [] && |s.out| < n
    ensures j < n && j !in s.out
  {
    assert s.out + s.ready == s.out;
    NoDupCard(s.out);
    BelowCard(n);
    if Below(n) - Elements(s.out) == {} {
      DiffEmpty(Below(n), Elements(s.out));
    }
    j :| j in Below(n) - Elements(s.out);
  }

  /** ... and every unlisted entry waits for another unlisted one. */
  lemma Blocker(edges: set<(nat, nat)>, n: nat, s: State, j: nat) returns (a: nat)
    requires WellFormed(edges, n) && QueueInv(edges, n, s) && s.ready == [] && j < n && j !in s.out
    ensures a < n && a !in s.out && (a, j) in edges
  {
    assert !Unblocked(edges, Elements(s.out), j);
    a :| (a, j) in edges && a !in Elements(s.out);
  }

  /** Depths bound every chain from above ... */
  lemma {:induction false} ChainBound(edges: set<(nat, nat)>, n: nat, s: State, p: seq<nat>)
    requires WellFormed(edges, n) && DepthInv(edges, n, s) && Elements(s.out) == Below(n)
    requires IsPath(edges, p) && p[|p| - 1] < n
    ensures |p| - 1 <= s.depth[p[|p| - 1]]
  {
    var k := |p| - 1;
    if k > 0 {
      assert (p[k - 1], p[k]) in edges;
      assert p[k - 1] in Elements(s.out);
      ChainBound(edges, n, s, p[..k]);
    }
  }

  /** ... and each is the length of a chain that starts at a root. */
  ghost predicate RootChain(edges: set<(nat, nat)>, p: seq<nat>, j: nat, d: nat) {
    IsPath(edges, p) && p[|p| - 1] == j && |p| == d + 1 && forall a :: (a, p[0]) !in edges
  }

  lemma {:induction false} ChainExists(edges: set<(nat, nat)>, n: nat, s: State, j: nat) returns (p: seq<nat>)
    requires WellFormed(edges, n) && QueueInv(edges, n, s) && DepthInv(edges, n, s) && j in s.out && j < n
    ensures RootChain(edges, p, j, s.depth[j])
    decreases s.depth[j]
  {
    assert Deep(edges, s.out, s.depth, j);
    if s.depth[j] == 0 {
      assert Unblocked(edges, Elements(s.out), j);
      p := [j];
    } else {
      var a: nat :| a in s.out && a < n && (a, j) in edges && s.depth[j] == s.depth[a] + 1;
      var q := ChainExists(edges, n, s, a);
      p := q + [j];
    }
  }

  /** The maximum depth of a full listing is the length of the longest chain. */
  lemma DepthExact(edges: set<(nat, nat)>, n: nat, s: State, i: nat)
    requires WellFormed(edges, n) && QueueInv(edges, n, s) && DepthInv(edges, n, s) && Elements(s.out) == Below(n)
    requires i < n && forall j :: 0 <= j < n ==> s.depth[j] <= s.depth[i]
    ensures IsLongestChain(edges, s.depth[i])
  {
    assert i in Elements(s.out);
    var p := ChainExists(edges, n, s, i);
    assert IsPath(edges, p) && |p| - 1 == s.depth[i];
    forall q | IsPath(edges, q) ensures |q| - 1 <= s.depth[i] {
      var k := |q| - 1;
      if k > 0 {
        assert (q[k - 1], q[k]) in edges;
        ChainBound(edges, n, s, q);
      }
    }
  }
}
