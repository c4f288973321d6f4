/** TopoSort, findCycle and ServiceClosure. (compose/graph.go) */
module ComposeGraph {
  import opened Prelude
  import opened Ordering
  import opened Graphs
  import opened ComposeModel

  type Level = seq<string>

  /** The graph as a map from each service to what it depends on. */
  ghost predicate IsGraph(deps: map<string, set<string>>) {
    forall n, d :: n in deps && d in deps[n] ==> d in deps && d != n
  }

  ghost function EdgeSet(deps: map<string, set<string>>): (r: set<(string, string)>)
    ensures forall n, d :: (n, d) in r <==> n in deps && d in deps[n]
  {
    set n, d | n in deps && d in deps[n] :: (n, d)
  }

  /** The services of the first k levels. */
  ghost function Placed(levels: seq<Level>, k: nat): set<string>
    requires k <= |levels|
  {
    if k == 0 then {} else Placed(levels, k - 1) + Elements(levels[k - 1])
  }

  /** Each level is sorted and holds services new to it, all of whose dependencies lie in earlier levels, one of them in the level just before. */
  ghost predicate IsLevel(deps: map<string, set<string>>, levels: seq<Level>, k: nat)
    requires k < |levels|
  {
    && levels[k] != [] && levels[k] == SortedKeys(Elements(levels[k]))
    && Elements(levels[k]) !! Placed(levels, k)
    && (forall n :: n in levels[k] ==> n in deps && deps[n] <= Placed(levels, k))
    && (forall n :: n in levels[k] && k > 0 ==> exists d :: d in deps[n] && d in levels[k - 1])
  }

  ghost predicate AreLevels(deps: map<string, set<string>>, levels: seq<Level>) {
    forall k :: 0 <= k < |levels| ==> IsLevel(deps, levels, k)
  }

  lemma {:induction false} PlacedPrefix(levels: seq<Level>, more: seq<Level>, k: nat)
    requires levels <= more && k <= |levels|
    ensures Placed(more, k) == Placed(levels, k)
  {
    if k > 0 { PlacedPrefix(levels, more, k - 1); }
  }

  lemma {:induction false} PlacedIn(levels: seq<Level>, k: nat, n: string)
    requires k <= |levels|
    ensures n in Placed(levels, k) <==> exists j :: 0 <= j < k && n in levels[j]
  {
    if k > 0 { PlacedIn(levels, k - 1, n); }
  }

  // ---- levels are longest-path lengths ----

  /** Along any dependency path the level drops at each step, so no path from level k is longer than k. */
  lemma {:induction false} PathBound(deps: map<string, set<string>>, levels: seq<Level>, k: nat, p: seq<string>)
    requires AreLevels(deps, levels) && k < |levels| && IsPath(EdgeSet(deps), p) && p[0] in levels[k]
    ensures |p| - 1 <= k
  {
    if |p| >= 2 {
      assert (p[0], p[1]) in EdgeSet(deps);
      assert IsLevel(deps, levels, k);
      PlacedIn(levels, k, p[1]);
      var j :| 0 <= j < k && p[1] in levels[j];
      assert IsPath(EdgeSet(deps), p[1..]);
      PathBound(deps, levels, j, p[1..]);
    }
  }

  lemma {:induction false} PathExists(deps: map<string, set<string>>, levels: seq<Level>, k: nat, n: string) returns (p: seq<string>)
    requires AreLevels(deps, levels) && k < |levels| && n in levels[k]
    ensures IsPath(EdgeSet(deps), p) && p[0] == n && |p| - 1 == k
  {
    assert IsLevel(deps, levels, k);
    if k == 0 {
      p := [n];
    } else {
      var d :| d in deps[n] && d in levels[k - 1];
      var q := PathExists(deps, levels, k - 1, d);
      p := [n] + q;
    }
  }

  /** The level of a service is the length of its longest dependency path. */
  lemma LevelIsDepth(deps: map<string, set<string>>, levels: seq<Level>, k: nat, n: string)
    requires AreLevels(deps, levels) && k < |levels| && n in levels[k]
    ensures exists p :: IsPath(EdgeSet(deps), p) && p[0] == n && |p| - 1 == k
    ensures forall p :: IsPath(EdgeSet(deps), p) && p[0] == n ==> |p| - 1 <= k
  {
    var p := PathExists(deps, levels, k, n);
    forall q | IsPath(EdgeSet(deps), q) && q[0] == n ensures |q| - 1 <= k { PathBound(deps, levels, k, q); }
  }

  lemma LevelsAcyclic(deps: map<string, set<string>>, levels: seq<Level>)
    requires AreLevels(deps, levels) && Placed(levels, |levels|) == deps.Keys
    ensures Acyclic(EdgeSet(deps))
  {
    forall p | IsPath(EdgeSet(deps), p) && |p| >= 2 ensures p[0] != p[|p| - 1] {
      assert (p[0], p[1]) in EdgeSet(deps);
      PlacedIn(levels, |levels|, p[0]);
      var k :| 0 <= k < |levels| && p[0] in levels[k];
      if p[0] == p[|p| - 1] { Unroll(deps, levels, k, p); }
    }
  }

  /** A closed path could be followed once more from its end, and so without bound. */
  lemma Unroll(deps: map<string, set<string>>, levels: seq<Level>, k: nat, p: seq<string>)
    requires AreLevels(deps, levels) && k < |levels| && IsPath(EdgeSet(deps), p) && |p| >= 2 && p[0] in levels[k] && p[0] == p[|p| - 1]
    ensures false
    decreases k + 1 - |p|
  {
    PathBound(deps, levels, k, p);
    var q := p + p[1..];
    forall i | 0 <= i < |q| - 1 ensures (q[i], q[i + 1]) in EdgeSet(deps) {
      if i < |p| - 1 { assert (p[i], p[i + 1]) in EdgeSet(deps); }
      else { assert (p[i - |p| + 1], p[i - |p| + 2]) in EdgeSet(deps); }
    }
    Unroll(deps, levels, k, q);
  }

  // ---- TopoSort ----

  ghost function GraphOf(p: Project): (deps: map<string, set<string>>)
    ensures deps.Keys == p.Keys && IsGraph(deps)
  {
    map n | n in p :: Deps(p, n)
  }

  method BuildDeps(p: Project) returns (deps: map<string, set<string>>)
    ensures deps == GraphOf(p)
  {
    deps := map[];
    var done: set<string> := {};
    while p.Keys - done != {}
      invariant done <= p.Keys && deps == Restrict(GraphOf(p), done)
      decreases p.Keys - done
    {
      var n :| n in p.Keys - done;
      deps, done := deps[n := Deps(p, n)], done + {n};
    }
    DiffEmpty(p.Keys, done);
    RestrictAll(GraphOf(p));
  }

  function Ready(deps: map<string, set<string>>, remaining: set<string>): set<string>
    requires remaining <= deps.Keys
  {
    set n | n in remaining && deps[n] !! remaining
  }

  /** Everything left after some levels, each service waiting for the level just emitted or for something still left. */
  ghost predicate Peeled(deps: map<string, set<string>>, levels: seq<Level>, remaining: set<string>) {
    && AreLevels(deps, levels)
    && remaining <= deps.Keys && Placed(levels, |levels|) == deps.Keys - remaining
    && forall n :: n in remaining && |levels| > 0 ==> Blocked(deps, levels[|levels| - 1], remaining, n)
  }

  ghost predicate Blocked(deps: map<string, set<string>>, last: Level, remaining: set<string>, n: string) {
    n in deps && exists d :: d in deps[n] && (d in last || d in remaining)
  }

  lemma AreLevelsMore(deps: map<string, set<string>>, levels: seq<Level>, level: Level)
    requires AreLevels(deps, levels) && IsLevel(deps, levels + [level], |levels|)
    ensures AreLevels(deps, levels + [level])
  {
    var more := levels + [level];
    forall k | 0 <= k < |more| ensures IsLevel(deps, more, k) {
      if k < |levels| {
        PlacedPrefix(levels, more, k);
        assert IsLevel(deps, levels, k) && more[k] == levels[k] && (k > 0 ==> more[k - 1] == levels[k - 1]);
      }
    }
  }

  lemma StillBlocked(deps: map<string, set<string>>, remaining: set<string>, level: Level, n: string)
    requires remaining <= deps.Keys && Elements(level) == Ready(deps, remaining) && n in remaining - Ready(deps, remaining)
    ensures Blocked(deps, level, remaining - Ready(deps, remaining), n)
  {
    assert !(deps[n] !! remaining);
    var d :| d in deps[n] && d in remaining;
    assert d in Elements(level) || d in remaining - Ready(deps, remaining);
  }

  /** Emitting the ready services as the next sorted level. */
  lemma PeelMore(deps: map<string, set<string>>, levels: seq<Level>, remaining: set<string>)
    requires IsGraph(deps) && Peeled(deps, levels, remaining) && Ready(deps, remaining) != {}
    ensures var ready := Ready(deps, remaining); Peeled(deps, levels + [SortedKeys(ready)], remaining - ready)
  {
    var ready := Ready(deps, remaining);
    var level := SortedKeys(ready);
    var more := levels + [level];
    SortedNonEmpty(ready);
    NewLevel(deps, levels, remaining, level);
    AreLevelsMore(deps, levels, level);
    PlacedPrefix(levels, more, |levels|);
    forall n | n in remaining - ready { StillBlocked(deps, remaining, level, n); }
  }

  lemma NewLevel(deps: map<string, set<string>>, levels: seq<Level>, remaining: set<string>, level: Level)
    requires IsGraph(deps) && Peeled(deps, levels, remaining) && level == SortedKeys(Ready(deps, remaining)) && level != []
    ensures IsLevel(deps, levels + [level], |levels|)
  {
    var more := levels + [level];
    PlacedPrefix(levels, more, |levels|);
    assert forall n :: n in level <==> n in Elements(level);
    forall n | n in level && |levels| > 0 ensures exists d :: d in deps[n] && d in more[|levels| - 1] {
      assert n in Ready(deps, remaining) && Blocked(deps, levels[|levels| - 1], remaining, n);
    }
  }

  datatype SortResult = Levels(levels: seq<Level>) | Cycle(path: seq<string>)

  /** A closed walk: consecutive services depend on one another, the last is the first again, none repeats in between. */
  ghost predicate IsCycleReport(deps: map<string, set<string>>, path: seq<string>) {
    |path| >= 2 && path[|path| - 1] == path[0] && IsSimpleCycle(EdgeSet(deps), path[..|path| - 1])
  }

  /** TopoSort: levels that partition the services, or a cycle. */
  method TopoSort(p: Project) returns (r: SortResult)
    ensures match r
      case Levels(levels) => AreLevels(GraphOf(p), levels) && Placed(levels, |levels|) == p.Keys && Acyclic(EdgeSet(GraphOf(p)))
      case Cycle(path) => IsCycleReport(GraphOf(p), path) && !Acyclic(EdgeSet(GraphOf(p)))
  {
    var deps := BuildDeps(p);
    var levels: seq<Level> := [];
    var remaining := p.Keys;
    while remaining != {}
      invariant Peeled(deps, levels, remaining)
      decreases remaining
    {
      var ready := Ready(deps, remaining);
      if ready == {} {
        var path := FindCycle(deps, remaining);
        CycleRefutesAcyclic(EdgeSet(deps), path[..|path| - 1]);
        return Cycle(path);
      }
      PeelMore(deps, levels, remaining);
      var level := SortStrings(ready);
      assert remaining - ready < remaining;
      levels, remaining := levels + [level], remaining - ready;
    }
    LevelsAcyclic(deps, levels);
    return Levels(levels);
  }

  // ---- findCycle ----

  /** The walk so far: distinct remaining services, each depending on the next. */
  ghost predicate IsWalk(deps: map<string, set<string>>, remaining: set<string>, path: seq<string>) {
    NoDup(path) && IsPath(EdgeSet(deps), path) && Elements(path) <= remaining
  }

  ghost predicate Indexes(path: seq<string>, index: map<string, nat>) {
    && (forall n :: n in index <==> n in path)
    && (forall n :: n in index ==> index[n] < |path| && path[index[n]] == n)
  }

  /** The smallest remaining dependency of cur; it exists because nothing remaining is ready. */
  method Next(deps: map<string, set<string>>, remaining: set<string>, cur: string) returns (next: string)
    requires remaining <= deps.Keys && Ready(deps, remaining) == {} && cur in remaining
    ensures next in deps[cur] && next in remaining
  {
    var nexts := SortStrings(deps[cur] * remaining);
    assert cur !in Ready(deps, remaining);
    assert !(deps[cur] !! remaining);
    ghost var d :| d in deps[cur] && d in remaining;
    assert d in deps[cur] * remaining;
    SortedNonEmpty(deps[cur] * remaining);
    next := nexts[0];
    assert next in Elements(nexts);
  }

  /** Every remaining service depends on a remaining one, so the walk never dead-ends, and it must meet itself. */
  method FindCycle(deps: map<string, set<string>>, remaining: set<string>) returns (cycle: seq<string>)
    requires remaining != {} && remaining <= deps.Keys && Ready(deps, remaining) == {}
    ensures IsCycleReport(deps, cycle)
  {
    var seeds := SortStrings(remaining);
    SortedNonEmpty(remaining);
    assert seeds[0] in Elements(seeds);
    var cur := seeds[0];
    var path := [cur];
    var index: map<string, nat> := map[cur := 0];
    while true
      invariant IsWalk(deps, remaining, path) && cur == path[|path| - 1] && Indexes(path, index)
      decreases |remaining| - |path|
    {
      assert cur in Elements(path);
      var next := Next(deps, remaining, cur);
      if next in index {
        CloseWalk(deps, remaining, path, index[next], next);
        return path[index[next]..] + [next];
      }
      ExtendWalk(deps, remaining, path, next);
      path, index, cur := path + [next], index[next := |path|], next;
    }
  }

  lemma ExtendWalk(deps: map<string, set<string>>, remaining: set<string>, path: seq<string>, next: string)
    requires IsWalk(deps, remaining, path) && path[|path| - 1] in deps && next in deps[path[|path| - 1]] && next in remaining && next !in path
    ensures IsWalk(deps, remaining, path + [next]) && |path| + 1 <= |remaining|
  {
    var more := path + [next];
    assert Elements(more) == Elements(path) + {next};
    NoDupCard(more);
    SubsetCard(Elements(more), remaining);
  }

  lemma CloseWalk(deps: map<string, set<string>>, remaining: set<string>, path: seq<string>, idx: nat, next: string)
    requires IsWalk(deps, remaining, path) && idx < |path| && path[idx] == next && path[|path| - 1] in deps && next in deps[path[|path| - 1]]
    ensures IsCycleReport(deps, path[idx..] + [next])
  {
    var c := path[idx..];
    assert (c + [next])[..|c|] == c;
    forall k | 0 <= k < |c| - 1 ensures (c[k], c[k + 1]) in EdgeSet(deps) {
      assert c[k] == path[idx + k] && c[k + 1] == path[idx + k + 1];
    }
  }

  // ---- ServiceClosure ----

  ghost predicate ClosedUnder(p: Project, s: set<string>) {
    forall n :: n in s && n in p ==> Edges(p[n]) <= s
  }

  /** The least set holding names and closed under edges. */
  ghost predicate IsClosure(p: Project, names: set<string>, r: set<string>) {
    names <= r && ClosedUnder(p, r) && forall s :: names <= s && ClosedUnder(p, s) ==> r <= s
  }

  /** Seen services lead only to seen or queued ones, and nothing is reached that every closed set would not hold. */
  ghost predicate Reached(p: Project, names: set<string>, seen: set<string>, queue: set<string>) {
    && names <= seen + queue
    && (forall n :: n in seen && n in p ==> Edges(p[n]) <= seen + queue)
    && (forall s :: names <= s && ClosedUnder(p, s) ==> seen + queue <= s)
  }

  lemma ReachMore(p: Project, names: set<string>, seen: set<string>, queue: set<string>, n: string, rest: set<string>)
    requires Reached(p, names, seen, queue) && queue == rest + {n}
    ensures n in seen ==> Reached(p, names, seen, rest)
    ensures n !in p ==> Reached(p, names, seen + {n}, rest)
    ensures n in p ==> Reached(p, names, seen + {n}, rest + Edges(p[n]))
  {
    assert seen + queue == seen + {n} + rest;
    if n in p {
      forall s | names <= s && ClosedUnder(p, s) ensures seen + {n} + (rest + Edges(p[n])) <= s {
        assert n in seen + queue;
      }
    }
  }

  method Enumerate(s: set<string>) returns (r: seq<string>)
    ensures Elements(r) == s
  {
    r := [];
    var todo := s;
    while todo != {}
      invariant todo <= s && Elements(r) == s - todo
      decreases |todo|
    {
      var k :| k in todo;
      r, todo := r + [k], todo - {k};
    }
  }

  method ServiceClosure(p: Project, names: seq<string>) returns (out: seq<string>)
    ensures IsClosure(p, Elements(names), Elements(out)) && out == SortedKeys(Elements(out))
  {
    var seen: set<string> := {};
    var queue := names;
    while |queue| > 0
      invariant Reached(p, Elements(names), seen, Elements(queue))
      decreases p.Keys - seen, |queue|
    {
      var name := queue[0];
      assert Elements(queue) == Elements(queue[1..]) + {name};
      ReachMore(p, Elements(names), seen, Elements(queue), name, Elements(queue[1..]));
      queue := queue[1..];
      if name in seen { continue; }
      seen := seen + {name};
      if name in p {
        var more := Enumerate(Edges(p[name]));
        assert Elements(queue + more) == Elements(queue) + Elements(more);
        queue := queue + more;
      }
    }
    assert Elements(queue) == {} && seen + {} == seen;
    out := SortStrings(seen);
  }

  /** makeKeepSet: every service, or the closure of those asked for. */
  method MakeKeepSet(p: Project, services: seq<string>) returns (keep: set<string>)
    ensures services == [] ==> keep == p.Keys
    ensures services != [] ==> IsClosure(p, Elements(services), keep)
  {
    if |services| == 0 { return p.Keys; }
    var closure := ServiceClosure(p, services);
    keep := set n | n in closure;
  }
}
