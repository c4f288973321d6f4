/**
  Orchestrator.Down: dependents are torn down before what they depend on, and a
  removal that fails midway leaves no dependent without its dependencies.
  (compose/orchestrator.go:228-280, 899-957)
 */
module ComposeDown {
  import opened Prelude
  import opened Ordering
  import opened Graphs
  import opened ComposeModel
  import opened ComposeGraph

  /** A container as ListContainers shows it; service is its compose service label, or "". */
  datatype Box = Box(project: string, service: string, name: string)

  type Boxes = map<string, Box>

  /** serviceLabelOf. */
  function ServiceOf(b: Box): string {
    if b.service != "" then b.service else b.name
  }

  function LevelOf(index: map<string, nat>, svc: string): nat {
    if svc in index then index[svc] else 0
  }

  /** Later levels first, then by name. */
  predicate Before(index: map<string, nat>, a: Box, b: Box) {
    var la, lb := LevelOf(index, ServiceOf(a)), LevelOf(index, ServiceOf(b));
    if la != lb then la > lb else Less(a.name, b.name)
  }

  function BeforeIn(boxes: Boxes, index: map<string, nat>): (string, string) -> bool {
    (a: string, b: string) => a in boxes && b in boxes && Before(index, boxes[a], boxes[b])
  }

  lemma BeforeWeak(boxes: Boxes, index: map<string, nat>)
    ensures StrictWeak(BeforeIn(boxes, index), boxes.Keys)
  {
    var less := BeforeIn(boxes, index);
    forall x, y, z | x in boxes && y in boxes && z in boxes && less(x, y) ensures !less(y, x) && (less(x, z) || less(z, y)) {
      LessOrders({boxes[x].name, boxes[y].name, boxes[z].name});
    }
  }

  /** levelIdx: the level of each service. */
  ghost predicate IsIndex(levels: seq<Level>, k: nat, index: map<string, nat>)
    requires k <= |levels|
  {
    && (forall n :: n in index ==> index[n] < k && n in levels[index[n]])
    && (forall n, i :: 0 <= i < k && n in levels[i] ==> n in index && index[n] == i)
  }

  ghost predicate DisjointLevels(levels: seq<Level>) {
    forall i, j, n :: 0 <= i < |levels| && 0 <= j < |levels| && n in levels[i] && n in levels[j] ==> i == j
  }

  lemma LevelsDisjoint(deps: map<string, set<string>>, levels: seq<Level>)
    requires AreLevels(deps, levels)
    ensures DisjointLevels(levels)
  {
    forall i, j, n | 0 <= i < |levels| && 0 <= j < |levels| && n in levels[i] && n in levels[j] ensures i == j {
      assert IsLevel(deps, levels, i) && IsLevel(deps, levels, j);
      PlacedIn(levels, i, n);
      PlacedIn(levels, j, n);
      assert n in Elements(levels[i]) && n in Elements(levels[j]);
    }
  }

  method BuildIndex(levels: seq<Level>) returns (index: map<string, nat>)
    requires DisjointLevels(levels)
    ensures IsIndex(levels, |levels|, index)
  {
    index := map[];
    for i := 0 to |levels|
      invariant IsIndex(levels, i, index)
    {
      var before := index;
      for j := 0 to |levels[i]|
        invariant forall n :: n in index <==> n in before || n in levels[i][..j]
        invariant forall n :: n in index ==> index[n] == if n in before then before[n] else i
      {
        index := index[levels[i][j] := i];
      }
      assert levels[i][..|levels[i]|] == levels[i];
    }
  }

  /** order lists the ids, later levels first when the project sorts, else by name. */
  ghost predicate IsTeardown(project: Option<Project>, boxes: Boxes, ids: set<string>, order: seq<string>) {
    && NoDup(order) && Elements(order) == ids && ids <= boxes.Keys
    && (if project.Some? && Acyclic(EdgeSet(GraphOf(project.value))) then
          exists levels, index :: Indexes(project.value, levels, index) && SortedBy(BeforeIn(boxes, index), order)
        else ByName(boxes, order))
  }

  ghost predicate ByName(boxes: Boxes, order: seq<string>) {
    forall i, j :: 0 <= i < j < |order| ==> order[i] in boxes && order[j] in boxes && !Less(boxes[order[j]].name, boxes[order[i]].name)
  }

  lemma NoLevelsByName(boxes: Boxes, order: seq<string>)
    requires SortedBy(BeforeIn(boxes, map[]), order) && forall id :: id in order ==> id in boxes
    ensures ByName(boxes, order)
  {
    forall i, j | 0 <= i < j < |order| ensures order[i] in boxes && order[j] in boxes && !Less(boxes[order[j]].name, boxes[order[i]].name) {
      assert order[i] in order && order[j] in order && !BeforeIn(boxes, map[])(order[j], order[i]);
    }
  }

  /** index gives each service its level. */
  ghost predicate Indexes(project: Project, levels: seq<Level>, index: map<string, nat>) {
    AreLevels(GraphOf(project), levels) && Placed(levels, |levels|) == project.Keys && IsIndex(levels, |levels|, index)
  }

  /** orderContainersForTeardown: by level when the project sorts, else by name. */
  method OrderForTeardown(project: Option<Project>, boxes: Boxes, listed: seq<string>) returns (order: seq<string>)
    requires NoDup(listed) && Elements(listed) <= boxes.Keys
    ensures IsTeardown(project, boxes, Elements(listed), order)
  {
    var index: map<string, nat> := map[];
    ghost var levels: seq<Level> := [];
    if project.Some? {
      var sorted := TopoSort(project.value);
      if sorted.Levels? {
        levels := sorted.levels;
        LevelsDisjoint(GraphOf(project.value), sorted.levels);
        index := BuildIndex(sorted.levels);
        assert Indexes(project.value, levels, index);
      }
    }
    BeforeWeak(boxes, index);
    order := Sort<string>(listed, BeforeIn(boxes, index), boxes.Keys);
    PermutedNoDup(listed, order);
    assert Elements(order) == Elements(listed);
    if index == map[] { NoLevelsByName(boxes, order); }
  }

  // ---- dependents come first ----

  /** m stands on a lower level than n. */
  ghost predicate Lower(levels: seq<Level>, n: string, m: string) {
    exists k, j :: 0 <= j < k < |levels| && n in levels[k] && m in levels[j]
  }

  lemma LowerLevel(deps: map<string, set<string>>, levels: seq<Level>, k: nat, n: string, m: string)
    requires k < |levels| && IsLevel(deps, levels, k) && n in levels[k] && n in deps && m in deps[n]
    ensures Lower(levels, n, m)
  {
    PlacedIn(levels, k, m);
    var j :| 0 <= j < k && m in levels[j];
  }

  lemma EdgesLower(deps: map<string, set<string>>, levels: seq<Level>)
    requires AreLevels(deps, levels) && Placed(levels, |levels|) == deps.Keys
    ensures forall n, m :: (n, m) in EdgeSet(deps) ==> Lower(levels, n, m)
  {
    forall n, m | (n, m) in EdgeSet(deps) ensures Lower(levels, n, m) {
      var k := LevelHolding(levels, n);
      LowerLevel(deps, levels, k, n, m);
    }
  }

  lemma LevelHolding(levels: seq<Level>, n: string) returns (k: nat)
    requires n in Placed(levels, |levels|)
    ensures k < |levels| && n in levels[k]
  {
    PlacedIn(levels, |levels|, n);
    k :| 0 <= k < |levels| && n in levels[k];
  }

  ghost predicate Descends(index: map<string, nat>, n: string, m: string) {
    n in index && m in index && index[n] > index[m]
  }

  lemma EdgesDescend(deps: map<string, set<string>>, levels: seq<Level>, index: map<string, nat>)
    requires IsIndex(levels, |levels|, index) && forall n, m :: (n, m) in EdgeSet(deps) ==> Lower(levels, n, m)
    ensures forall n, m :: (n, m) in EdgeSet(deps) ==> Descends(index, n, m)
  {
    forall n, m | (n, m) in EdgeSet(deps) ensures Descends(index, n, m) {
      assert Lower(levels, n, m);
    }
  }

  /** Following dependencies leads to strictly lower levels. */
  lemma {:induction false} PathDescends(deps: map<string, set<string>>, index: map<string, nat>, p: seq<string>)
    requires forall n, m :: (n, m) in EdgeSet(deps) ==> Descends(index, n, m)
    requires IsPath(EdgeSet(deps), p) && |p| >= 2
    ensures Descends(index, p[0], p[|p| - 1])
  {
    assert Descends(index, p[0], p[1]);
    if |p| > 2 { PathDescends(deps, index, p[1..]); }
  }

  /** n reaches m through one or more dependencies. */
  ghost predicate DependsOn(project: Project, n: string, m: string) {
    exists p :: IsPath(EdgeSet(GraphOf(project)), p) && |p| >= 2 && p[0] == n && p[|p| - 1] == m
  }

  /** The box is a container of service n by its label, or by its name when it has no label. */
  ghost predicate Serves(b: Box, n: string) {
    (b.service == n && n != "") || (b.service == "" && b.name == n)
  }

  lemma ServesIs(b: Box, n: string)
    ensures Serves(b, n) <==> ServiceOf(b) == n
  {}

  /** n stands on level k; a service of no level counts as on the lowest. */
  ghost predicate StandsOn(levels: seq<Level>, n: string, k: nat) {
    (k < |levels| && n in levels[k]) || (k == 0 && forall j :: 0 <= j < |levels| ==> n !in levels[j])
  }

  /** a's level is higher than b's, or the same and its name not later. */
  ghost predicate NotAfter(levels: seq<Level>, a: Box, b: Box) {
    forall n, m, k: nat, l: nat :: Serves(a, n) && Serves(b, m) && StandsOn(levels, n, k) && StandsOn(levels, m, l) ==>
      k >= l && (k == l ==> !Less(b.name, a.name))
  }

  /** The order is by level, the last first, and by name within a level. */
  lemma TeardownOrder(project: Project, boxes: Boxes, ids: set<string>, order: seq<string>) returns (levels: seq<Level>)
    requires Acyclic(EdgeSet(GraphOf(project))) && IsTeardown(Some(project), boxes, ids, order)
    ensures AreLevels(GraphOf(project), levels) && Placed(levels, |levels|) == project.Keys
    ensures forall i, j :: 0 <= i < j < |order| ==> order[i] in boxes && order[j] in boxes && NotAfter(levels, boxes[order[i]], boxes[order[j]])
  {
    var ls, index :| Indexes(project, ls, index) && SortedBy(BeforeIn(boxes, index), order);
    levels := ls;
    forall i, j | 0 <= i < j < |order| ensures order[i] in boxes && order[j] in boxes && NotAfter(levels, boxes[order[i]], boxes[order[j]]) {
      assert order[i] in Elements(order) && order[j] in Elements(order) && !BeforeIn(boxes, index)(order[j], order[i]);
      PairInOrder(levels, index, boxes[order[i]], boxes[order[j]]);
    }
  }

  lemma PairInOrder(levels: seq<Level>, index: map<string, nat>, a: Box, b: Box)
    requires IsIndex(levels, |levels|, index) && !Before(index, b, a)
    ensures NotAfter(levels, a, b)
  {
    forall n, m, k: nat, l: nat | Serves(a, n) && Serves(b, m) && StandsOn(levels, n, k) && StandsOn(levels, m, l)
      ensures k >= l && (k == l ==> !Less(b.name, a.name))
    {
      ServesIs(a, n);
      ServesIs(b, m);
      IndexStands(levels, index, n, k);
      IndexStands(levels, index, m, l);
    }
  }

  lemma IndexStands(levels: seq<Level>, index: map<string, nat>, n: string, k: nat)
    requires IsIndex(levels, |levels|, index) && StandsOn(levels, n, k)
    ensures LevelOf(index, n) == k
  {}

  /** Every container of a dependent precedes every container of what it depends on, directly or not. */
  lemma DependentsFirst(project: Project, boxes: Boxes, ids: set<string>, order: seq<string>, i: nat, n: string, j: nat, m: string)
    requires Acyclic(EdgeSet(GraphOf(project))) && IsTeardown(Some(project), boxes, ids, order) && i < |order| && j < |order|
    requires order[i] in boxes && order[j] in boxes && Serves(boxes[order[i]], n) && Serves(boxes[order[j]], m) && DependsOn(project, n, m)
    ensures i < j
  {
    ServesIs(boxes[order[i]], n);
    ServesIs(boxes[order[j]], m);
    var levels, index :| Indexes(project, levels, index) && SortedBy(BeforeIn(boxes, index), order);
    var p :| IsPath(EdgeSet(GraphOf(project)), p) && |p| >= 2 && p[0] == n && p[|p| - 1] == m;
    EdgesLower(GraphOf(project), levels);
    EdgesDescend(GraphOf(project), levels, index);
    PathDescends(GraphOf(project), index, p);
    HigherFirst(boxes, index, order, i, j);
  }

  lemma HigherFirst(boxes: Boxes, index: map<string, nat>, order: seq<string>, i: nat, j: nat)
    requires SortedBy(BeforeIn(boxes, index), order) && i < |order| && j < |order| && order[i] in boxes && order[j] in boxes
    requires LevelOf(index, ServiceOf(boxes[order[i]])) > LevelOf(index, ServiceOf(boxes[order[j]]))
    ensures i < j
  {
    assert BeforeIn(boxes, index)(order[i], order[j]);
  }

  // ---- the teardown ----

  datatype Call = Stopped(id: string) | Gone(id: string)

  /** Stopping and removing each container in turn. */
  ghost function Teardown(order: seq<string>): seq<Call> {
    if order == [] then [] else Teardown(order[..|order| - 1]) + [Stopped(order[|order| - 1]), Gone(order[|order| - 1])]
  }

  /** What Down leaves when the first n of order are removed: nothing else changed, and on failure the next one was stopped. */
  ghost predicate TornDown(boxes: Boxes, boxes': Boxes, order: seq<string>, n: nat, ok: bool, calls: seq<Call>) {
    && n <= |order| && boxes' == boxes - Elements(order[..n])
    && (if ok then n == |order| && calls == Teardown(order) else n < |order| && calls == Teardown(order[..n]) + [Stopped(order[n])])
  }

  /** The backend. Which calls fail is up to it: answers says whether listing does, refuses which removals do. */
  class Runtime {
    var boxes: Boxes
    ghost var calls: seq<Call>
    const answers: bool
    const refuses: string -> bool

    constructor (boxes: Boxes, answers: bool, refuses: string -> bool)
      ensures this.boxes == boxes && calls == []
    {
      this.boxes, this.calls, this.answers, this.refuses := boxes, [], answers, refuses;
    }

    method List(project: string) returns (r: Option<seq<string>>)
      ensures r.Some? <==> answers
      ensures r.Some? ==> NoDup(r.value) && Elements(r.value) == (set id | id in boxes && boxes[id].project == project)
    {
      if !answers { return None; }
      var out: seq<string> := [];
      var todo := boxes.Keys;
      while todo != {}
        invariant todo <= boxes.Keys && NoDup(out)
        invariant forall id :: id in out <==> id in boxes && id !in todo && boxes[id].project == project
        decreases |todo|
      {
        var id :| id in todo;
        if boxes[id].project == project { out := out + [id]; }
        todo := todo - {id};
      }
      assert Elements(out) == (set id | id in boxes && boxes[id].project == project);
      return Some(out);
    }

    method Stop(id: string)
      modifies this`calls
      ensures calls == old(calls) + [Stopped(id)]
    {
      calls := calls + [Stopped(id)];
    }

    method Remove(id: string) returns (ok: bool)
      modifies this
      ensures ok == !refuses(id)
      ensures boxes == if ok then old(boxes) - {id} else old(boxes)
      ensures calls == if ok then old(calls) + [Gone(id)] else old(calls)
    {
      if refuses(id) { return false; }
      boxes := boxes - {id};
      calls := calls + [Gone(id)];
      return true;
    }

    /** Down: everything listed for the project, in teardown order, until a removal fails. */
    method Down(projectName: string, project: Option<Project>) returns (ok: bool, ghost order: seq<string>, ghost n: nat)
      modifies this
      ensures projectName == "" || !answers ==> !ok && boxes == old(boxes) && calls == old(calls)
      ensures projectName != "" && answers ==>
        && IsTeardown(project, old(boxes), (set id | id in old(boxes) && old(boxes)[id].project == projectName), order)
        && old(calls) <= calls && TornDown(old(boxes), boxes, order, n, ok, calls[|old(calls)|..])
    {
      order, n := [], 0;
      if projectName == "" { return false, order, n; }
      var listed := List(projectName);
      if listed.None? { return false, order, n; }
      var containers := OrderForTeardown(project, boxes, listed.value);
      order := containers;
      for i := 0 to |containers|
        invariant order == containers && n == i
        invariant Removed(old(boxes), old(calls), order, i, boxes, calls)
      {
        RemovedOne(old(boxes), old(calls), order, i, boxes, calls);
        Stop(containers[i]);
        var removed := Remove(containers[i]);
        if !removed { return false, order, n; }
        n := n + 1;
      }
      RemovedAll(old(boxes), old(calls), order, boxes, calls);
      return true, order, n;
    }
  }

  lemma RemovedAll(boxes0: Boxes, calls0: seq<Call>, order: seq<string>, boxes: Boxes, calls: seq<Call>)
    requires Removed(boxes0, calls0, order, |order|, boxes, calls)
    ensures calls0 <= calls && TornDown(boxes0, boxes, order, |order|, true, calls[|calls0|..])
  {
    assert order[..|order|] == order;
  }

  /** The first i of order are gone. */
  ghost predicate Removed(boxes0: Boxes, calls0: seq<Call>, order: seq<string>, i: nat, boxes: Boxes, calls: seq<Call>) {
    i <= |order| && boxes == boxes0 - Elements(order[..i]) && calls == calls0 + Teardown(order[..i])
  }

  lemma RemovedOne(boxes0: Boxes, calls0: seq<Call>, order: seq<string>, i: nat, boxes: Boxes, calls: seq<Call>)
    requires Removed(boxes0, calls0, order, i, boxes, calls) && i < |order|
    ensures Removed(boxes0, calls0, order, i + 1, boxes - {order[i]}, calls + [Stopped(order[i])] + [Gone(order[i])])
    ensures calls0 <= calls + [Stopped(order[i])] && TornDown(boxes0, boxes, order, i, false, (calls + [Stopped(order[i])])[|calls0|..])
  {
    assert (calls + [Stopped(order[i])])[|calls0|..] == Teardown(order[..i]) + [Stopped(order[i])];
    assert order[..i + 1][..i] == order[..i];
    assert Elements(order[..i + 1]) == Elements(order[..i]) + {order[i]};
  }

  lemma {:induction false} TeardownCalls(order: seq<string>, m: nat)
    ensures |Teardown(order)| == 2 * |order|
    ensures m < 2 * |order| ==> Teardown(order)[m] == if m % 2 == 0 then Stopped(order[m / 2]) else Gone(order[m / 2])
  {
    if order != [] { TeardownCalls(order[..|order| - 1], m); }
  }

  /** Whatever Down did, call m was for the container at place m / 2 of the order. */
  lemma CallAt(boxes: Boxes, boxes': Boxes, order: seq<string>, n: nat, ok: bool, calls: seq<Call>, m: nat)
    requires TornDown(boxes, boxes', order, n, ok, calls) && m < |calls|
    ensures m / 2 < |order| && calls[m] == if m % 2 == 0 then Stopped(order[m / 2]) else Gone(order[m / 2])
  {
    assert order[..|order|] == order;
    TeardownCalls(order[..n], m);
  }

  /**
    However far Down got: when a container was stopped or removed, every
    container that depends on it, directly or not, had been removed before.
   */
  lemma NoOrphans(project: Project, boxes: Boxes, boxes': Boxes, ids: set<string>, order: seq<string>, n: nat, ok: bool, calls: seq<Call>, m: nat,
                  dependent: string, service: string, needed: string)
    requires Acyclic(EdgeSet(GraphOf(project))) && IsTeardown(Some(project), boxes, ids, order) && TornDown(boxes, boxes', order, n, ok, calls)
    requires m < |calls| && calls[m].id in boxes && dependent in ids && dependent in boxes
    requires Serves(boxes[dependent], service) && Serves(boxes[calls[m].id], needed) && DependsOn(project, service, needed)
    ensures exists k :: 0 <= k < m && calls[k] == Gone(dependent)
  {
    CallAt(boxes, boxes', order, n, ok, calls, m);
    var i := PlaceOf(project, boxes, ids, order, dependent);
    DependentsFirst(project, boxes, ids, order, i, service, m / 2, needed);
    GoneBefore(boxes, boxes', order, n, ok, calls, i, m);
  }

  lemma PlaceOf(project: Project, boxes: Boxes, ids: set<string>, order: seq<string>, id: string) returns (i: nat)
    requires IsTeardown(Some(project), boxes, ids, order) && id in ids
    ensures i < |order| && order[i] == id && id in boxes
  {
    assert id in Elements(order);
    i := Find(order, id);
  }

  lemma GoneBefore(boxes: Boxes, boxes': Boxes, order: seq<string>, n: nat, ok: bool, calls: seq<Call>, i: nat, m: nat)
    requires TornDown(boxes, boxes', order, n, ok, calls) && m < |calls| && i < m / 2 < |order|
    ensures exists k :: 0 <= k < m && calls[k] == Gone(order[i])
  {
    CallAt(boxes, boxes', order, n, ok, calls, 2 * i + 1);
    assert calls[2 * i + 1] == Gone(order[i]);
  }

  ghost function Find(s: seq<string>, x: string): (i: nat)
    requires x in s
    ensures i < |s| && s[i] == x
  {
    var i: nat :| i < |s| && s[i] == x; i
  }

  /** A Down that ends well removed the project's containers and no others. */
  lemma DownComplete(project: Option<Project>, boxes: Boxes, boxes': Boxes, projectName: string, order: seq<string>, n: nat, calls: seq<Call>)
    requires IsTeardown(project, boxes, (set id | id in boxes && boxes[id].project == projectName), order) && TornDown(boxes, boxes', order, n, true, calls)
    ensures boxes' == map id | id in boxes && boxes[id].project != projectName :: boxes[id]
  {
    assert order[..n] == order;
  }
}
