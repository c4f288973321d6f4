/**
  Runs that Up can make. Between any two strict dependents that disagree there is
  one in which a service starts although its condition was never looked at, so
  agreement is exactly what the gates need. (compose/orchestrator.go:156-226, 463-617)
 */
module ComposeRuns {
  import opened Prelude
  import Ordering
  import opened ComposeModel
  import opened ComposeSpec
  import opened ComposeGraph
  import opened ComposeUp
  import opened ComposeSafety

  // ---- reaching a state ----

  /** Some run leads from s to t. */
  ghost predicate Reaches(plan: Plan, s: State, t: State) {
    exists acts :: IsRun(plan, s, acts) && After(plan, s, acts) == t
  }

  lemma {:induction false} RunConcat(plan: Plan, s: State, a: seq<Action>, b: seq<Action>)
    requires IsRun(plan, s, a) && IsRun(plan, After(plan, s, a), b)
    ensures IsRun(plan, s, a + b) && After(plan, s, a + b) == After(plan, After(plan, s, a), b)
    decreases |a|
  {
    if a == [] {
      assert a + b == b;
    } else {
      RunConcat(plan, Apply(plan, s, a[0]), a[1..], b);
      assert (a + b)[0] == a[0] && (a + b)[1..] == a[1..] + b;
    }
  }

  lemma ReachSelf(plan: Plan, s: State)
    ensures Reaches(plan, s, s)
  {
    assert IsRun(plan, s, []) && After(plan, s, []) == s;
  }

  lemma ReachStep(plan: Plan, s: State, a: Action)
    requires Enabled(plan, s, a)
    ensures Reaches(plan, s, Apply(plan, s, a))
  {
    var acts := [a];
    assert acts[1..] == [];
    assert IsRun(plan, Apply(plan, s, a), acts[1..]);
    assert IsRun(plan, s, acts) && After(plan, s, acts) == Apply(plan, s, a);
  }

  lemma ReachTrans(plan: Plan, s: State, t: State, u: State)
    requires Reaches(plan, s, t) && Reaches(plan, t, u)
    ensures Reaches(plan, s, u)
  {
    var a :| IsRun(plan, s, a) && After(plan, s, a) == t;
    var b :| IsRun(plan, t, b) && After(plan, t, b) == u;
    RunConcat(plan, s, a, b);
  }

  /** Some run of Up from some world leads to s. */
  ghost predicate Reachable(plan: Plan, s: State) {
    exists w, acts :: IsUp(plan, w, acts) && After(plan, Begin(plan, w), acts) == s
  }

  lemma ReachableMore(plan: Plan, s: State, t: State)
    requires Reachable(plan, s) && Reaches(plan, s, t)
    ensures Reachable(plan, t)
  {
    var w, a :| IsUp(plan, w, a) && After(plan, Begin(plan, w), a) == s;
    var b :| IsRun(plan, s, b) && After(plan, s, b) == t;
    RunConcat(plan, Begin(plan, w), a, b);
    assert IsUp(plan, w, a + b);
  }

  lemma ReachableInv(plan: Plan, s: State)
    requires Reachable(plan, s)
    ensures ValidPlan(plan) && Inv(plan, s)
  {
    var w, a :| IsUp(plan, w, a) && After(plan, Begin(plan, w), a) == s;
    UpInv(plan, w, a);
  }

  lemma ReachAct(plan: Plan, s: State, svc: string, a: Answer, turn: Turn)
    requires s.phase.Ensuring? && svc in s.tasks && svc in plan.project && TaskStep(plan, s.world, s.ids, svc, s.tasks[svc], a) == Some(turn)
    ensures Reaches(plan, s, Acted(s, svc, turn))
  {
    ReachStep(plan, s, Act(svc, a));
  }

  // ---- a world in which everything can be attached to ----

  function StandIn(svc: string): string { "c" + svc }

  /** Every service has a container that this orchestrator did not create. */
  ghost predicate Staffed(plan: Plan, w: World) {
    forall n :: n in plan.project ==> StandIn(n) in w.containers && w.containers[StandIn(n)].service == n && w.containers[StandIn(n)].hash.None?
  }

  ghost function StaffedWorld(plan: Plan): (w: World)
    ensures Staffed(plan, w) && NoEmptyId(w)
  {
    World(map id | id in set n | n in plan.project :: StandIn(n) :: Container(id[1..], None, "", Running, NoHealth), map[])
  }

  lemma StaffedWith(plan: Plan, w: World, id: string, state: RunState, health: Health)
    requires Staffed(plan, w) && id in w.containers
    ensures Staffed(plan, With(w, id, w.containers[id].(state := state, health := health)))
  {}

  /** No entry observes d meeting cond. */
  ghost predicate Unchecked(log: seq<Event>, d: string, cond: string) {
    forall i :: 0 <= i < |log| ==> !(log[i].Observed? && log[i].svc == d && log[i].cond == cond)
  }

  // ---- ensuring a level ----

  /** t is s with svc's task moved on and nothing observed meanwhile. */
  ghost predicate Moved(plan: Plan, s: State, t: State, svc: string, task: Task) {
    && t.level == s.level && t.phase == s.phase && t.tasks == s.tasks[svc := task] && Staffed(plan, t.world)
    && forall d, cond :: Unchecked(s.log, d, cond) ==> Unchecked(t.log, d, cond)
  }

  /** From idle, a service lists its container. */
  lemma ListsIt(plan: Plan, s: State, svc: string, d: string, running: bool) returns (t: State)
    requires s.phase.Ensuring? && svc in s.tasks && svc in plan.project && s.tasks[svc].Idle? && Staffed(plan, s.world)
    requires d == Resolve(s.world.images, plan.project[svc].image) && running == s.world.containers[StandIn(svc)].state.Running?
    ensures Reaches(plan, s, t)
    ensures t == s.(tasks := s.tasks[svc := if plan.adopt then Reuse(StandIn(svc), running) else Inspecting(d, StandIn(svc), running)])
  {
    var id, w := StandIn(svc), s.world;
    var a := Acted(s, svc, Turn(Listing(d), w, None));
    ReachAct(plan, s, svc, Answer.Ok, Turn(Listing(d), w, None));
    var found := if plan.adopt then Reuse(id, running) else Inspecting(d, id, running);
    t := Acted(a, svc, Turn(found, w, None));
    ReachAct(plan, a, svc, Found(id), Turn(found, w, None));
    ReachTrans(plan, s, a, t);
  }

  /** It can be attached to. */
  lemma FindsIt(plan: Plan, s: State, svc: string) returns (t: State)
    requires s.phase.Ensuring? && svc in s.tasks && svc in plan.project && s.tasks[svc].Idle? && Staffed(plan, s.world)
    ensures Reaches(plan, s, t) && t == s.(tasks := s.tasks[svc := Reuse(StandIn(svc), s.world.containers[StandIn(svc)].state.Running?)])
  {
    var id, running := StandIn(svc), s.world.containers[StandIn(svc)].state.Running?;
    t := ListsIt(plan, s, svc, Resolve(s.world.images, plan.project[svc].image), running);
    if !plan.adopt {
      var b := t;
      t := Acted(b, svc, Turn(Reuse(id, running), b.world, None));
      ReachAct(plan, b, svc, Answer.Ok, Turn(Reuse(id, running), b.world, None));
      ReachTrans(plan, s, b, t);
    }
  }

  /** A stopped one is started. */
  lemma StartsIt(plan: Plan, s: State, svc: string) returns (t: State)
    requires s.phase.Ensuring? && svc in s.tasks && svc in plan.project && s.tasks[svc] == Starting(StandIn(svc)) && Staffed(plan, s.world)
    ensures Reaches(plan, s, t) && Moved(plan, s, t, svc, Returned(StandIn(svc)))
    ensures t.ids == s.ids && t.log == s.log + [Started(svc, StandIn(svc))]
  {
    var id := StandIn(svc);
    var turn := Turn(Returned(id), With(s.world, id, s.world.containers[id].(state := Running)), Some(Started(svc, id)));
    ReachAct(plan, s, svc, Answer.Ok, turn);
    t := Acted(s, svc, turn);
  }

  /** Either way its id comes back. */
  lemma ReturnsIt(plan: Plan, s: State, svc: string) returns (t: State)
    requires s.phase.Ensuring? && svc in s.tasks && svc in plan.project && s.tasks[svc].Idle? && Staffed(plan, s.world)
    ensures Reaches(plan, s, t) && Moved(plan, s, t, svc, Returned(StandIn(svc)))
  {
    t := FindsIt(plan, s, svc);
    if t.tasks[svc].Starting? {
      var a := t;
      t := StartsIt(plan, a, svc);
      ReachTrans(plan, s, a, t);
      assert t.tasks == s.tasks[svc := Returned(StandIn(svc))];
    }
  }

  /** And its id is recorded. */
  lemma RecordsIt(plan: Plan, s: State, svc: string, id: string) returns (t: State)
    requires s.phase.Ensuring? && svc in s.tasks && svc in plan.project && s.tasks[svc] == Returned(id)
    ensures Reaches(plan, s, t) && t.level == s.level && t.phase == s.phase && t.tasks == s.tasks[svc := Ensured(id)]
    ensures t.world == s.world && t.log == s.log + [Recorded(svc, id)]
  {
    t := Acted(s, svc, Turn(Ensured(id), s.world, Some(Recorded(svc, id))));
    ReachAct(plan, s, svc, Answer.Ok, Turn(Ensured(id), s.world, Some(Recorded(svc, id))));
  }

  lemma EnsureOne(plan: Plan, s: State, svc: string) returns (t: State)
    requires s.phase.Ensuring? && svc in s.tasks && svc in plan.project && s.tasks[svc].Idle? && Staffed(plan, s.world)
    ensures Reaches(plan, s, t) && Moved(plan, s, t, svc, Ensured(StandIn(svc)))
  {
    var a := ReturnsIt(plan, s, svc);
    t := RecordsIt(plan, a, svc, StandIn(svc));
    ReachTrans(plan, s, a, t);
    assert t.tasks == s.tasks[svc := Ensured(StandIn(svc))];
  }

  /** The tasks in todo have not begun; the others are through. */
  ghost predicate HalfDone(plan: Plan, s: State, todo: set<string>) {
    && s.phase.Ensuring? && todo <= s.tasks.Keys && Staffed(plan, s.world)
    && forall n :: n in s.tasks ==> n in plan.project && if n in todo then s.tasks[n].Idle? else s.tasks[n].Ensured?
  }

  lemma {:induction false} EnsureAll(plan: Plan, s: State, todo: set<string>) returns (t: State)
    requires HalfDone(plan, s, todo)
    ensures Reaches(plan, s, t) && HalfDone(plan, t, {}) && t.level == s.level
    ensures forall d, cond :: Unchecked(s.log, d, cond) ==> Unchecked(t.log, d, cond)
    decreases |todo|
  {
    if todo == {} {
      t := s;
      ReachSelf(plan, s);
    } else {
      var n :| n in todo;
      var a := EnsureOne(plan, s, n);
      t := EnsureAll(plan, a, todo - {n});
      ReachTrans(plan, s, a, t);
    }
  }

  // ---- passing its gate ----

  /** svc is waited for at its gate. */
  ghost predicate AtGate(plan: Plan, s: State, svc: string) {
    && s.phase.Gating? && svc in s.phase.todo && svc in s.phase.req && svc in s.ids && s.ids[svc] in s.world.containers
    && svc in plan.project && Gated(s.phase.req[svc].cond)
  }

  lemma GateIs(plan: Plan, s: State, svc: string)
    requires Reachable(plan, s) && s.phase.Gating? && svc in s.phase.todo
    ensures AtGate(plan, s, svc)
  {
    ReachableInv(plan, s);
    RequiredRecorded(plan, s, svc);
    LevelInProject(plan, s.level, svc);
    assert Wanted(plan, svc, s.phase.req[svc]);
    assert Owns(s.world, svc, s.ids[svc]);
  }

  /** A requirement can always be met: the container ends well or turns healthy. */
  lemma GateOne(plan: Plan, s: State, svc: string) returns (t: State)
    requires AtGate(plan, s, svc) && Staffed(plan, s.world)
    ensures Reaches(plan, s, t) && Staffed(plan, t.world) && t.level == s.level && t.phase == Gating(s.phase.req, s.phase.todo - {svc})
    ensures exists seen :: t.log == s.log + [Observed(svc, s.phase.req[svc].cond, seen)]
  {
    var id, cond := s.ids[svc], s.phase.req[svc].cond;
    var state := if cond == HEALTHY then Running else Exited(0);
    var drift := Drift(id, state, Healthy);
    var a := Apply(plan, s, drift);
    ReachStep(plan, s, drift);
    StaffedWith(plan, s.world, id, state, Healthy);
    assert Judge(cond, DeclaresHealthcheck(plan.project[svc]), a.world.containers[id]).Pass?;
    t := Apply(plan, a, GatePass(svc));
    ReachStep(plan, a, GatePass(svc));
    ReachTrans(plan, s, a, t);
    assert t.log == s.log + [Observed(svc, cond, a.world.containers[id])];
  }

  lemma UncheckedMore(log: seq<Event>, e: Event, d: string, cond: string)
    requires Unchecked(log, d, cond) && !(e.Observed? && e.svc == d && e.cond == cond)
    ensures Unchecked(log + [e], d, cond)
  {}

  lemma {:induction false} GateAll(plan: Plan, s: State, d: string, cond: string) returns (t: State)
    requires Reachable(plan, s) && s.phase.Gating? && Staffed(plan, s.world)
    requires Unchecked(s.log, d, cond) && (d in s.phase.req ==> s.phase.req[d].cond != cond)
    ensures Reaches(plan, s, t) && Staffed(plan, t.world) && t.level == s.level
    ensures t.phase.Gating? && t.phase.todo == {} && Unchecked(t.log, d, cond)
    decreases |s.phase.todo|
  {
    if s.phase.todo == {} {
      t := s;
      ReachSelf(plan, s);
    } else {
      var n :| n in s.phase.todo;
      GateIs(plan, s, n);
      var a := GateOne(plan, s, n);
      ReachableMore(plan, s, a);
      var seen :| a.log == s.log + [Observed(n, s.phase.req[n].cond, seen)];
      UncheckedMore(s.log, Observed(n, s.phase.req[n].cond, seen), d, cond);
      t := GateAll(plan, a, d, cond);
      ReachTrans(plan, s, a, t);
    }
  }

  // ---- from level to level ----

  /** Level k is about to begin, and nothing yet observed d meeting cond. */
  ghost predicate AtLevel(plan: Plan, s: State, k: nat, d: string, cond: string) {
    Reachable(plan, s) && Staffed(plan, s.world) && s.level == k && k < |plan.levels| && s.phase.Ensuring? && s.tasks == Tasks(plan, k) && Unchecked(s.log, d, cond)
  }

  /** This order of the services makes the gates ask something else of d. */
  ghost predicate Hides(plan: Plan, order: seq<string>, d: string, cond: string) {
    && Enumerates(plan, order)
    && forall k :: 0 <= k < |plan.levels| ==> var req := Requirements(plan, plan.levels[k], order); d in req ==> req[d].cond != cond
  }

  lemma TasksInProject(plan: Plan, k: nat)
    ensures forall n :: n in Tasks(plan, k) ==> n in plan.project && Tasks(plan, k)[n].Idle?
  {}

  lemma JoinLevel(plan: Plan, s: State, k: nat, order: seq<string>, d: string, cond: string) returns (t: State)
    requires AtLevel(plan, s, k, d, cond) && Hides(plan, order, d, cond)
    ensures Reaches(plan, s, t) && Staffed(plan, t.world) && t.level == k && t.phase.Gating?
    ensures Unchecked(t.log, d, cond) && (d in t.phase.req ==> t.phase.req[d].cond != cond)
  {
    TasksInProject(plan, k);
    var a := EnsureAll(plan, s, s.tasks.Keys);
    t := Apply(plan, a, Join(order));
    ReachStep(plan, a, Join(order));
    ReachTrans(plan, s, a, t);
  }

  lemma PassLevel(plan: Plan, s: State, k: nat, order: seq<string>, d: string, cond: string) returns (t: State)
    requires AtLevel(plan, s, k, d, cond) && Hides(plan, order, d, cond) && k + 1 < |plan.levels|
    ensures AtLevel(plan, t, k + 1, d, cond)
  {
    var a := JoinLevel(plan, s, k, order, d, cond);
    ReachableMore(plan, s, a);
    var b := GateAll(plan, a, d, cond);
    ReachableMore(plan, a, b);
    t := AdvanceTo(plan, b, k, d, cond);
  }

  lemma AdvanceTo(plan: Plan, s: State, k: nat, d: string, cond: string) returns (t: State)
    requires Reachable(plan, s) && Staffed(plan, s.world) && s.level == k && k + 1 < |plan.levels|
    requires s.phase.Gating? && s.phase.todo == {} && Unchecked(s.log, d, cond)
    ensures AtLevel(plan, t, k + 1, d, cond)
  {
    t := AdvanceFrom(plan, s);
    ReachableMore(plan, s, t);
  }

  lemma AdvanceFrom(plan: Plan, s: State) returns (t: State)
    requires s.phase.Gating? && s.phase.todo == {} && s.level + 1 < |plan.levels|
    ensures Reaches(plan, s, t) && t == State(s.world, s.ids, s.level + 1, Ensuring, Tasks(plan, s.level + 1), s.log)
  {
    t := Apply(plan, s, Advance);
    ReachStep(plan, s, Advance);
  }

  lemma {:induction false} PassTo(plan: Plan, k: nat, order: seq<string>, d: string, cond: string) returns (t: State)
    requires ValidPlan(plan) && k < |plan.levels| && Hides(plan, order, d, cond)
    ensures AtLevel(plan, t, k, d, cond)
  {
    if k == 0 {
      t := BeginAtLevel(plan, d, cond);
    } else {
      var a := PassTo(plan, k - 1, order, d, cond);
      t := PassLevel(plan, a, k - 1, order, d, cond);
    }
  }

  lemma BeginAtLevel(plan: Plan, d: string, cond: string) returns (t: State)
    requires ValidPlan(plan) && |plan.levels| > 0
    ensures AtLevel(plan, t, 0, d, cond)
  {
    var w := StaffedWorld(plan);
    t := Begin(plan, w);
    assert IsUp(plan, w, []) && After(plan, Begin(plan, w), []) == t;
  }

  // ---- the service that starts too early ----

  lemma StartsUnchecked(plan: Plan, s: State, n: string, d: string, cond: string) returns (t: State)
    requires AtLevel(plan, s, s.level, d, cond) && n in s.tasks && n in plan.project
    ensures Reachable(plan, t) && Unchecked(t.log, d, cond) && t.log != [] && t.log[|t.log| - 1] == Started(n, StandIn(n))
  {
    var a := Apply(plan, s, Drift(StandIn(n), Other, NoHealth));
    ReachStep(plan, s, Drift(StandIn(n), Other, NoHealth));
    StaffedWith(plan, s.world, StandIn(n), Other, NoHealth);
    var b := FindsIt(plan, a, n);
    ReachTrans(plan, s, a, b);
    t := StartsIt(plan, b, n);
    ReachTrans(plan, s, b, t);
    ReachableMore(plan, s, t);
  }

  /** An order that puts m first hides any condition but m's. */
  lemma FirstHides(plan: Plan, m: string, d: string, cond: string, other: string) returns (order: seq<string>)
    requires StrictlyAsks(plan, m, d, other) && other != cond
    ensures Hides(plan, order, d, cond)
  {
    var rest := Ordering.SortedKeys(plan.project.Keys - {m});
    order := [m] + rest;
    assert forall x :: x in rest <==> x in Elements(rest);
    NoDupConcat([m], rest);
    assert Enumerates(plan, order) && order[0] == m;
    forall k | 0 <= k < |plan.levels| ensures var req := Requirements(plan, plan.levels[k], order); d in req ==> req[d].cond != cond {
      if d in plan.levels[k] { FirstStrictDecides(plan, plan.levels[k], order, 0, d, other); }
      else { RequirementsAsked(plan, plan.levels[k], order, d); }
    }
  }

  /** Entry i creates or starts n's container, and no earlier one observed d meeting cond. */
  ghost predicate StartedBlind(log: seq<Event>, i: nat, n: string, d: string, cond: string) {
    i < |log| && (log[i].Created? || log[i].Started?) && log[i].svc == n && Unchecked(log[..i], d, cond)
  }

  /** A run of Up, however far it got, in which n starts although d was never seen to meet cond. */
  ghost predicate CanMiss(plan: Plan, n: string, d: string, cond: string) {
    exists w, acts, i: nat :: IsUp(plan, w, acts) && StartedBlind(After(plan, Begin(plan, w), acts).log, i, n, d, cond)
  }

  lemma DisagreementMisses(plan: Plan, n: string, d: string, cond: string, m: string, other: string)
    requires ValidPlan(plan) && n in plan.keep && n in plan.project && StrictlyAsks(plan, m, d, other) && other != cond
    ensures CanMiss(plan, n, d, cond)
  {
    PlacedIn(plan.levels, |plan.levels|, n);
    var k :| 0 <= k < |plan.levels| && n in plan.levels[k];
    var order := FirstHides(plan, m, d, cond, other);
    var s := PassTo(plan, k, order, d, cond);
    assert n in Tasks(plan, k);
    var t := StartsUnchecked(plan, s, n, d, cond);
    ReachedMisses(plan, t, n, d, cond);
  }

  lemma ReachedMisses(plan: Plan, t: State, n: string, d: string, cond: string)
    requires Reachable(plan, t) && Unchecked(t.log, d, cond) && t.log != [] && t.log[|t.log| - 1] == Started(n, StandIn(n))
    ensures CanMiss(plan, n, d, cond)
  {
    var w, acts :| IsUp(plan, w, acts) && After(plan, Begin(plan, w), acts) == t;
    var i: nat := |t.log| - 1;
    assert StartedBlind(t.log, i, n, d, cond);
  }

  /**
    Over all runs: a service that strictly requires a condition of a dependency
    never starts before that was observed exactly when every strict dependent
    asks for the same condition.
   */
  lemma GatedIffAgreed(plan: Plan, n: string, d: string, cond: string)
    requires ValidPlan(plan) && n in plan.project && d in Deps(plan.project, n) && StrictlyAsks(plan, n, d, cond)
    ensures !CanMiss(plan, n, d, cond) <==> Agreed(plan, d, cond)
  {
    if !Agreed(plan, d, cond) {
      var m, other :| StrictlyAsks(plan, m, d, other) && other != cond;
      DisagreementMisses(plan, n, d, cond, m, other);
    } else {
      forall w, acts, i: nat | IsUp(plan, w, acts) ensures !StartedBlind(After(plan, Begin(plan, w), acts).log, i, n, d, cond) {
        AgreedSees(plan, w, acts, i, n, d, cond);
      }
    }
  }

  lemma AgreedSees(plan: Plan, w: World, acts: seq<Action>, i: nat, n: string, d: string, cond: string)
    requires IsUp(plan, w, acts) && n in plan.project && d in Deps(plan.project, n) && StrictlyAsks(plan, n, d, cond) && Agreed(plan, d, cond)
    ensures !StartedBlind(After(plan, Begin(plan, w), acts).log, i, n, d, cond)
  {
    var log := After(plan, Begin(plan, w), acts).log;
    if i < |log| && (log[i].Created? || log[i].Started?) && log[i].svc == n {
      StartsAfterConditions(plan, w, acts, i, d, cond);
      var j :| 0 <= j < i && log[j].Observed? && log[j].svc == d && log[j].cond == cond;
      assert log[..i][j] == log[j];
    }
  }

  // ---- the smallest such project ----

  /** A service of no other's namespaces. */
  function Plain(base: Service, name: string, dependsOn: map<string, Dependency>): Service {
    base.(name := name, networkMode := "", pid := "", ipc := "", dependsOn := dependsOn)
  }

  /** a waits for db to be healthy, b for db to complete. */
  function TwoMinds(base: Service, adopt: bool, cx: Context): Plan {
    var a := Plain(base, "a", map["db" := Dependency(HEALTHY, true)]);
    var b := Plain(base, "b", map["db" := Dependency(COMPLETED, true)]);
    Plan(map["a" := a, "b" := b, "db" := Plain(base, "db", map[])], [["db"], ["a", "b"]], {"a", "b", "db"}, adopt, cx)
  }

  lemma SortedPair()
    ensures ["a", "b"] == Ordering.SortedKeys({"a", "b"}) && ["db"] == Ordering.SortedKeys({"db"})
  {
    var less := Ordering.Less;
    Ordering.LessOrders({"a", "b"});
    assert Elements(["a", "b"]) == {"a", "b"} && Ordering.Less("a", "b");
    Ordering.LessAsymmetric("a", "b");
    Ordering.SortUnique(less, ["a", "b"], Ordering.SortedKeys({"a", "b"}));
    Ordering.LessOrders({"db"});
    assert Elements(["db"]) == {"db"};
    Ordering.SortUnique(less, ["db"], Ordering.SortedKeys({"db"}));
  }

  lemma TwoMindsGraph(base: Service, adopt: bool, cx: Context)
    ensures GraphOf(TwoMinds(base, adopt, cx).project) == map["a" := {"db"}, "b" := {"db"}, "db" := {}]
  {
    var p := TwoMinds(base, adopt, cx).project;
    assert Edges(p["a"]) == {"db"} && Edges(p["b"]) == {"db"} && Edges(p["db"]) == {};
    assert Deps(p, "a") == {"db"} && Deps(p, "b") == {"db"} && Deps(p, "db") == {};
  }

  lemma TwoMindsLevels(deps: map<string, set<string>>, levels: seq<Level>)
    requires deps == map["a" := {"db"}, "b" := {"db"}, "db" := {}] && levels == [["db"], ["a", "b"]]
    ensures AreLevels(deps, levels) && Placed(levels, |levels|) == deps.Keys
  {
    SortedPair();
    assert Elements(levels[0]) == {"db"} && Elements(levels[1]) == {"a", "b"};
    assert Placed(levels, 0) == {} && Placed(levels, 1) == {"db"} && Placed(levels, 2) == {"a", "b", "db"};
    assert IsLevel(deps, levels, 0);
    forall n | n in levels[1] ensures n in deps && deps[n] == {"db"} { assert n in Elements(levels[1]); }
    assert "db" in levels[0];
    assert IsLevel(deps, levels, 1);
  }

  lemma TwoMindsNames(base: Service, adopt: bool, cx: Context)
    ensures var plan := TwoMinds(base, adopt, cx);
      plan.keep == plan.project.Keys && (forall n :: n in plan.project ==> plan.project[n].name == n) && plan.levels == [["db"], ["a", "b"]]
  {}

  lemma TwoMindsValid(base: Service, adopt: bool, cx: Context)
    ensures ValidPlan(TwoMinds(base, adopt, cx))
  {
    TwoMindsGraph(base, adopt, cx);
    TwoMindsNames(base, adopt, cx);
    TwoLevelsValid(TwoMinds(base, adopt, cx), map["a" := {"db"}, "b" := {"db"}, "db" := {}]);
  }

  lemma TwoLevelsValid(plan: Plan, deps: map<string, set<string>>)
    requires plan.keep == plan.project.Keys && (forall n :: n in plan.project ==> plan.project[n].name == n) && plan.levels == [["db"], ["a", "b"]]
    requires GraphOf(plan.project) == deps == map["a" := {"db"}, "b" := {"db"}, "db" := {}]
    ensures ValidPlan(plan)
  {
    TwoMindsLevels(deps, plan.levels);
    AllKeptValid(plan);
  }

  lemma AllKeptValid(plan: Plan)
    requires plan.keep == plan.project.Keys && (forall n :: n in plan.project ==> plan.project[n].name == n)
    requires AreLevels(GraphOf(plan.project), plan.levels) && Placed(plan.levels, |plan.levels|) == plan.project.Keys
    ensures ValidPlan(plan)
  {}

  /** A project Up accepts, and a run of it in which a starts although db was never seen healthy. */
  lemma ConditionMissed(base: Service, adopt: bool, cx: Context)
    ensures var plan := TwoMinds(base, adopt, cx);
      ValidPlan(plan) && StrictlyAsks(plan, "a", "db", HEALTHY) && CanMiss(plan, "a", "db", HEALTHY)
  {
    var plan := TwoMinds(base, adopt, cx);
    TwoMindsValid(base, adopt, cx);
    assert StrictlyAsks(plan, "b", "db", COMPLETED);
    DisagreementMisses(plan, "a", "db", HEALTHY, "b", COMPLETED);
  }
}
