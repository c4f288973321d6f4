/**
  What every run of Up keeps, for every interleaving of a level's goroutines,
  every pattern of failures and every map order. (compose/orchestrator.go:103-226, 463-617)
 */
module ComposeSafety {
  import opened Prelude
  import Ordering
  import Graphs
  import opened ComposeModel
  import opened ComposeSpec
  import opened ComposeGraph
  import opened ComposeUp

  /** A plan as Up starts from it: the levels TopoSort returned, and a keep set closed under dependencies on services of the project. */
  ghost predicate ValidPlan(plan: Plan) {
    && (forall n :: n in plan.project ==> plan.project[n].name == n)
    && AreLevels(GraphOf(plan.project), plan.levels) && Placed(plan.levels, |plan.levels|) == plan.project.Keys
    && (forall n :: n in plan.keep && n in plan.project ==> Deps(plan.project, n) <= plan.keep)
  }

  /** The start of Up: levels and keep set, whatever services are asked for and whatever absent names they mention; it fails exactly on a cycle. */
  method MakePlan(project: Project, services: seq<string>, adopt: bool, cx: Context) returns (r: Option<Plan>)
    requires forall n :: n in project ==> project[n].name == n
    ensures r.None? <==> !Graphs.Acyclic(EdgeSet(GraphOf(project)))
    ensures r.Some? ==> ValidPlan(r.value) && r.value.project == project && r.value.adopt == adopt && r.value.cx == cx
    ensures r.Some? ==> if services == [] then r.value.keep == project.Keys else IsClosure(project, Elements(services), r.value.keep)
  {
    var sorted := TopoSort(project);
    if sorted.Cycle? { return None; }
    var keep := MakeKeepSet(project, services);
    KeepClosed(project, services, keep);
    return Some(Plan(project, sorted.levels, keep, adopt, cx));
  }

  lemma KeepClosed(project: Project, services: seq<string>, keep: set<string>)
    requires if services == [] then keep == project.Keys else IsClosure(project, Elements(services), keep)
    ensures forall n :: n in keep && n in project ==> Deps(project, n) <= keep
  {
    forall n | n in keep && n in project ensures Deps(project, n) <= keep {
      if services != [] { assert Edges(project[n]) <= keep; }
    }
  }

  // ---- requirements ----

  /** n, brought up by this plan, waits for d to meet cond before it starts. */
  ghost predicate Asks(plan: Plan, n: string, d: string, r: Requirement) {
    n in plan.keep && n in plan.project && d in plan.project[n].dependsOn &&
    Gated(r.cond) && plan.project[n].dependsOn[d] == Dependency(r.cond, !r.optional)
  }

  ghost predicate StrictlyAsks(plan: Plan, n: string, d: string, cond: string) {
    Asks(plan, n, d, Requirement(cond, false))
  }

  lemma ContributionIs(plan: Plan, level: Level, n: string, prev: map<string, Requirement>, d: string, r: Requirement)
    ensures var c := Contribution(plan, level, n, prev);
      (d in c && c[d] == r) <==> d in level && Asks(plan, n, d, r) && (d in prev ==> prev[d].optional)
  {}

  /** Every requirement was asked for, and nothing asked for is missing: a strict one stays strict. */
  lemma {:induction false} RequirementsAsked(plan: Plan, level: Level, order: seq<string>, d: string)
    ensures var req := Requirements(plan, level, order);
      && (d in req ==> d in level && exists n :: n in order && Asks(plan, n, d, req[d]))
      && (forall n, r :: n in order && d in level && Asks(plan, n, d, r) ==> d in req && (!r.optional ==> !req[d].optional))
  {
    if order != [] {
      var k := |order| - 1;
      var prev, n := Requirements(plan, level, order[..k]), order[k];
      var adds := Contribution(plan, level, n, prev);
      var req := prev + adds;
      RequirementsAsked(plan, level, order[..k], d);
      assert n in order;
      if d in adds { ContributionIs(plan, level, n, prev, d, adds[d]); }
      else if d in prev { var m :| m in order[..k] && Asks(plan, m, d, prev[d]); assert m in order; }
      forall m, r | m in order && d in level && Asks(plan, m, d, r) ensures d in req && (!r.optional ==> !req[d].optional) {
        ContributionIs(plan, level, n, prev, d, r);
        if m != n { assert m in order[..k]; }
        if m in order[..k] && d in adds { ContributionIs(plan, level, n, prev, d, adds[d]); }
      }
    }
  }

  /** The first dependent in map order that asks strictly decides the condition that is checked. */
  lemma {:induction false} FirstStrictDecides(plan: Plan, level: Level, order: seq<string>, i: nat, d: string, cond: string)
    requires i < |order| && d in level && StrictlyAsks(plan, order[i], d, cond)
    requires forall j, c :: 0 <= j < i ==> !StrictlyAsks(plan, order[j], d, c)
    ensures var req := Requirements(plan, level, order); d in req && req[d] == Requirement(cond, false)
  {
    var k := |order| - 1;
    var prev := Requirements(plan, level, order[..k]);
    if i < k {
      FirstStrictDecides(plan, level, order[..k], i, d, cond);
      var adds := Contribution(plan, level, order[k], prev);
      if d in adds { ContributionIs(plan, level, order[k], prev, d, adds[d]); }
    } else {
      NoStrictYet(plan, level, order[..k], d);
      ContributionIs(plan, level, order[k], prev, d, Requirement(cond, false));
    }
  }

  lemma NoStrictYet(plan: Plan, level: Level, order: seq<string>, d: string)
    requires forall j, c :: 0 <= j < |order| ==> !StrictlyAsks(plan, order[j], d, c)
    ensures var req := Requirements(plan, level, order); d in req ==> req[d].optional
  {
    RequirementsAsked(plan, level, order, d);
    var req := Requirements(plan, level, order);
    if d in req {
      var n :| n in order && Asks(plan, n, d, req[d]);
      var j :| 0 <= j < |order| && order[j] == n;
      assert !StrictlyAsks(plan, order[j], d, req[d].cond);
    }
  }

  ghost predicate Enumerates(plan: Plan, order: seq<string>) {
    NoDup(order) && Elements(order) == plan.project.Keys
  }

  /** Every kept service that strictly asks for d asks for cond. */
  ghost predicate Agreed(plan: Plan, d: string, cond: string) {
    forall n, c :: StrictlyAsks(plan, n, d, c) ==> c == cond
  }

  ghost predicate AlwaysChecks(plan: Plan, level: Level, d: string, cond: string) {
    forall order :: Enumerates(plan, order) ==> d in Requirements(plan, level, order) && Requirements(plan, level, order)[d].cond == cond
  }

  /** A strictly required condition is the one checked under every map order exactly when all strict dependents agree on it. */
  lemma CheckedIffAgreed(plan: Plan, level: Level, d: string, n: string, cond: string)
    requires d in level && StrictlyAsks(plan, n, d, cond)
    ensures AlwaysChecks(plan, level, d, cond) <==> Agreed(plan, d, cond)
  {
    if Agreed(plan, d, cond) {
      forall order | Enumerates(plan, order) ensures d in Requirements(plan, level, order) && Requirements(plan, level, order)[d].cond == cond {
        AgreedChecked(plan, level, order, d, n, cond);
      }
    }
    if AlwaysChecks(plan, level, d, cond) {
      forall m, c | StrictlyAsks(plan, m, d, c) ensures c == cond {
        var rest := Ordering.SortedKeys(plan.project.Keys - {m});
        var order := [m] + rest;
        assert forall x :: x in rest <==> x in Elements(rest);
        NoDupConcat([m], rest);
        assert Enumerates(plan, order);
        assert order[0] == m;
        FirstStrictDecides(plan, level, order, 0, d, c);
      }
    }
  }

  lemma AgreedChecked(plan: Plan, level: Level, order: seq<string>, d: string, n: string, cond: string)
    requires d in level && StrictlyAsks(plan, n, d, cond) && Agreed(plan, d, cond) && Enumerates(plan, order)
    ensures var req := Requirements(plan, level, order); d in req && req[d] == Requirement(cond, false)
  {
    RequirementsAsked(plan, level, order, d);
    assert n in Elements(order);
    var r := Requirements(plan, level, order)[d];
    var m :| m in order && Asks(plan, m, d, r);
    assert StrictlyAsks(plan, m, d, r.cond);
  }

  // ---- what the log shows ----

  ghost predicate RecordedIn(log: seq<Event>, d: string) {
    exists i :: 0 <= i < |log| && log[i].Recorded? && log[i].svc == d
  }

  /** c is healthy, or runs and has no healthcheck to report; or it ended well. */
  ghost predicate Satisfies(declares: bool, cond: string, c: Container) {
    if cond == HEALTHY then c.health.Healthy? || (c.health.NoHealth? && c.state.Running? && !declares)
    else cond == COMPLETED && c.state == Exited(0)
  }

  lemma PassSatisfies(cond: string, declares: bool, c: Container)
    ensures Judge(cond, declares, c).Pass? <==> Satisfies(declares, cond, c)
  {}

  /** e observes d meeting a condition some kept service strictly asks of it. */
  ghost predicate Confirms(plan: Plan, e: Event, d: string) {
    && e.Observed? && e.svc == d && d in plan.project && Satisfies(DeclaresHealthcheck(plan.project[d]), e.cond, e.seen)
    && exists n :: StrictlyAsks(plan, n, d, e.cond)
  }

  ghost predicate ConfirmedIn(plan: Plan, log: seq<Event>, d: string) {
    exists i :: 0 <= i < |log| && Confirms(plan, log[i], d)
  }

  /** All that svc waits for has happened: its dependencies are recorded, and the strictly gated ones were seen to comply. */
  ghost predicate Ready(plan: Plan, log: seq<Event>, svc: string) {
    && svc in plan.project
    && (forall d :: d in Deps(plan.project, svc) ==> RecordedIn(log, d))
    && (forall d, cond :: d in Deps(plan.project, svc) && StrictlyAsks(plan, svc, d, cond) ==> ConfirmedIn(plan, log, d))
  }

  lemma ConfirmedMore(plan: Plan, log: seq<Event>, more: seq<Event>, d: string)
    requires log <= more && ConfirmedIn(plan, log, d)
    ensures ConfirmedIn(plan, more, d)
  {
    var i :| 0 <= i < |log| && Confirms(plan, log[i], d);
    assert more[i] == log[i];
  }

  // ---- one turn of a task ----

  ghost predicate Owns(w: World, svc: string, id: string) {
    id != "" && id in w.containers && w.containers[id].service == svc
  }

  /** What holds of svc's task: the container it works on is svc's; one about to go was not adopted, and does not match if it was looked at. */
  ghost predicate TaskOk(plan: Plan, w: World, svc: string, t: Task) {
    && svc in plan.project
    && match t
       case Inspecting(_, id, _) => Owns(w, svc, id) && !plan.adopt
       case Removing(d, id, inspected) => Owns(w, svc, id) && !plan.adopt && (inspected ==> !Matches(plan, svc, w.containers[id], d))
       case Spawning(d, spec, _) => Stamped(plan, svc, d, spec)
       case Pulling(d, spec) => Stamped(plan, svc, d, spec)
       case Starting(id) => Owns(w, svc, id)
       case Returned(id) => Owns(w, svc, id)
       case Ensured(id) => Owns(w, svc, id)
       case _ => true
  }

  /** spec is svc's translation under digest d, and so creates a container svc owns. */
  ghost predicate Stamped(plan: Plan, svc: string, d: string, spec: RunSpec) {
    svc in plan.project &&
    exists ids :: ToRunSpec(plan.cx, plan.project[svc], ConfigHash(plan.cx, d, plan.project[svc]), d, ids) == Some(spec)
  }

  lemma StampedOwns(plan: Plan, svc: string, d: string, spec: RunSpec)
    requires ValidPlan(plan) && Stamped(plan, svc, d, spec)
    ensures FromSpec(spec).service == svc && FromSpec(spec).hash == Some(ConfigHash(plan.cx, d, plan.project[svc]))
    ensures d != "" || LabelOr(plan.cx.labels, DIGEST_LABEL) == "" ==> FromSpec(spec).digest == d
  {
    LabelsStick(plan.cx, plan.project[svc], ConfigHash(plan.cx, d, plan.project[svc]), d);
  }

  /** A container keeps service, hash and digest for life. */
  ghost predicate SameIdentity(c: Container, c': Container) {
    c.service == c'.service && c.hash == c'.hash && c.digest == c'.digest
  }

  /** w' differs from w only in containers of svc, apart from drift of status. */
  ghost predicate OnlyTouches(w: World, w': World, svc: string) {
    && (forall id :: id in w.containers && w.containers[id].service != svc ==> id in w'.containers && SameIdentity(w.containers[id], w'.containers[id]))
    && (forall id :: id in w'.containers && w'.containers[id].service != svc ==> id in w.containers && w.containers[id].service == w'.containers[id].service)
  }

  ghost predicate NoEmptyId(w: World) { "" !in w.containers }

  /** What any turn of svc's task does: it touches its own service's containers, and records an id exactly when it ends well. */
  ghost predicate IsTurn(plan: Plan, w: World, svc: string, t: Task, turn: Turn) {
    && TaskOk(plan, turn.world, svc, turn.task) && OnlyTouches(w, turn.world, svc) && NoEmptyId(turn.world) && !t.Ensured?
    && (turn.task.Ensured? ==> turn.event == Some(Recorded(svc, turn.task.id)))
    && (turn.event.Some? ==> turn.event.value.svc == svc && !turn.event.value.Observed? && (turn.event.value.Recorded? ==> turn.task.Ensured?))
  }

  /** How creating a container can go: it fails, the image must be pulled first, or the container id now exists as specified. */
  ghost predicate SpawnsAs(w: World, svc: string, t: Task, id: string, turn: Turn) {
    && t.Spawning?
    && (|| turn == Turn(Broken, w, None)
        || turn == Turn(Pulling(t.digest, t.spec), w, None)
        || (id != "" && id !in w.containers && turn == Turn(Starting(id), With(w, id, FromSpec(t.spec)), Some(Created(svc, id, t.spec)))))
  }

  lemma SpawnShape(plan: Plan, w: World, ids: map<string, string>, svc: string, t: Task, a: Answer, turn: Turn) returns (id: string)
    requires svc in plan.project && t.Spawning? && TaskStep(plan, w, ids, svc, t, a) == Some(turn)
    ensures SpawnsAs(w, svc, t, id, turn)
  {
    id := if a.New? then a.id else "";
  }

  lemma SpawnTurn(plan: Plan, w: World, svc: string, t: Task, id: string, turn: Turn)
    requires ValidPlan(plan) && NoEmptyId(w) && t.Spawning? && Stamped(plan, svc, t.digest, t.spec) && SpawnsAs(w, svc, t, id, turn)
    ensures IsTurn(plan, w, svc, t, turn)
  {
    StampedOwns(plan, svc, t.digest, t.spec);
    if turn.task.Starting? { WithOwns(w, svc, id, FromSpec(t.spec)); }
  }

  lemma WithOwns(w: World, svc: string, id: string, c: Container)
    requires NoEmptyId(w) && id != "" && id !in w.containers && c.service == svc
    ensures OnlyTouches(w, With(w, id, c), svc) && NoEmptyId(With(w, id, c)) && Owns(With(w, id, c), svc, id)
  {}

  lemma CreateTurn(plan: Plan, w: World, ids: map<string, string>, svc: string, t: Task, a: Answer, turn: Turn)
    requires NoEmptyId(w) && TaskOk(plan, w, svc, t) && t.Creating? && TaskStep(plan, w, ids, svc, t, a) == Some(turn)
    ensures IsTurn(plan, w, svc, t, turn)
  {
    if turn.task.Spawning? { assert Stamped(plan, svc, t.digest, turn.task.spec); }
  }

  /** Turns that change nothing in the world. */
  lemma LookTurn(plan: Plan, w: World, ids: map<string, string>, svc: string, t: Task, a: Answer, turn: Turn)
    requires NoEmptyId(w) && TaskOk(plan, w, svc, t) && TaskStep(plan, w, ids, svc, t, a) == Some(turn)
    requires t.Idle? || t.Listing? || t.Inspecting? || t.Returned?
    ensures IsTurn(plan, w, svc, t, turn)
  {}

  lemma RemoveTurn(plan: Plan, w: World, ids: map<string, string>, svc: string, t: Task, a: Answer, turn: Turn)
    requires NoEmptyId(w) && TaskOk(plan, w, svc, t) && TaskStep(plan, w, ids, svc, t, a) == Some(turn) && t.Removing?
    ensures IsTurn(plan, w, svc, t, turn)
  {}

  lemma StartTurn(plan: Plan, w: World, ids: map<string, string>, svc: string, t: Task, a: Answer, turn: Turn)
    requires NoEmptyId(w) && TaskOk(plan, w, svc, t) && TaskStep(plan, w, ids, svc, t, a) == Some(turn) && (t.Starting? || t.Pulling?)
    ensures IsTurn(plan, w, svc, t, turn)
  {}

  lemma TurnOk(plan: Plan, w: World, ids: map<string, string>, svc: string, t: Task, a: Answer, turn: Turn)
    requires ValidPlan(plan) && NoEmptyId(w) && TaskOk(plan, w, svc, t) && TaskStep(plan, w, ids, svc, t, a) == Some(turn)
    ensures IsTurn(plan, w, svc, t, turn)
  {
    match t {
      case Creating(_) => CreateTurn(plan, w, ids, svc, t, a, turn);
      case Spawning(_, _, _) =>
        var id := SpawnShape(plan, w, ids, svc, t, a, turn);
        SpawnTurn(plan, w, svc, t, id, turn);
      case Removing(_, _, _) => RemoveTurn(plan, w, ids, svc, t, a, turn);
      case Starting(_) => StartTurn(plan, w, ids, svc, t, a, turn);
      case Pulling(_, _) => StartTurn(plan, w, ids, svc, t, a, turn);
      case Ensured(_) =>
      case Broken =>
      case _ => LookTurn(plan, w, ids, svc, t, a, turn);
    }
  }

  lemma OthersOk(plan: Plan, w: World, w': World, svc: string, n: string, t: Task)
    requires OnlyTouches(w, w', svc) && n != svc && TaskOk(plan, w, n, t)
    ensures TaskOk(plan, w', n, t)
  {}

  lemma DriftOk(plan: Plan, w: World, id: string, state: RunState, health: Health, n: string, t: Task)
    requires id in w.containers && TaskOk(plan, w, n, t)
    ensures TaskOk(plan, With(w, id, w.containers[id].(state := state, health := health)), n, t)
  {}

  // ---- the invariant ----

  /** Every task works on its own containers, and every recorded id is a container of its service. */
  ghost predicate Owned(plan: Plan, s: State) {
    && NoEmptyId(s.world)
    && (forall n :: n in s.tasks ==> TaskOk(plan, s.world, n, s.tasks[n]))
    && (forall n :: n in s.ids ==> Owns(s.world, n, s.ids[n]))
  }

  /** The current level's kept services are those with tasks; a recorded service of this level is ensured, and none lies in a later one. */
  ghost predicate Shape(plan: Plan, s: State) {
    && s.level <= |plan.levels|
    && (s.phase.Ensuring? || s.phase.Gating? ==> s.level < |plan.levels|)
    && (s.phase.Finished? ==> s.level == |plan.levels|)
    && s.tasks.Keys == Tasks(plan, s.level).Keys
    && (forall n :: n in s.ids && n in s.tasks ==> s.tasks[n] == Ensured(s.ids[n]))
    && (forall n :: n in s.tasks && s.tasks[n].Ensured? ==> n in s.ids)
    && (forall n :: n in s.ids ==> NotLater(plan, s.level, n))
  }

  /** ids is what the log recorded. */
  ghost predicate Logged(s: State) {
    && (forall n :: n in s.ids ==> Recorded(n, s.ids[n]) in s.log)
    && (forall i :: 0 <= i < |s.log| && s.log[i].Recorded? ==> s.log[i].svc in s.ids && s.ids[s.log[i].svc] == s.log[i].id)
  }

  /** Once a level is past, its kept services are recorded and those strictly asked for were seen to comply. */
  ghost predicate LevelPassed(plan: Plan, s: State, k: nat)
    requires k < |plan.levels|
  {
    forall n :: n in plan.levels[k] && n in plan.keep ==> n in s.ids && (IsStrict(plan, n) ==> ConfirmedIn(plan, s.log, n))
  }

  ghost predicate IsStrict(plan: Plan, d: string) {
    exists n, cond :: StrictlyAsks(plan, n, d, cond)
  }

  ghost predicate Wanted(plan: Plan, d: string, r: Requirement) {
    exists n :: Asks(plan, n, d, r)
  }

  ghost predicate Passed(plan: Plan, s: State) {
    s.level <= |plan.levels| && forall k :: 0 <= k < s.level ==> LevelPassed(plan, s, k)
  }

  /** While a level is gated: its kept services are recorded, the requirements cover the strict ones, and those done were confirmed. */
  ghost predicate Gates(plan: Plan, s: State) {
    s.phase.Gating? ==>
      && s.level < |plan.levels| && s.phase.todo <= s.phase.req.Keys
      && (forall n :: n in plan.levels[s.level] && n in plan.keep ==> n in s.ids)
      && (forall d :: d in s.phase.req ==> d in plan.levels[s.level] && Wanted(plan, d, s.phase.req[d]))
      && (forall d :: d in plan.levels[s.level] && IsStrict(plan, d) ==> d in s.phase.req && !s.phase.req[d].optional)
      && (forall d :: d in s.phase.req && d !in s.phase.todo && !s.phase.req[d].optional ==> ConfirmedIn(plan, s.log, d))
  }

  /** Containers were created and started only for services that were ready. */
  ghost predicate InTime(plan: Plan, log: seq<Event>) {
    forall i :: 0 <= i < |log| && (log[i].Created? || log[i].Started?) ==> Ready(plan, log[..i], log[i].svc)
  }

  ghost predicate Inv(plan: Plan, s: State) {
    Owned(plan, s) && Shape(plan, s) && Logged(s) && Passed(plan, s) && Gates(plan, s) && InTime(plan, s.log)
  }

  lemma BeginInv(plan: Plan, w: World)
    requires ValidPlan(plan) && NoEmptyId(w)
    ensures Inv(plan, Begin(plan, w))
  {}

  // ---- levels ----

  lemma OneLevel(plan: Plan, j: nat, k: nat, n: string)
    requires ValidPlan(plan) && j < |plan.levels| && k < |plan.levels| && n in plan.levels[j] && n in plan.levels[k]
    ensures j == k
  {
    assert IsLevel(GraphOf(plan.project), plan.levels, j) && IsLevel(GraphOf(plan.project), plan.levels, k);
    PlacedIn(plan.levels, j, n);
    PlacedIn(plan.levels, k, n);
    assert n in Elements(plan.levels[j]) && n in Elements(plan.levels[k]);
  }

  /** A kept service of the current level finds all it waits for in the levels passed. */
  lemma CurrentReady(plan: Plan, s: State, svc: string)
    requires ValidPlan(plan) && Shape(plan, s) && Logged(s) && Passed(plan, s) && svc in s.tasks && svc in plan.project
    ensures Ready(plan, s.log, svc)
  {
    forall d | d in Deps(plan.project, svc) ensures RecordedIn(s.log, d) && (IsStrict(plan, d) ==> ConfirmedIn(plan, s.log, d)) {
      DependencyPassed(plan, s, svc, d);
    }
  }

  lemma DependencyPassed(plan: Plan, s: State, svc: string, d: string)
    requires ValidPlan(plan) && Shape(plan, s) && Logged(s) && Passed(plan, s) && svc in s.tasks && svc in plan.project && d in Deps(plan.project, svc)
    ensures d in s.ids && RecordedIn(s.log, d) && (IsStrict(plan, d) ==> ConfirmedIn(plan, s.log, d))
  {
    var k := s.level;
    assert svc in Tasks(plan, k) && svc in plan.keep;
    assert IsLevel(GraphOf(plan.project), plan.levels, k);
    assert d in GraphOf(plan.project)[svc] && d in plan.keep;
    PlacedIn(plan.levels, k, d);
    var j :| 0 <= j < k && d in plan.levels[j];
    assert LevelPassed(plan, s, j);
    assert Recorded(d, s.ids[d]) in s.log;
  }

  // ---- steps ----

  lemma ActOwned(plan: Plan, s: State, svc: string, turn: Turn)
    requires Owned(plan, s) && svc in s.tasks && IsTurn(plan, s.world, svc, s.tasks[svc], turn) && svc !in s.ids
    ensures Owned(plan, Acted(s, svc, turn))
  {
    var t := Acted(s, svc, turn);
    forall n | n in t.tasks ensures TaskOk(plan, t.world, n, t.tasks[n]) {
      if n != svc { OthersOk(plan, s.world, t.world, svc, n, s.tasks[n]); }
    }
  }

  lemma ActShape(plan: Plan, s: State, svc: string, turn: Turn)
    requires Shape(plan, s) && svc in s.tasks && !s.tasks[svc].Ensured? && NotLater(plan, s.level, svc)
    ensures svc !in s.ids && Shape(plan, Acted(s, svc, turn))
  {}

  ghost predicate NotLater(plan: Plan, level: nat, n: string) {
    forall k :: level < k < |plan.levels| ==> n !in plan.levels[k]
  }

  lemma InOneLevel(plan: Plan, s: State, svc: string)
    requires ValidPlan(plan) && Shape(plan, s) && svc in s.tasks
    ensures NotLater(plan, s.level, svc)
  {
    assert svc in Tasks(plan, s.level);
    forall k | s.level < k < |plan.levels| && svc in plan.levels[k] ensures false { OneLevel(plan, s.level, k, svc); }
  }

  lemma ActLogged(plan: Plan, s: State, svc: string, turn: Turn)
    requires Logged(s) && svc in s.tasks && IsTurn(plan, s.world, svc, s.tasks[svc], turn) && svc !in s.ids
    ensures Logged(Acted(s, svc, turn))
  {
    var t := Acted(s, svc, turn);
    forall n | n in t.ids ensures Recorded(n, t.ids[n]) in t.log {
      if n == svc { assert t.log[|s.log|] == Recorded(n, t.ids[n]); } else { assert Recorded(n, s.ids[n]) in s.log; }
    }
  }

  lemma ActInTime(plan: Plan, s: State, svc: string, turn: Turn)
    requires InTime(plan, s.log) && Ready(plan, s.log, svc) && svc in s.tasks && IsTurn(plan, s.world, svc, s.tasks[svc], turn)
    ensures InTime(plan, Acted(s, svc, turn).log)
  {
    if turn.event.Some? { InTimeMore(plan, s.log, turn.event.value); }
  }

  lemma InTimeMore(plan: Plan, log: seq<Event>, e: Event)
    requires InTime(plan, log) && (e.Created? || e.Started? ==> Ready(plan, log, e.svc))
    ensures InTime(plan, log + [e])
  {
    var more := log + [e];
    forall i | 0 <= i < |more| && (more[i].Created? || more[i].Started?) ensures Ready(plan, more[..i], more[i].svc) {
      if i < |log| { assert more[..i] == log[..i] && more[i] == log[i]; } else { assert more[..i] == log; }
    }
  }

  lemma ActInv(plan: Plan, s: State, svc: string, turn: Turn)
    requires ValidPlan(plan) && Inv(plan, s) && s.phase.Ensuring? && svc in s.tasks && svc in plan.project && IsTurn(plan, s.world, svc, s.tasks[svc], turn)
    ensures Inv(plan, Acted(s, svc, turn))
  {
    InOneLevel(plan, s, svc);
    ActShape(plan, s, svc, turn);
    ActOwned(plan, s, svc, turn);
    ActLogged(plan, s, svc, turn);
    CurrentReady(plan, s, svc);
    ActInTime(plan, s, svc, turn);
    PassedMore(plan, s, Acted(s, svc, turn));
  }

  lemma PassedMore(plan: Plan, s: State, t: State)
    requires Passed(plan, s) && t.level == s.level && s.log <= t.log && s.ids.Keys <= t.ids.Keys
    ensures Passed(plan, t)
  {
    forall k | 0 <= k < t.level ensures LevelPassed(plan, t, k) {
      assert LevelPassed(plan, s, k);
      forall n | n in plan.levels[k] && n in plan.keep && IsStrict(plan, n) { ConfirmedMore(plan, s.log, t.log, n); }
    }
  }

  lemma JoinInv(plan: Plan, s: State, order: seq<string>)
    requires ValidPlan(plan) && Inv(plan, s) && Enabled(plan, s, Join(order))
    ensures Inv(plan, Apply(plan, s, Join(order)))
  {
    JoinGates(plan, s, order);
    PassedMore(plan, s, Apply(plan, s, Join(order)));
  }

  /** Moving on within a gate, or giving up, leaves everything but the gate as it was. */
  lemma GateMoves(plan: Plan, s: State, t: State)
    requires Inv(plan, s) && s.phase.Gating? && (t.phase.Gating? || t.phase.Aborted?) && t == s.(phase := t.phase) && Gates(plan, t)
    ensures Inv(plan, t)
  {
    PassedMore(plan, s, t);
  }

  lemma ObservedInv(plan: Plan, s: State, e: Event)
    requires Inv(plan, s) && e.Observed?
    ensures Inv(plan, s.(log := s.log + [e]))
  {
    var t := s.(log := s.log + [e]);
    InTimeMore(plan, s.log, e);
    PassedMore(plan, s, t);
    if s.phase.Gating? {
      forall d | d in t.phase.req && d !in t.phase.todo && !t.phase.req[d].optional ensures ConfirmedIn(plan, t.log, d) { ConfirmedMore(plan, s.log, t.log, d); }
    }
  }

  lemma GateDone(plan: Plan, s: State, svc: string)
    requires Gates(plan, s) && s.phase.Gating? && svc in s.phase.req && (!s.phase.req[svc].optional ==> ConfirmedIn(plan, s.log, svc))
    ensures Gates(plan, s.(phase := Gating(s.phase.req, s.phase.todo - {svc})))
  {}

  lemma Confirmed(plan: Plan, log: seq<Event>, svc: string, r: Requirement, seen: Container)
    requires svc in plan.project && Wanted(plan, svc, r) && !r.optional && Judge(r.cond, DeclaresHealthcheck(plan.project[svc]), seen).Pass?
    ensures ConfirmedIn(plan, log + [Observed(svc, r.cond, seen)], svc)
  {
    PassSatisfies(r.cond, DeclaresHealthcheck(plan.project[svc]), seen);
    var n :| Asks(plan, n, svc, r);
    assert StrictlyAsks(plan, n, svc, r.cond);
    assert Confirms(plan, (log + [Observed(svc, r.cond, seen)])[|log|], svc);
  }

  lemma GatePassInv(plan: Plan, s: State, svc: string)
    requires ValidPlan(plan) && Inv(plan, s) && Enabled(plan, s, GatePass(svc))
    ensures Inv(plan, Apply(plan, s, GatePass(svc)))
  {
    var r, seen := s.phase.req[svc], s.world.containers[s.ids[svc]];
    var u := s.(log := s.log + [Observed(svc, r.cond, seen)]);
    ObservedInv(plan, s, u.log[|s.log|]);
    if !r.optional { Confirmed(plan, s.log, svc, r, seen); }
    GateDone(plan, u, svc);
    GateMoves(plan, u, u.(phase := Gating(s.phase.req, s.phase.todo - {svc})));
  }

  lemma AdvancePassed(plan: Plan, s: State, t: State)
    requires Passed(plan, s) && Gates(plan, s) && s.phase.Gating? && s.phase.todo == {} && t.level == s.level + 1 && t.ids == s.ids && t.log == s.log
    ensures Passed(plan, t)
  {
    forall k | 0 <= k < t.level ensures LevelPassed(plan, t, k) {
      if k < s.level { assert LevelPassed(plan, s, k); }
    }
  }

  lemma AdvanceShape(plan: Plan, s: State, t: State)
    requires Shape(plan, s) && s.level < |plan.levels| && t.level == s.level + 1 && t.ids == s.ids && t.tasks == Tasks(plan, t.level)
    requires t.phase == if t.level < |plan.levels| then Ensuring else Finished
    ensures Shape(plan, t)
  {
    forall n | n in t.ids ensures NotLater(plan, t.level, n) && n !in t.tasks { assert NotLater(plan, s.level, n); }
  }

  lemma AdvanceInv(plan: Plan, s: State)
    requires Inv(plan, s) && Enabled(plan, s, Advance)
    ensures Inv(plan, Apply(plan, s, Advance))
  {
    var t := Apply(plan, s, Advance);
    AdvancePassed(plan, s, t);
    AdvanceShape(plan, s, t);
    assert forall n :: n in t.tasks ==> t.tasks[n].Idle? && n in plan.project;
  }

  lemma DriftInv(plan: Plan, s: State, a: Action)
    requires Inv(plan, s) && a.Drift? && Enabled(plan, s, a)
    ensures Inv(plan, Apply(plan, s, a))
  {
    var t := Apply(plan, s, a);
    forall n | n in t.tasks ensures TaskOk(plan, t.world, n, t.tasks[n]) { DriftOk(plan, s.world, a.id, a.state, a.health, n, s.tasks[n]); }
    PassedMore(plan, s, t);
  }

  lemma TagInv(plan: Plan, s: State, w: World)
    requires Inv(plan, s) && w.containers == s.world.containers
    ensures Inv(plan, s.(world := w))
  {
    var t := s.(world := w);
    forall n | n in t.tasks ensures TaskOk(plan, t.world, n, t.tasks[n]) { assert TaskOk(plan, s.world, n, s.tasks[n]); }
    forall n | n in t.ids ensures Owns(t.world, n, t.ids[n]) { assert Owns(s.world, n, s.ids[n]); }
    PassedMore(plan, s, t);
  }

  lemma SettleInv(plan: Plan, s: State, a: Action)
    requires ValidPlan(plan) && Inv(plan, s) && (a.GateRefuse? || a.GateSkip?) && Enabled(plan, s, a)
    ensures Inv(plan, Apply(plan, s, a))
  {
    RequiredRecorded(plan, s, a.svc);
    SettleShape(plan, s, a);
    if Apply(plan, s, a).phase.Gating? { GateDone(plan, s, a.svc); }
    GateMoves(plan, s, Apply(plan, s, a));
  }

  lemma SettleShape(plan: Plan, s: State, a: Action)
    requires (a.GateRefuse? || (a.GateSkip? && a.svc in s.ids)) && Enabled(plan, s, a)
    ensures var t := Apply(plan, s, a);
      && t == s.(phase := t.phase)
      && (t.phase.Aborted? || (t.phase == Gating(s.phase.req, s.phase.todo - {a.svc}) && s.phase.req[a.svc].optional))
  {}

  lemma LevelInProject(plan: Plan, k: nat, n: string)
    requires ValidPlan(plan) && k < |plan.levels| && n in plan.levels[k]
    ensures n in plan.project
  {
    PlacedIn(plan.levels, |plan.levels|, n);
  }

  /** A required service is kept, and so recorded: the gate never skips one. */
  lemma RequiredRecorded(plan: Plan, s: State, svc: string)
    requires ValidPlan(plan) && Gates(plan, s) && s.phase.Gating? && svc in s.phase.req
    ensures svc in s.ids
  {
    var n :| Asks(plan, n, svc, s.phase.req[svc]);
    LevelInProject(plan, s.level, svc);
    assert svc == n || svc in Deps(plan.project, n);
  }

  /** At a join that goes on, every kept service of the level is recorded. */
  lemma JoinRecorded(plan: Plan, s: State)
    requires ValidPlan(plan) && Shape(plan, s) && s.level < |plan.levels| && forall n :: n in s.tasks ==> s.tasks[n].Ensured?
    ensures forall n :: n in plan.levels[s.level] && n in plan.keep ==> n in s.ids
  {
    forall n | n in plan.levels[s.level] && n in plan.keep ensures n in s.ids {
      assert IsLevel(GraphOf(plan.project), plan.levels, s.level);
      assert n in s.tasks;
    }
  }

  /** What the gathered requirements cover, whatever the order. */
  lemma RequirementsCover(plan: Plan, level: Level, order: seq<string>, req: map<string, Requirement>)
    requires req == Requirements(plan, level, order) && Elements(order) == plan.project.Keys && ValidPlan(plan)
    ensures forall d :: d in req ==> d in level && Wanted(plan, d, req[d])
    ensures forall d :: d in level && IsStrict(plan, d) ==> d in req && !req[d].optional
  {
    forall d ensures d in req ==> d in level && Wanted(plan, d, req[d]) { RequirementsAsked(plan, level, order, d); }
    forall d | d in level && IsStrict(plan, d) ensures d in req && !req[d].optional {
      RequirementsAsked(plan, level, order, d);
      var n, cond :| StrictlyAsks(plan, n, d, cond);
      assert n in Elements(order);
    }
  }

  lemma JoinGates(plan: Plan, s: State, order: seq<string>)
    requires ValidPlan(plan) && Shape(plan, s) && Enabled(plan, s, Join(order))
    ensures Gates(plan, Apply(plan, s, Join(order)))
  {
    if Apply(plan, s, Join(order)).phase.Gating? {
      JoinRecorded(plan, s);
      RequirementsCover(plan, plan.levels[s.level], order, Requirements(plan, plan.levels[s.level], order));
    }
  }

  lemma StepInv(plan: Plan, s: State, a: Action)
    requires ValidPlan(plan) && Inv(plan, s) && Enabled(plan, s, a)
    ensures Inv(plan, Apply(plan, s, a))
  {
    match a {
      case Act(svc, answer) =>
        var turn := TaskStep(plan, s.world, s.ids, svc, s.tasks[svc], answer).value;
        TurnOk(plan, s.world, s.ids, svc, s.tasks[svc], answer, turn);
        ActInv(plan, s, svc, turn);
      case Join(order) => JoinInv(plan, s, order);
      case GatePass(svc) => GatePassInv(plan, s, svc);
      case GateRefuse(_, _) => SettleInv(plan, s, a);
      case GateSkip(_) => SettleInv(plan, s, a);
      case Advance => AdvanceInv(plan, s);
      case Drift(_, _, _) => DriftInv(plan, s, a);
      case Tag(ref, image) => TagInv(plan, s, Retagged(s.world, ref, image));
    }
  }

  lemma {:induction false} RunInv(plan: Plan, s: State, acts: seq<Action>)
    requires ValidPlan(plan) && Inv(plan, s) && IsRun(plan, s, acts)
    ensures Inv(plan, After(plan, s, acts))
    decreases |acts|
  {
    if acts != [] {
      StepInv(plan, s, acts[0]);
      RunInv(plan, Apply(plan, s, acts[0]), acts[1..]);
    }
  }

  // ---- joined namespaces ----

  /** Every namespace svc joins is that of another service of the project. */
  ghost predicate JoinsOthers(plan: Plan, svc: string) {
    svc in plan.project &&
    forall v :: v in {plan.project[svc].networkMode, plan.project[svc].pid, plan.project[svc].ipc} && RefTarget(v) != "" ==>
      RefTarget(v) in Deps(plan.project, svc)
  }

  /** spec joins the containers recorded in ids. */
  ghost predicate Joined(plan: Plan, ids: map<string, string>, svc: string, spec: RunSpec) {
    && JoinsOthers(plan, svc)
    && ResolveMode(plan.project[svc].networkMode, ids) == Some(spec.networkMode)
    && ResolveMode(plan.project[svc].pid, ids) == Some(spec.pidMode)
    && ResolveMode(plan.project[svc].ipc, ids) == Some(spec.ipcMode)
  }

  ghost predicate TaskJoined(plan: Plan, ids: map<string, string>, svc: string, t: Task) {
    t.Spawning? || t.Pulling? ==> Joined(plan, ids, svc, t.spec)
  }

  ghost predicate EventJoined(plan: Plan, ids: map<string, string>, e: Event) {
    e.Created? ==> Joined(plan, ids, e.svc, e.spec)
  }

  ghost predicate AllJoined(plan: Plan, s: State) {
    && s.ids.Keys <= plan.project.Keys
    && (forall n :: n in s.tasks ==> TaskJoined(plan, s.ids, n, s.tasks[n]))
    && (forall i :: 0 <= i < |s.log| ==> EventJoined(plan, s.ids, s.log[i]))
  }

  lemma SpecJoined(plan: Plan, ids: map<string, string>, svc: string, hash: string, d: string, spec: RunSpec)
    requires svc in plan.project && svc !in ids && ids.Keys <= plan.project.Keys && ToRunSpec(plan.cx, plan.project[svc], hash, d, ids) == Some(spec)
    ensures Joined(plan, ids, svc, spec)
  {}

  lemma TurnJoined(plan: Plan, w: World, ids: map<string, string>, svc: string, t: Task, a: Answer, turn: Turn)
    requires svc in plan.project && svc !in ids && ids.Keys <= plan.project.Keys && TaskJoined(plan, ids, svc, t)
    requires TaskStep(plan, w, ids, svc, t, a) == Some(turn)
    ensures TaskJoined(plan, ids, svc, turn.task) && (turn.event.Some? ==> EventJoined(plan, ids, turn.event.value))
  {
    if t.Creating? && turn.task.Spawning? {
      SpecJoined(plan, ids, svc, ConfigHash(plan.cx, t.digest, plan.project[svc]), t.digest, turn.task.spec);
    }
  }

  lemma JoinedMore(plan: Plan, ids: map<string, string>, n: string, id: string, svc: string, spec: RunSpec)
    requires n !in ids && Joined(plan, ids, svc, spec)
    ensures Joined(plan, ids[n := id], svc, spec)
  {}

  lemma ActJoined(plan: Plan, s: State, svc: string, turn: Turn)
    requires AllJoined(plan, s) && svc in s.tasks && svc !in s.ids && svc in plan.project && (turn.event.Some? ==> EventJoined(plan, s.ids, turn.event.value))
    requires TaskJoined(plan, s.ids, svc, turn.task)
    ensures AllJoined(plan, Acted(s, svc, turn))
  {
    var t := Acted(s, svc, turn);
    forall n | n in t.tasks ensures TaskJoined(plan, t.ids, n, t.tasks[n]) {
      if turn.task.Ensured? && (t.tasks[n].Spawning? || t.tasks[n].Pulling?) { JoinedMore(plan, s.ids, svc, turn.task.id, n, t.tasks[n].spec); }
    }
    forall i | 0 <= i < |t.log| ensures EventJoined(plan, t.ids, t.log[i]) {
      assert EventJoined(plan, s.ids, t.log[i]);
      if turn.task.Ensured? && t.log[i].Created? { JoinedMore(plan, s.ids, svc, turn.task.id, t.log[i].svc, t.log[i].spec); }
    }
  }

  lemma StillJoined(plan: Plan, s: State, t: State)
    requires AllJoined(plan, s) && t.ids == s.ids && (t.tasks == s.tasks || forall n :: n in t.tasks ==> t.tasks[n].Idle?)
    requires t.log == s.log || (|t.log| == |s.log| + 1 && s.log <= t.log && t.log[|s.log|].Observed?)
    ensures AllJoined(plan, t)
  {
    forall i | 0 <= i < |t.log| ensures EventJoined(plan, t.ids, t.log[i]) {
      if i < |s.log| { assert t.log[i] == s.log[i]; }
    }
  }

  lemma JoinedStep(plan: Plan, s: State, a: Action)
    requires Shape(plan, s) && AllJoined(plan, s) && Enabled(plan, s, a)
    ensures AllJoined(plan, Apply(plan, s, a))
  {
    if a.Act? {
      var turn := TaskStep(plan, s.world, s.ids, a.svc, s.tasks[a.svc], a.answer).value;
      TurnJoined(plan, s.world, s.ids, a.svc, s.tasks[a.svc], a.answer, turn);
      ActJoined(plan, s, a.svc, turn);
    } else {
      StillJoined(plan, s, Apply(plan, s, a));
    }
  }

  lemma {:induction false} RunJoined(plan: Plan, s: State, acts: seq<Action>)
    requires ValidPlan(plan) && Inv(plan, s) && AllJoined(plan, s) && IsRun(plan, s, acts)
    ensures AllJoined(plan, After(plan, s, acts))
    decreases |acts|
  {
    if acts != [] {
      StepInv(plan, s, acts[0]);
      JoinedStep(plan, s, acts[0]);
      RunJoined(plan, Apply(plan, s, acts[0]), acts[1..]);
    }
  }

  // ---- what every run shows ----

  /** A run of Up from some world. */
  ghost predicate IsUp(plan: Plan, w: World, acts: seq<Action>) {
    ValidPlan(plan) && NoEmptyId(w) && IsRun(plan, Begin(plan, w), acts)
  }

  lemma UpInv(plan: Plan, w: World, acts: seq<Action>)
    requires IsUp(plan, w, acts)
    ensures Inv(plan, After(plan, Begin(plan, w), acts)) && AllJoined(plan, After(plan, Begin(plan, w), acts))
  {
    BeginInv(plan, w);
    RunInv(plan, Begin(plan, w), acts);
    RunJoined(plan, Begin(plan, w), acts);
  }

  /**
    A container is created or started only after every other service of the
    project it depends on was ensured: the id recorded by then is the one in
    the result, and it is a container of that service to the end of the run.
   */
  lemma StartsAfterDependencies(plan: Plan, w: World, acts: seq<Action>, i: nat, d: string)
    requires IsUp(plan, w, acts)
    requires var log := After(plan, Begin(plan, w), acts).log;
      i < |log| && (log[i].Created? || log[i].Started?) && log[i].svc in plan.project && d in Deps(plan.project, log[i].svc)
    ensures var s := After(plan, Begin(plan, w), acts);
      d in s.ids && Owns(s.world, d, s.ids[d]) && exists j :: 0 <= j < i && s.log[j] == Recorded(d, s.ids[d])
  {
    UpInv(plan, w, acts);
    DependencyRecorded(plan, After(plan, Begin(plan, w), acts), i, d);
  }

  lemma DependencyRecorded(plan: Plan, s: State, i: nat, d: string)
    requires Owned(plan, s) && Logged(s) && InTime(plan, s.log) && i < |s.log| && (s.log[i].Created? || s.log[i].Started?)
    requires s.log[i].svc in plan.project && d in Deps(plan.project, s.log[i].svc)
    ensures d in s.ids && Owns(s.world, d, s.ids[d]) && exists j :: 0 <= j < i && s.log[j] == Recorded(d, s.ids[d])
  {
    assert Ready(plan, s.log[..i], s.log[i].svc);
    var j :| 0 <= j < i && s.log[..i][j].Recorded? && s.log[..i][j].svc == d;
    assert s.log[j] == s.log[..i][j];
  }

  /** A created container joins exactly the containers recorded for the services its modes name, never itself or a stranger. */
  lemma JoinsRecorded(plan: Plan, w: World, acts: seq<Action>, i: nat)
    requires IsUp(plan, w, acts) && i < |After(plan, Begin(plan, w), acts).log| && After(plan, Begin(plan, w), acts).log[i].Created?
    ensures var s := After(plan, Begin(plan, w), acts);
      Joined(plan, s.ids, s.log[i].svc, s.log[i].spec)
  {
    UpInv(plan, w, acts);
    assert EventJoined(plan, After(plan, Begin(plan, w), acts).ids, After(plan, Begin(plan, w), acts).log[i]);
  }

  /**
    No container is created or started before each dependency it strictly
    requires was observed to comply, provided the strict dependents of that
    dependency agree on the condition.
   */
  lemma StartsAfterConditions(plan: Plan, w: World, acts: seq<Action>, i: nat, d: string, cond: string)
    requires IsUp(plan, w, acts)
    requires var log := After(plan, Begin(plan, w), acts).log;
      i < |log| && (log[i].Created? || log[i].Started?) && log[i].svc in plan.project && d in Deps(plan.project, log[i].svc) && StrictlyAsks(plan, log[i].svc, d, cond)
    requires Agreed(plan, d, cond)
    ensures var log := After(plan, Begin(plan, w), acts).log;
      exists j :: 0 <= j < i && log[j].Observed? && log[j].svc == d && log[j].cond == cond && Satisfies(DeclaresHealthcheck(plan.project[d]), cond, log[j].seen)
  {
    UpInv(plan, w, acts);
    var log := After(plan, Begin(plan, w), acts).log;
    assert Ready(plan, log[..i], log[i].svc);
    assert ConfirmedIn(plan, log[..i], d);
    var j :| 0 <= j < i && Confirms(plan, log[..i][j], d);
    assert log[j] == log[..i][j];
  }

  /** Up that ends well recorded every kept service. */
  lemma FinishedComplete(plan: Plan, w: World, acts: seq<Action>)
    requires IsUp(plan, w, acts) && After(plan, Begin(plan, w), acts).phase.Finished?
    ensures After(plan, Begin(plan, w), acts).ids.Keys == plan.keep * plan.project.Keys
  {
    UpInv(plan, w, acts);
    var s := After(plan, Begin(plan, w), acts);
    forall n | n in plan.keep && n in plan.project ensures n in s.ids {
      PlacedIn(plan.levels, |plan.levels|, n);
      var k :| 0 <= k < |plan.levels| && n in plan.levels[k];
      assert LevelPassed(plan, s, k);
    }
    RunKept(plan, Begin(plan, w), acts);
  }

  lemma KeptStep(plan: Plan, s: State, a: Action)
    requires Shape(plan, s) && s.ids.Keys <= plan.keep && Enabled(plan, s, a)
    ensures Apply(plan, s, a).ids.Keys <= plan.keep
  {
    if a.Act? { assert a.svc in Tasks(plan, s.level); }
  }

  lemma {:induction false} RunKept(plan: Plan, s: State, acts: seq<Action>)
    requires ValidPlan(plan) && Inv(plan, s) && s.ids.Keys <= plan.keep && IsRun(plan, s, acts)
    ensures After(plan, s, acts).ids.Keys <= plan.keep
    decreases |acts|
  {
    if acts != [] {
      KeptStep(plan, s, acts[0]);
      StepInv(plan, s, acts[0]);
      RunKept(plan, Apply(plan, s, acts[0]), acts[1..]);
    }
  }

  /** A gate fails Up only over a condition that some kept service strictly requires. */
  lemma OnlyStrictFails(plan: Plan, w: World, acts: seq<Action>, a: Action)
    requires IsUp(plan, w, acts) && Enabled(plan, After(plan, Begin(plan, w), acts), a)
    requires After(plan, Begin(plan, w), acts).phase.Gating? && Apply(plan, After(plan, Begin(plan, w), acts), a).phase.Aborted?
    ensures a.GateRefuse? && exists n :: StrictlyAsks(plan, n, a.svc, After(plan, Begin(plan, w), acts).phase.req[a.svc].cond)
  {
    UpInv(plan, w, acts);
    var s := After(plan, Begin(plan, w), acts);
    assert Wanted(plan, a.svc, s.phase.req[a.svc]);
    var n :| Asks(plan, n, a.svc, s.phase.req[a.svc]);
    assert StrictlyAsks(plan, n, a.svc, s.phase.req[a.svc].cond);
  }
}
