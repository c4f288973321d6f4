/**
  Up comes to an end, and can come to a good one. Its own steps are bounded by
  the plan, whatever the runtime answers and whatever else happens; a task fails
  only over a call that has to succeed; and as long as nothing failed the run can
  still end well. (compose/orchestrator.go:156-226, 318-436, 463-617)
 */
module ComposeProgress {
  import opened Prelude
  import Ordering
  import opened ComposeModel
  import opened ComposeSpec
  import opened ComposeGraph
  import opened ComposeUp
  import opened ComposeSafety
  import ComposeTerms

  // ---- what a task still has to do ----

  /** The most calls a task can still make. */
  function Rank(t: Task): nat {
    match t
    case Idle => 10
    case Listing(_) => 9
    case Inspecting(_, _, _) => 8
    case Removing(_, _, _) => 7
    case Creating(_) => 6
    case Spawning(_, _, pulled) => if pulled then 3 else 5
    case Pulling(_, _) => 4
    case Starting(_) => 2
    case Returned(_) => 1
    case Ensured(_) => 0
    case Broken => 0
  }

  /** Every call brings a task on. */
  lemma TurnRanks(plan: Plan, w: World, ids: map<string, string>, svc: string, t: Task, a: Answer, turn: Turn)
    requires svc in plan.project && TaskStep(plan, w, ids, svc, t, a) == Some(turn)
    ensures Rank(turn.task) < Rank(t)
  {}

  /** The call a failure of which fails Up: looking for the service's containers, removing one, creating, pulling, starting. */
  predicate Vital(t: Task) {
    t.Listing? || t.Removing? || t.Spawning? || t.Pulling? || t.Starting?
  }

  /** The mode is to join the container of service d. */
  ghost predicate Targets(mode: string, d: string) { d != "" && mode == "service:" + d }

  /** The mode is to join a container, and its service has none recorded. */
  ghost predicate JoinsNo(mode: string, ids: map<string, string>) {
    exists d :: Targets(mode, d) && !(d in ids && ids[d] != "")
  }

  ghost predicate JoinsNone(s: Service, ids: map<string, string>) {
    JoinsNo(s.networkMode, ids) || JoinsNo(s.pid, ids) || JoinsNo(s.ipc, ids)
  }

  /**
    A task breaks exactly when a vital call fails, or when its container is to
    join one that is not there. An image or a container that cannot be inspected
    breaks none: the first goes by its reference, the second is removed.
   */
  lemma BreaksIff(plan: Plan, w: World, ids: map<string, string>, svc: string, t: Task, a: Answer, turn: Turn)
    requires svc in plan.project && TaskStep(plan, w, ids, svc, t, a) == Some(turn)
    ensures turn.task.Broken? <==> (Vital(t) && a.Fail?) || (t.Creating? && JoinsNone(plan.project[svc], ids))
    ensures t.Idle? && a.Fail? ==> turn.task == Listing(plan.project[svc].image)
    ensures t.Inspecting? && a.Fail? ==> turn.task == Removing(t.digest, t.id, false)
  {
    if t.Creating? { SpecMissingIff(plan.cx, plan.project[svc], ConfigHash(plan.cx, t.digest, plan.project[svc]), t.digest, ids); }
  }

  lemma TargetIs(mode: string, d: string)
    ensures Targets(mode, d) <==> d != "" && RefTarget(mode) == d
  {
    if Targets(mode, d) { assert mode[8..] == d; }
    if RefTarget(mode) == d && d != "" { assert mode == mode[..8] + mode[8..]; }
  }

  lemma ModeMissing(mode: string, ids: map<string, string>)
    ensures ResolveMode(mode, ids).None? <==> JoinsNo(mode, ids)
  {
    var t := RefTarget(mode);
    TargetIs(mode, t);
    forall d | Targets(mode, d) ensures d == t { TargetIs(mode, d); }
  }

  lemma SpecMissingIff(cx: Context, s: Service, hash: string, digest: string, ids: map<string, string>)
    ensures ToRunSpec(cx, s, hash, digest, ids).None? <==> JoinsNone(s, ids)
  {
    ModeMissing(s.networkMode, ids);
    ModeMissing(s.pid, ids);
    ModeMissing(s.ipc, ids);
  }

  // ---- what Up still has to do ----

  /** The calls the tasks of a level can still make. */
  function Calls(level: seq<string>, tasks: map<string, Task>): nat {
    if level == [] then 0
    else
      var n := |level| - 1;
      Calls(level[..n], tasks) + if level[n] in tasks then Rank(tasks[level[n]]) else 0
  }

  /** What the levels from the k-th on can take: ten calls a service, a gate each, a join and an advance. */
  function Later(levels: seq<Level>, k: nat): nat
    decreases |levels| - k
  {
    if k >= |levels| then 0 else 11 * |levels[k]| + 2 + Later(levels, k + 1)
  }

  /** The most steps of its own Up can still take. */
  ghost function Left(plan: Plan, s: State): nat {
    if s.level >= |plan.levels| then 0
    else
      match s.phase
      case Ensuring => Calls(plan.levels[s.level], s.tasks) + |plan.levels[s.level]| + 2 + Later(plan.levels, s.level + 1)
      case Gating(_, todo) => |todo| + 1 + Later(plan.levels, s.level + 1)
      case _ => 0
  }

  /** A step of Up itself rather than something that happens to a container or an image. */
  predicate Own(a: Action) { !a.Drift? && !a.Tag? }

  lemma {:induction false} CallsSame(level: seq<string>, tasks: map<string, Task>, n: string, t: Task)
    requires n !in level
    ensures Calls(level, tasks[n := t]) == Calls(level, tasks)
  {
    if level != [] {
      assert level[|level| - 1] in level;
      CallsSame(level[..|level| - 1], tasks, n, t);
    }
  }

  lemma {:induction false} CallsDrop(level: seq<string>, tasks: map<string, Task>, n: string, t: Task)
    requires NoDup(level) && n in level && n in tasks && Rank(t) < Rank(tasks[n])
    ensures Calls(level, tasks[n := t]) < Calls(level, tasks)
  {
    var k := |level| - 1;
    if level[k] == n {
      assert n !in level[..k];
      CallsSame(level[..k], tasks, n, t);
    } else {
      assert n in level[..k];
      CallsDrop(level[..k], tasks, n, t);
    }
  }

  lemma {:induction false} CallsAtMost(level: seq<string>, tasks: map<string, Task>)
    ensures Calls(level, tasks) <= 10 * |level|
  {
    if level != [] { CallsAtMost(level[..|level| - 1], tasks); }
  }

  lemma {:induction false} CallsOver(level: seq<string>, tasks: map<string, Task>)
    requires forall n :: n in tasks ==> Rank(tasks[n]) == 0
    ensures Calls(level, tasks) == 0
  {
    if level != [] { CallsOver(level[..|level| - 1], tasks); }
  }

  lemma LevelDistinct(plan: Plan, k: nat)
    requires ValidPlan(plan) && k < |plan.levels|
    ensures NoDup(plan.levels[k])
  {
    assert IsLevel(GraphOf(plan.project), plan.levels, k);
  }

  lemma FewerCalls(plan: Plan, s: State, t: State)
    requires s.level == t.level < |plan.levels| && s.phase.Ensuring? && t.phase.Ensuring?
    requires Calls(plan.levels[s.level], t.tasks) < Calls(plan.levels[s.level], s.tasks)
    ensures Left(plan, t) < Left(plan, s)
  {}

  lemma ActDrops(plan: Plan, s: State, svc: string, turn: Turn)
    requires ValidPlan(plan) && Shape(plan, s) && s.phase.Ensuring? && svc in s.tasks && Rank(turn.task) < Rank(s.tasks[svc])
    ensures Left(plan, Acted(s, svc, turn)) < Left(plan, s)
  {
    LevelDistinct(plan, s.level);
    assert svc in Tasks(plan, s.level);
    CallsDrop(plan.levels[s.level], s.tasks, svc, turn.task);
    FewerCalls(plan, s, Acted(s, svc, turn));
  }

  lemma RequiredFew(plan: Plan, level: Level, order: seq<string>)
    ensures |Requirements(plan, level, order).Keys| <= |level|
  {
    var req := Requirements(plan, level, order);
    forall d | d in req ensures d in level { RequirementsAsked(plan, level, order, d); }
    ElementsFew(level);
    assert req.Keys <= Elements(level);
    SubsetCard(req.Keys, Elements(level));
  }

  lemma {:induction false} ElementsFew(level: seq<string>)
    ensures |Elements(level)| <= |level|
  {
    if level == [] { assert Elements(level) == {}; }
    else {
      var n := |level| - 1;
      ElementsFew(level[..n]);
      assert Elements(level) == Elements(level[..n]) + {level[n]};
    }
  }

  lemma GatingDrops(plan: Plan, s: State, t: State)
    requires s.phase.Ensuring? && s.level < |plan.levels| && t.level == s.level
    requires t.phase.Aborted? || (t.phase.Gating? && |t.phase.todo| <= |plan.levels[s.level]|)
    ensures Left(plan, t) < Left(plan, s)
  {}

  lemma JoinDrops(plan: Plan, s: State, order: seq<string>)
    requires Enabled(plan, s, Join(order))
    ensures Left(plan, Apply(plan, s, Join(order))) < Left(plan, s)
  {
    RequiredFew(plan, plan.levels[s.level], order);
    GatingDrops(plan, s, Apply(plan, s, Join(order)));
  }

  lemma GateDrops(plan: Plan, s: State, t: State, svc: string)
    requires s.level < |plan.levels| && s.phase.Gating? && svc in s.phase.todo && t.level == s.level
    requires t.phase == Gating(s.phase.req, s.phase.todo - {svc}) || t.phase.Aborted?
    ensures Left(plan, t) < Left(plan, s)
  {
    assert |s.phase.todo - {svc}| == |s.phase.todo| - 1;
  }

  lemma NextDrops(plan: Plan, s: State, t: State)
    requires s.level < |plan.levels| && s.phase.Gating? && t.level == s.level + 1
    requires t.tasks == Tasks(plan, t.level) && t.phase == if t.level < |plan.levels| then Ensuring else Finished
    ensures Left(plan, t) < Left(plan, s)
  {
    if t.level < |plan.levels| { CallsAtMost(plan.levels[t.level], t.tasks); }
  }

  /** What the steps of a gate do. */
  lemma GateShape(plan: Plan, s: State, a: Action)
    requires Enabled(plan, s, a) && (a.GatePass? || a.GateRefuse? || a.GateSkip?)
    ensures var t := Apply(plan, s, a);
      && s.phase.Gating? && a.svc in s.phase.todo && t.level == s.level
      && (t.phase == Gating(s.phase.req, s.phase.todo - {a.svc}) || t.phase.Aborted?)
  {}

  lemma AdvanceDrops(plan: Plan, s: State)
    requires Shape(plan, s) && Enabled(plan, s, Advance)
    ensures Left(plan, Apply(plan, s, Advance)) < Left(plan, s)
  {
    NextDrops(plan, s, Apply(plan, s, Advance));
  }

  lemma ActIs(plan: Plan, s: State, svc: string, a: Answer)
    requires Enabled(plan, s, Act(svc, a))
    ensures TaskStep(plan, s.world, s.ids, svc, s.tasks[svc], a).Some?
    ensures Apply(plan, s, Act(svc, a)) == Acted(s, svc, TaskStep(plan, s.world, s.ids, svc, s.tasks[svc], a).value)
  {}

  lemma OthersKeep(plan: Plan, s: State, a: Action)
    requires Enabled(plan, s, a) && !Own(a)
    ensures Left(plan, Apply(plan, s, a)) == Left(plan, s)
  {}

  lemma TaskDrops(plan: Plan, s: State, svc: string, a: Answer)
    requires ValidPlan(plan) && Inv(plan, s) && Enabled(plan, s, Act(svc, a))
    ensures Left(plan, Apply(plan, s, Act(svc, a))) < Left(plan, s)
  {
    ActIs(plan, s, svc, a);
    var turn := TaskStep(plan, s.world, s.ids, svc, s.tasks[svc], a).value;
    TurnRanks(plan, s.world, s.ids, svc, s.tasks[svc], a, turn);
    ActDrops(plan, s, svc, turn);
  }

  /** Every step of Up's own leaves it less to do; what others do leaves it as much. */
  lemma StepDrops(plan: Plan, s: State, a: Action)
    requires ValidPlan(plan) && Inv(plan, s) && Enabled(plan, s, a)
    ensures var t := Apply(plan, s, a); if Own(a) then Left(plan, t) < Left(plan, s) else Left(plan, t) == Left(plan, s)
  {
    if !Own(a) { OthersKeep(plan, s, a); }
    else if a.Act? { TaskDrops(plan, s, a.svc, a.answer); }
    else if a.Join? { JoinDrops(plan, s, a.order); }
    else if a.Advance? { AdvanceDrops(plan, s); }
    else {
      GateShape(plan, s, a);
      GateDrops(plan, s, Apply(plan, s, a), a.svc);
    }
  }

  function OwnSteps(acts: seq<Action>): nat {
    if acts == [] then 0 else (if Own(acts[0]) then 1 else 0) + OwnSteps(acts[1..])
  }

  lemma {:induction false} RunDrops(plan: Plan, s: State, acts: seq<Action>)
    requires ValidPlan(plan) && Inv(plan, s) && IsRun(plan, s, acts)
    ensures OwnSteps(acts) + Left(plan, After(plan, s, acts)) <= Left(plan, s)
    decreases |acts|
  {
    if acts != [] {
      StepInv(plan, s, acts[0]);
      StepDrops(plan, s, acts[0]);
      RunDrops(plan, Apply(plan, s, acts[0]), acts[1..]);
    }
  }

  /** However calls are answered and whatever happens meanwhile, an Up takes at most eleven steps a service and two a level: ten calls, a gate, a join, an advance. */
  lemma StepsBounded(plan: Plan, w: World, acts: seq<Action>)
    requires IsUp(plan, w, acts)
    ensures OwnSteps(acts) <= Later(plan.levels, 0)
  {
    BeginInv(plan, w);
    RunDrops(plan, Begin(plan, w), acts);
    if |plan.levels| > 0 { CallsAtMost(plan.levels[0], Tasks(plan, 0)); }
  }

  // ---- a good end ----

  /** Nothing failed so far. */
  ghost predicate Sound(plan: Plan, s: State) {
    !s.phase.Aborted? && forall n :: n in s.tasks ==> !s.tasks[n].Broken?
  }

  /** Each namespace a kept service joins is that of another service of the project. */
  ghost predicate Joinable(plan: Plan) {
    forall n, d :: n in plan.keep && n in plan.project && Shares(plan.project[n], d) ==> d in plan.project && d != n
  }

  ghost predicate Shares(s: Service, d: string) {
    Targets(s.networkMode, d) || Targets(s.pid, d) || Targets(s.ipc, d)
  }

  lemma {:induction false} Longer(s: set<string>) returns (n: nat)
    ensures forall x :: x in s ==> |x| <= n
  {
    n := 0;
    if s != {} {
      var x :| x in s;
      var m := Longer(s - {x});
      n := if |x| > m then |x| else m;
      forall y | y in s ensures |y| <= n { if y != x { assert y in s - {x}; } }
    }
  }

  lemma FreshId(w: World) returns (id: string)
    ensures id != "" && id !in w.containers
  {
    var n := Longer(w.containers.Keys);
    id := seq(n + 1, _ => 'x');
  }

  /** The answer lets the task go on. */
  ghost predicate Helps(plan: Plan, s: State, svc: string, t: Task, a: Answer)
    requires svc in plan.project
  {
    TaskStep(plan, s.world, s.ids, svc, t, a).Some? && !TaskStep(plan, s.world, s.ids, svc, t, a).value.task.Broken?
  }

  lemma GoodListing(plan: Plan, s: State, svc: string, t: Task) returns (a: Answer)
    requires svc in plan.project && t.Listing?
    ensures Helps(plan, s, svc, t, a)
  {
    if Exists(s.world, svc) {
      var id :| id in s.world.containers && s.world.containers[id].service == svc;
      a := Found(id);
    } else {
      a := NotFound;
    }
  }

  lemma GoodCall(plan: Plan, s: State, svc: string, t: Task) returns (a: Answer)
    requires svc in plan.project && TaskOk(plan, s.world, svc, t) && (t.Idle? || t.Inspecting? || t.Removing? || t.Starting? || t.Returned?)
    ensures Helps(plan, s, svc, t, a)
  {
    a := Answer.Ok;
  }

  lemma GoodCreation(plan: Plan, s: State, svc: string, t: Task) returns (a: Answer)
    requires svc in plan.project && t.Creating? && !JoinsNone(plan.project[svc], s.ids)
    ensures Helps(plan, s, svc, t, a)
  {
    SpecMissingIff(plan.cx, plan.project[svc], ConfigHash(plan.cx, t.digest, plan.project[svc]), t.digest, s.ids);
    a := Answer.Ok;
  }

  lemma GoodSpawn(plan: Plan, s: State, svc: string, t: Task) returns (a: Answer)
    requires svc in plan.project && (t.Spawning? || t.Pulling?)
    ensures Helps(plan, s, svc, t, a)
  {
    if t.Spawning? {
      var id := FreshId(s.world);
      a := New(id);
    } else {
      a := Pulled("");
    }
  }

  /** A call the task makes can be answered so that it goes on well. */
  lemma GoodAnswer(plan: Plan, s: State, svc: string) returns (a: Answer)
    requires ValidPlan(plan) && Joinable(plan) && Inv(plan, s) && svc in s.tasks && svc in plan.project && svc in plan.keep
    requires !s.tasks[svc].Broken? && !s.tasks[svc].Ensured?
    ensures Helps(plan, s, svc, s.tasks[svc], a)
  {
    var t := s.tasks[svc];
    assert TaskOk(plan, s.world, svc, t);
    if t.Listing? {
      a := GoodListing(plan, s, svc, t);
    } else if t.Creating? {
      CanJoin(plan, s, svc);
      a := GoodCreation(plan, s, svc, t);
    } else if t.Spawning? || t.Pulling? {
      a := GoodSpawn(plan, s, svc, t);
    } else {
      a := GoodCall(plan, s, svc, t);
    }
  }

  lemma CanJoin(plan: Plan, s: State, svc: string)
    requires ValidPlan(plan) && Joinable(plan) && Inv(plan, s) && svc in s.tasks && svc in plan.project && svc in plan.keep
    ensures !JoinsNone(plan.project[svc], s.ids)
  {
    var x := plan.project[svc];
    forall d | Shares(x, d) ensures d in s.ids && s.ids[d] != "" { SharedRecorded(plan, s, svc, d); }
    NoneMissing(x, s.ids);
  }

  lemma NoneMissing(x: Service, ids: map<string, string>)
    requires forall d :: Shares(x, d) ==> d in ids && ids[d] != ""
    ensures !JoinsNone(x, ids)
  {
    forall d ensures !(Targets(x.networkMode, d) && !(d in ids && ids[d] != "")) { assert Targets(x.networkMode, d) ==> Shares(x, d); }
    forall d ensures !(Targets(x.pid, d) && !(d in ids && ids[d] != "")) { assert Targets(x.pid, d) ==> Shares(x, d); }
    forall d ensures !(Targets(x.ipc, d) && !(d in ids && ids[d] != "")) { assert Targets(x.ipc, d) ==> Shares(x, d); }
  }

  lemma SharedRecorded(plan: Plan, s: State, svc: string, d: string)
    requires ValidPlan(plan) && Joinable(plan) && Inv(plan, s) && svc in s.tasks && svc in plan.project && svc in plan.keep
    requires Shares(plan.project[svc], d)
    ensures d in s.ids && s.ids[d] != ""
  {
    ComposeTerms.DepsNamed(plan.project, svc, d);
    DependencyPassed(plan, s, svc, d);
    assert Owns(s.world, d, s.ids[d]);
  }

  /** The state of a container that satisfies a condition. */
  function Good(cond: string, c: Container): (RunState, Health) {
    if cond == HEALTHY then (c.state, Healthy) else (Exited(0), c.health)
  }

  ghost predicate Better(plan: Plan, s: State, t: State) {
    Inv(plan, t) && Sound(plan, t) && Left(plan, t) < Left(plan, s)
  }

  lemma EnsureOn(plan: Plan, s: State, svc: string) returns (acts: seq<Action>)
    requires ValidPlan(plan) && Joinable(plan) && Inv(plan, s) && Sound(plan, s) && s.phase.Ensuring? && svc in s.tasks && !s.tasks[svc].Ensured?
    ensures IsRun(plan, s, acts) && Better(plan, s, After(plan, s, acts))
  {
    assert svc in Tasks(plan, s.level);
    var a := GoodAnswer(plan, s, svc);
    ActEnabled(plan, s, svc, a);
    OneStep(plan, s, Act(svc, a));
    ActIs(plan, s, svc, a);
    StillSound(plan, s, svc, TaskStep(plan, s.world, s.ids, svc, s.tasks[svc], a).value);
    acts := [Act(svc, a)];
  }

  lemma ActEnabled(plan: Plan, s: State, svc: string, a: Answer)
    requires s.phase.Ensuring? && svc in s.tasks && svc in plan.project && Helps(plan, s, svc, s.tasks[svc], a)
    ensures Enabled(plan, s, Act(svc, a))
  {}

  lemma StillSound(plan: Plan, s: State, svc: string, turn: Turn)
    requires Sound(plan, s) && svc in s.tasks && !turn.task.Broken?
    ensures Sound(plan, Acted(s, svc, turn))
  {}

  /** A step of Up's own leads on. */
  lemma OneStep(plan: Plan, s: State, a: Action)
    requires ValidPlan(plan) && Inv(plan, s) && Enabled(plan, s, a) && Own(a)
    ensures IsRun(plan, s, [a]) && After(plan, s, [a]) == Apply(plan, s, a)
    ensures Inv(plan, Apply(plan, s, a)) && Left(plan, Apply(plan, s, a)) < Left(plan, s)
  {
    assert [a][1..] == [];
    assert IsRun(plan, Apply(plan, s, a), [a][1..]);
    StepInv(plan, s, a);
    StepDrops(plan, s, a);
  }

  lemma JoinOn(plan: Plan, s: State) returns (acts: seq<Action>)
    requires ValidPlan(plan) && Inv(plan, s) && Sound(plan, s) && s.phase.Ensuring? && forall n :: n in s.tasks ==> s.tasks[n].Ensured?
    ensures IsRun(plan, s, acts) && Better(plan, s, After(plan, s, acts))
  {
    var order := Ordering.SortedKeys(plan.project.Keys);
    OneStep(plan, s, Join(order));
    acts := [Join(order)];
  }

  lemma AdvanceOn(plan: Plan, s: State) returns (acts: seq<Action>)
    requires ValidPlan(plan) && Inv(plan, s) && s.phase.Gating? && s.phase.todo == {}
    ensures IsRun(plan, s, acts) && Better(plan, s, After(plan, s, acts))
  {
    OneStep(plan, s, Advance);
    acts := [Advance];
  }

  /** Something happens to a container that makes it comply. */
  lemma Improves(plan: Plan, s: State, svc: string) returns (drift: Action)
    requires Inv(plan, s) && s.phase.Gating? && svc in s.phase.todo && svc in s.phase.req && svc in s.ids && svc in plan.project
    requires Gated(s.phase.req[svc].cond)
    ensures drift.Drift? && Enabled(plan, s, drift) && Enabled(plan, Apply(plan, s, drift), GatePass(svc))
    ensures Apply(plan, s, drift).phase == s.phase && Apply(plan, s, drift).tasks == s.tasks
  {
    var id := s.ids[svc];
    assert Owns(s.world, svc, id);
    var (state, health) := Good(s.phase.req[svc].cond, s.world.containers[id]);
    drift := Drift(id, state, health);
    assert Apply(plan, s, drift).world.containers[id] == s.world.containers[id].(state := state, health := health);
  }

  lemma GateOn(plan: Plan, s: State, svc: string) returns (acts: seq<Action>)
    requires ValidPlan(plan) && Inv(plan, s) && Sound(plan, s) && s.phase.Gating? && svc in s.phase.todo
    ensures IsRun(plan, s, acts) && Better(plan, s, After(plan, s, acts))
  {
    RequiredRecorded(plan, s, svc);
    LevelInProject(plan, s.level, svc);
    assert Wanted(plan, svc, s.phase.req[svc]);
    var drift := Improves(plan, s, svc);
    StepInv(plan, s, drift);
    StepDrops(plan, s, drift);
    var t := Apply(plan, s, drift);
    OneStep(plan, t, GatePass(svc));
    PassSound(plan, t, svc);
    acts := [drift, GatePass(svc)];
    assert acts[1..] == [GatePass(svc)];
  }

  lemma PassSound(plan: Plan, s: State, svc: string)
    requires Enabled(plan, s, GatePass(svc)) && Sound(plan, s)
    ensures Sound(plan, Apply(plan, s, GatePass(svc)))
  {}

  /** Some step leads on as long as Up has not ended. */
  lemma GoOn(plan: Plan, s: State) returns (acts: seq<Action>)
    requires ValidPlan(plan) && Joinable(plan) && Inv(plan, s) && Sound(plan, s) && !s.phase.Finished?
    ensures IsRun(plan, s, acts) && Better(plan, s, After(plan, s, acts))
  {
    if s.phase.Gating? {
      if s.phase.todo == {} { acts := AdvanceOn(plan, s); }
      else { var svc :| svc in s.phase.todo; acts := GateOn(plan, s, svc); }
    } else if svc :| svc in s.tasks && !s.tasks[svc].Ensured? {
      acts := EnsureOn(plan, s, svc);
    } else {
      acts := JoinOn(plan, s);
    }
  }

  lemma {:induction false} Continues(plan: Plan, s: State, a: seq<Action>, b: seq<Action>)
    requires IsRun(plan, s, a) && IsRun(plan, After(plan, s, a), b)
    ensures IsRun(plan, s, a + b) && After(plan, s, a + b) == After(plan, After(plan, s, a), b)
    decreases |a|
  {
    if a == [] {
      assert a + b == b;
    } else {
      Continues(plan, Apply(plan, s, a[0]), a[1..], b);
      assert (a + b)[0] == a[0] && (a + b)[1..] == a[1..] + b;
    }
  }

  lemma {:induction false} FinishFrom(plan: Plan, s: State) returns (acts: seq<Action>)
    requires ValidPlan(plan) && Joinable(plan) && Inv(plan, s) && Sound(plan, s)
    ensures IsRun(plan, s, acts) && After(plan, s, acts).phase.Finished?
    decreases Left(plan, s)
  {
    acts := [];
    if !s.phase.Finished? {
      var first := GoOn(plan, s);
      var rest := FinishFrom(plan, After(plan, s, first));
      Continues(plan, s, first, rest);
      acts := first + rest;
    }
  }

  /** As long as nothing failed, a run of Up can be carried on to a good end, provided each joined namespace is that of another service of the project. */
  lemma CanStillFinish(plan: Plan, w: World, acts: seq<Action>) returns (more: seq<Action>)
    requires IsUp(plan, w, acts) && Joinable(plan) && Sound(plan, After(plan, Begin(plan, w), acts))
    ensures IsUp(plan, w, acts + more) && After(plan, Begin(plan, w), acts + more).phase.Finished?
  {
    UpInv(plan, w, acts);
    more := FinishFrom(plan, After(plan, Begin(plan, w), acts));
    Continues(plan, Begin(plan, w), acts, more);
  }
}
