/**
  Containers over several Ups: one is removed only for a reason its own labels
  give, and an Up of what already stands creates and removes nothing.
  (compose/orchestrator.go:315-461)
 */
module ComposeReuse {
  import opened Prelude
  import opened ComposeModel
  import opened ComposeSpec
  import opened ComposeGraph
  import opened ComposeUp
  import opened ComposeSafety

  // ---- removals ----

  /** The container is the orchestrator's, and its stored hash or digest is not the wanted one. */
  ghost predicate Differs(plan: Plan, svc: string, c: Container, digest: string) {
    svc in plan.project && c.hash.Some? && (c.hash.value != ConfigHash(plan.cx, digest, plan.project[svc]) || c.digest != digest)
  }

  /** The removal was not under adoption, and either the container could not be inspected or its stored hash or digest was not the wanted one. */
  ghost predicate Justified(plan: Plan, e: Event) {
    && e.Removed? && e.svc in plan.project && !plan.adopt && e.was.service == e.svc
    && (e.inspected ==> Differs(plan, e.svc, e.was, e.digest))
  }

  /** Some event justly removed id, which then was what c describes. */
  ghost predicate RemovedIn(plan: Plan, log: seq<Event>, id: string, c: Container) {
    exists i :: 0 <= i < |log| && Justified(plan, log[i]) && log[i].id == id && SameIdentity(c, log[i].was)
  }

  ghost predicate Stands(w: World, id: string, c: Container) {
    id in w.containers && SameIdentity(c, w.containers[id])
  }

  lemma TurnAccounts(plan: Plan, w: World, ids: map<string, string>, svc: string, t: Task, a: Answer, turn: Turn, id: string)
    requires TaskOk(plan, w, svc, t) && TaskStep(plan, w, ids, svc, t, a) == Some(turn) && id in w.containers
    ensures Stands(turn.world, id, w.containers[id]) ||
      (turn.event.Some? && Justified(plan, turn.event.value) && turn.event.value.id == id && SameIdentity(w.containers[id], turn.event.value.was))
  {}

  lemma RemovedMore(plan: Plan, log: seq<Event>, more: seq<Event>, id: string, c: Container)
    requires log <= more && RemovedIn(plan, log, id, c)
    ensures RemovedIn(plan, more, id, c)
  {
    var i :| 0 <= i < |log| && Justified(plan, log[i]) && log[i].id == id && SameIdentity(c, log[i].was);
    assert more[i] == log[i];
  }

  lemma ActAccounts(plan: Plan, s: State, svc: string, a: Answer, id: string, c: Container)
    requires svc in plan.project && svc in s.tasks && TaskOk(plan, s.world, svc, s.tasks[svc])
    requires TaskStep(plan, s.world, s.ids, svc, s.tasks[svc], a).Some?
    requires Stands(s.world, id, c) || RemovedIn(plan, s.log, id, c)
    ensures var t := Acted(s, svc, TaskStep(plan, s.world, s.ids, svc, s.tasks[svc], a).value);
      Stands(t.world, id, c) || RemovedIn(plan, t.log, id, c)
  {
    var turn := TaskStep(plan, s.world, s.ids, svc, s.tasks[svc], a).value;
    var t := Acted(s, svc, turn);
    if RemovedIn(plan, s.log, id, c) {
      RemovedMore(plan, s.log, t.log, id, c);
    } else {
      TurnAccounts(plan, s.world, s.ids, svc, s.tasks[svc], a, turn, id);
      if !Stands(t.world, id, c) { assert t.log[|s.log|] == turn.event.value; }
    }
  }

  lemma StepAccounts(plan: Plan, s: State, a: Action, id: string, c: Container)
    requires Inv(plan, s) && Enabled(plan, s, a)
    requires Stands(s.world, id, c) || RemovedIn(plan, s.log, id, c)
    ensures var t := Apply(plan, s, a); Stands(t.world, id, c) || RemovedIn(plan, t.log, id, c)
  {
    if a.Act? {
      ActAccounts(plan, s, a.svc, a.answer, id, c);
    } else if RemovedIn(plan, s.log, id, c) {
      RemovedMore(plan, s.log, Apply(plan, s, a).log, id, c);
    }
  }

  lemma {:induction false} RunAccounts(plan: Plan, s: State, acts: seq<Action>, id: string, c: Container)
    requires ValidPlan(plan) && Inv(plan, s) && IsRun(plan, s, acts)
    requires Stands(s.world, id, c) || RemovedIn(plan, s.log, id, c)
    ensures var t := After(plan, s, acts); Stands(t.world, id, c) || RemovedIn(plan, t.log, id, c)
    decreases |acts|
  {
    if acts != [] {
      StepAccounts(plan, s, acts[0], id, c);
      StepInv(plan, s, acts[0]);
      RunAccounts(plan, Apply(plan, s, acts[0]), acts[1..], id, c);
    }
  }

  /** One call of Up, however far it got. */
  datatype Session = Session(plan: Plan, acts: seq<Action>)

  ghost predicate IsHistory(w: World, sessions: seq<Session>)
    decreases |sessions|
  {
    sessions == [] || (IsUp(sessions[0].plan, w, sessions[0].acts) && IsHistory(Left(w, sessions[0]).world, sessions[1..]))
  }

  /** What a session leaves. */
  ghost function Left(w: World, x: Session): State
    requires IsUp(x.plan, w, x.acts)
  {
    After(x.plan, Begin(x.plan, w), x.acts)
  }

  ghost function Final(w: World, sessions: seq<Session>): World
    requires IsHistory(w, sessions)
    decreases |sessions|
  {
    if sessions == [] then w else Final(Left(w, sessions[0]).world, sessions[1..])
  }

  ghost predicate RemovedDuring(w: World, sessions: seq<Session>, id: string, c: Container)
    requires IsHistory(w, sessions)
    decreases |sessions|
  {
    sessions != [] &&
    (RemovedIn(sessions[0].plan, Left(w, sessions[0]).log, id, c) || RemovedDuring(Left(w, sessions[0]).world, sessions[1..], id, c))
  }

  /** Over any sequence of Ups a container stands until an Up that does not adopt removes it for failing inspection or for its own stored labels. */
  lemma {:induction false} RemovedOnlyOnDrift(w: World, sessions: seq<Session>, id: string, c: Container)
    requires IsHistory(w, sessions) && Stands(w, id, c)
    ensures Stands(Final(w, sessions), id, c) || RemovedDuring(w, sessions, id, c)
    decreases |sessions|
  {
    if sessions != [] {
      var x := sessions[0];
      BeginInv(x.plan, w);
      RunAccounts(x.plan, Begin(x.plan, w), x.acts, id, c);
      if Stands(Left(w, x).world, id, c) { RemovedOnlyOnDrift(Left(w, x).world, sessions[1..], id, c); }
    }
  }

  /** Adopting Ups remove nothing. */
  lemma {:induction false} AdoptingKeepsAll(w: World, sessions: seq<Session>, id: string, c: Container)
    requires IsHistory(w, sessions) && Stands(w, id, c) && forall k :: 0 <= k < |sessions| ==> sessions[k].plan.adopt
    ensures Stands(Final(w, sessions), id, c)
    decreases |sessions|
  {
    if sessions != [] {
      var x := sessions[0];
      BeginInv(x.plan, w);
      RunAccounts(x.plan, Begin(x.plan, w), x.acts, id, c);
      AdoptingKeepsAll(Left(w, x).world, sessions[1..], id, c);
    }
  }

  // ---- what a finished Up leaves ----

  /** At most one container per kept service. */
  ghost predicate Single(plan: Plan, w: World) {
    forall id, id' | id in w.containers && id' in w.containers && w.containers[id].service in plan.keep ::
      w.containers[id].service == w.containers[id'].service ==> id == id'
  }

  /** The container is stamped as the plan would stamp it under the digest it records, or is not the orchestrator's to judge. */
  ghost predicate Fits(plan: Plan, svc: string, c: Container) {
    svc in plan.project && (plan.adopt || c.hash.None? || c.hash == Some(ConfigHash(plan.cx, c.digest, plan.project[svc])))
  }

  /** The engine's own labels leave the digest label to the orchestrator. */
  ghost predicate PlainLabels(plan: Plan) {
    LabelOr(plan.cx.labels, DIGEST_LABEL) == ""
  }

  ghost predicate TaskFits(plan: Plan, w: World, svc: string, t: Task) {
    match t
    case Creating(_) => !Exists(w, svc)
    case Spawning(_, _, _) => !Exists(w, svc)
    case Pulling(_, _) => !Exists(w, svc)
    case Starting(id) => id in w.containers && Fits(plan, svc, w.containers[id])
    case Returned(id) => id in w.containers && Fits(plan, svc, w.containers[id])
    case Ensured(id) => id in w.containers && Fits(plan, svc, w.containers[id])
    case _ => true
  }

  lemma SpawnFits(plan: Plan, w: World, svc: string, t: Task, id: string, turn: Turn)
    requires ValidPlan(plan) && PlainLabels(plan) && Single(plan, w) && t.Spawning? && Stamped(plan, svc, t.digest, t.spec) && !Exists(w, svc)
    requires SpawnsAs(w, svc, t, id, turn)
    ensures Single(plan, turn.world) && TaskFits(plan, turn.world, svc, turn.task)
  {
    StampedOwns(plan, svc, t.digest, t.spec);
  }

  lemma RemoveFits(plan: Plan, w: World, svc: string, id: string)
    requires Single(plan, w) && svc in plan.keep && Owns(w, svc, id)
    ensures Single(plan, Without(w, id)) && !Exists(Without(w, id), svc)
  {}

  lemma TurnFits(plan: Plan, w: World, ids: map<string, string>, svc: string, t: Task, a: Answer, turn: Turn)
    requires ValidPlan(plan) && PlainLabels(plan) && Single(plan, w) && svc in plan.keep && TaskOk(plan, w, svc, t) && TaskFits(plan, w, svc, t)
    requires TaskStep(plan, w, ids, svc, t, a) == Some(turn)
    ensures Single(plan, turn.world) && TaskFits(plan, turn.world, svc, turn.task)
  {
    match t {
      case Spawning(_, _, _) =>
        var id := SpawnShape(plan, w, ids, svc, t, a, turn);
        SpawnFits(plan, w, svc, t, id, turn);
      case Removing(_, id, _) => RemoveFits(plan, w, svc, id);
      case Idle => LookFits(plan, w, ids, svc, t, a, turn);
      case Listing(_) => LookFits(plan, w, ids, svc, t, a, turn);
      case Inspecting(_, _, _) => LookFits(plan, w, ids, svc, t, a, turn);
      case _ =>
    }
  }

  lemma LookFits(plan: Plan, w: World, ids: map<string, string>, svc: string, t: Task, a: Answer, turn: Turn)
    requires Single(plan, w) && TaskOk(plan, w, svc, t) && TaskStep(plan, w, ids, svc, t, a) == Some(turn) && (t.Idle? || t.Listing? || t.Inspecting?)
    ensures turn.world == w && TaskFits(plan, w, svc, turn.task)
  {}

  lemma OthersFit(plan: Plan, w: World, w': World, svc: string, n: string, t: Task)
    requires OnlyTouches(w, w', svc) && n != svc && TaskOk(plan, w, n, t) && TaskFits(plan, w, n, t)
    ensures TaskFits(plan, w', n, t)
  {}

  ghost predicate AllFit(plan: Plan, s: State) {
    && Single(plan, s.world)
    && (forall n :: n in s.tasks ==> TaskFits(plan, s.world, n, s.tasks[n]))
    && (forall n :: n in s.ids ==> s.ids[n] in s.world.containers && Fits(plan, n, s.world.containers[s.ids[n]]))
  }

  lemma ActFits(plan: Plan, s: State, svc: string, turn: Turn)
    requires Owned(plan, s) && AllFit(plan, s) && svc in s.tasks && svc !in s.ids && IsTurn(plan, s.world, svc, s.tasks[svc], turn)
    requires Single(plan, turn.world) && TaskFits(plan, turn.world, svc, turn.task)
    ensures AllFit(plan, Acted(s, svc, turn))
  {
    var t := Acted(s, svc, turn);
    forall n | n in t.tasks ensures TaskFits(plan, t.world, n, t.tasks[n]) {
      if n != svc { OthersFit(plan, s.world, t.world, svc, n, s.tasks[n]); }
    }
  }

  lemma DriftFits(plan: Plan, s: State, a: Action)
    requires AllFit(plan, s) && a.Drift? && Enabled(plan, s, a)
    ensures AllFit(plan, Apply(plan, s, a))
  {
    var t := Apply(plan, s, a);
    assert forall id :: id in t.world.containers <==> id in s.world.containers;
    assert forall id :: id in t.world.containers ==> SameIdentity(t.world.containers[id], s.world.containers[id]);
    forall n | n in t.tasks ensures TaskFits(plan, t.world, n, t.tasks[n]) { assert TaskFits(plan, s.world, n, s.tasks[n]); }
  }

  lemma FitsStep(plan: Plan, s: State, a: Action)
    requires ValidPlan(plan) && PlainLabels(plan) && Inv(plan, s) && AllFit(plan, s) && Enabled(plan, s, a)
    ensures AllFit(plan, Apply(plan, s, a))
  {
    match a {
      case Act(svc, answer) =>
        var turn := TaskStep(plan, s.world, s.ids, svc, s.tasks[svc], answer).value;
        assert svc in Tasks(plan, s.level);
        TurnOk(plan, s.world, s.ids, svc, s.tasks[svc], answer, turn);
        TurnFits(plan, s.world, s.ids, svc, s.tasks[svc], answer, turn);
        ActFits(plan, s, svc, turn);
      case Drift(_, _, _) => DriftFits(plan, s, a);
      case _ => StillFits(plan, s, Apply(plan, s, a));
    }
  }

  lemma StillFits(plan: Plan, s: State, t: State)
    requires AllFit(plan, s) && t.world.containers == s.world.containers && t.ids == s.ids
    requires t.tasks == s.tasks || forall n :: n in t.tasks ==> t.tasks[n].Idle?
    ensures AllFit(plan, t)
  {
    forall n | n in t.tasks ensures TaskFits(plan, t.world, n, t.tasks[n]) {
      if t.tasks == s.tasks { assert TaskFits(plan, s.world, n, s.tasks[n]); }
    }
  }

  lemma {:induction false} RunFits(plan: Plan, s: State, acts: seq<Action>)
    requires ValidPlan(plan) && PlainLabels(plan) && Inv(plan, s) && AllFit(plan, s) && IsRun(plan, s, acts)
    ensures AllFit(plan, After(plan, s, acts))
    decreases |acts|
  {
    if acts != [] {
      FitsStep(plan, s, acts[0]);
      StepInv(plan, s, acts[0]);
      RunFits(plan, Apply(plan, s, acts[0]), acts[1..]);
    }
  }

  // ---- an Up of what already stands ----

  /** id is the one container of n, and suits the plan under the images of the moment. */
  ghost predicate Suits(plan: Plan, w: World, n: string, id: string) {
    && n in plan.project && Owns(w, n, id) && (forall id' :: Owns(w, n, id') ==> id' == id)
    && (plan.adopt || Matches(plan, n, w.containers[id], Resolve(w.images, plan.project[n].image)))
  }

  ghost predicate Settled(plan: Plan, w: World, ids: map<string, string>) {
    forall n :: n in plan.keep && n in plan.project ==> n in ids && Suits(plan, w, n, ids[n])
  }

  /** The action fails no inspection and leaves the images of kept services alone. */
  ghost predicate Calm(plan: Plan, s: State, a: Action)
    requires Enabled(plan, s, a)
  {
    && (a.Act? && a.answer.Fail? ==> !s.tasks[a.svc].Idle? && !s.tasks[a.svc].Inspecting?)
    && (a.Tag? ==> forall n :: n in plan.keep && n in plan.project ==> plan.project[n].image != a.ref)
  }

  /** No inspection fails during the run, and no one else moves the image of a kept service. */
  ghost predicate Inspectable(plan: Plan, s: State, acts: seq<Action>)
    requires IsRun(plan, s, acts)
    decreases |acts|
  {
    acts == [] || (Calm(plan, s, acts[0]) && Inspectable(plan, Apply(plan, s, acts[0]), acts[1..]))
  }

  /** A task that can only reuse id, the container its service already has. */
  ghost predicate Reusing(plan: Plan, w: World, svc: string, t: Task, id: string) {
    svc in plan.project &&
    match t
    case Idle => true
    case Listing(d) => d == Resolve(w.images, plan.project[svc].image)
    case Inspecting(d, id', _) => id' == id && d == Resolve(w.images, plan.project[svc].image)
    case Starting(id') => id' == id
    case Returned(id') => id' == id
    case Ensured(id') => id' == id
    case Broken => true
    case _ => false
  }

  ghost predicate Quiet(e: Event) { !e.Created? && !e.Removed? }

  /** For the services of the plan nothing but the status of containers differs. */
  ghost predicate SameStock(plan: Plan, w: World, w': World) {
    && (forall n :: n in plan.keep && n in plan.project ==> Resolve(w'.images, plan.project[n].image) == Resolve(w.images, plan.project[n].image))
    && w'.containers.Keys == w.containers.Keys
    && forall id :: id in w.containers ==> SameIdentity(w.containers[id], w'.containers[id])
  }

  lemma TurnReuses(plan: Plan, w: World, ids: map<string, string>, svc: string, t: Task, a: Answer, turn: Turn, known: map<string, string>)
    requires Settled(plan, w, known) && svc in plan.keep && svc in plan.project && NoEmptyId(w) && Reusing(plan, w, svc, t, known[svc])
    requires TaskOk(plan, w, svc, t) && TaskStep(plan, w, ids, svc, t, a) == Some(turn) && (a.Fail? ==> !t.Idle? && !t.Inspecting?)
    ensures Reusing(plan, turn.world, svc, turn.task, known[svc]) && SameStock(plan, w, turn.world) && (turn.event.Some? ==> Quiet(turn.event.value))
  {
    assert known[svc] in w.containers && w.containers[known[svc]].service == svc;
    if t.Listing? && a.Found? { assert Owns(w, svc, a.id); }
  }

  lemma SettledStill(plan: Plan, w: World, w': World, ids: map<string, string>)
    requires Settled(plan, w, ids) && SameStock(plan, w, w')
    ensures Settled(plan, w', ids)
  {
    forall n | n in plan.keep && n in plan.project ensures n in ids && Suits(plan, w', n, ids[n]) {
      assert Suits(plan, w, n, ids[n]);
      assert SameIdentity(w.containers[ids[n]], w'.containers[ids[n]]);
      forall id | Owns(w', n, id) ensures id == ids[n] { assert Owns(w, n, id); }
    }
  }

  ghost predicate TasksReuse(plan: Plan, w: World, tasks: map<string, Task>, known: map<string, string>) {
    forall n :: n in tasks ==> n in known && Reusing(plan, w, n, tasks[n], known[n])
  }

  ghost predicate Reused(plan: Plan, s: State, known: map<string, string>) {
    && Settled(plan, s.world, known)
    && TasksReuse(plan, s.world, s.tasks, known)
    && (forall n :: n in s.ids ==> n in known && s.ids[n] == known[n])
    && (forall i :: 0 <= i < |s.log| ==> Quiet(s.log[i]))
  }

  lemma ReusingStill(plan: Plan, w: World, w': World, svc: string, t: Task, id: string)
    requires SameStock(plan, w, w') && svc in plan.keep && Reusing(plan, w, svc, t, id)
    ensures Reusing(plan, w', svc, t, id)
  {}

  lemma TasksKept(plan: Plan, s: State, n: string)
    requires Shape(plan, s) && n in s.tasks
    ensures n in plan.keep && n in plan.project
  {
    assert n in Tasks(plan, s.level);
  }

  lemma ActReused(plan: Plan, s: State, svc: string, turn: Turn, known: map<string, string>)
    requires Shape(plan, s) && Reused(plan, s, known) && svc in s.tasks && SameStock(plan, s.world, turn.world)
    requires Reusing(plan, turn.world, svc, turn.task, known[svc]) && (turn.event.Some? ==> Quiet(turn.event.value))
    ensures Reused(plan, Acted(s, svc, turn), known)
  {
    SettledStill(plan, s.world, turn.world, known);
    forall n | n in s.tasks ensures n in plan.keep { TasksKept(plan, s, n); }
    TaskReplaced(plan, s.world, turn.world, s.tasks, svc, turn.task, known);
  }

  lemma TaskReplaced(plan: Plan, w: World, w': World, tasks: map<string, Task>, svc: string, task: Task, known: map<string, string>)
    requires TasksReuse(plan, w, tasks, known) && SameStock(plan, w, w') && (forall n :: n in tasks ==> n in plan.keep)
    requires svc in known && Reusing(plan, w', svc, task, known[svc])
    ensures TasksReuse(plan, w', tasks[svc := task], known)
  {
    forall n | n in tasks ensures n in known && Reusing(plan, w', n, tasks[n], known[n]) { ReusingStill(plan, w, w', n, tasks[n], known[n]); }
  }

  /** t keeps the tasks of s, or has fresh ones. */
  ghost predicate SameTasks(plan: Plan, s: State, t: State) {
    t.tasks == s.tasks || forall n :: n in t.tasks ==> t.tasks[n].Idle? && n in plan.keep && n in plan.project
  }

  lemma StillReused(plan: Plan, s: State, t: State, known: map<string, string>)
    requires Shape(plan, s) && Reused(plan, s, known) && SameStock(plan, s.world, t.world) && t.ids == s.ids && SameTasks(plan, s, t)
    requires t.log == s.log || (s.log <= t.log && |t.log| == |s.log| + 1 && Quiet(t.log[|s.log|]))
    ensures Reused(plan, t, known)
  {
    SettledStill(plan, s.world, t.world, known);
    forall n | n in t.tasks ensures n in known && Reusing(plan, t.world, n, t.tasks[n], known[n]) {
      if n in s.tasks && t.tasks == s.tasks {
        TasksKept(plan, s, n);
        ReusingStill(plan, s.world, t.world, n, s.tasks[n], known[n]);
      }
    }
  }

  /** What an action that is no task's step leaves as it was. */
  lemma OtherIs(plan: Plan, s: State, a: Action)
    requires Enabled(plan, s, a) && !a.Act? && Calm(plan, s, a)
    ensures var t := Apply(plan, s, a);
      && SameStock(plan, s.world, t.world) && t.ids == s.ids && SameTasks(plan, s, t)
      && (t.log == s.log || (s.log <= t.log && |t.log| == |s.log| + 1 && t.log[|s.log|].Observed?))
  {
    var t := Apply(plan, s, a);
    if a.Advance? { assert forall n :: n in Tasks(plan, t.level) ==> n in plan.keep && n in plan.project; }
  }

  lemma OtherReused(plan: Plan, s: State, a: Action, known: map<string, string>)
    requires Shape(plan, s) && Reused(plan, s, known) && Enabled(plan, s, a) && !a.Act? && Calm(plan, s, a)
    ensures Reused(plan, Apply(plan, s, a), known) && SameStock(plan, s.world, Apply(plan, s, a).world)
  {
    OtherIs(plan, s, a);
    StillReused(plan, s, Apply(plan, s, a), known);
  }

  lemma ReusedStep(plan: Plan, s: State, a: Action, known: map<string, string>)
    requires Inv(plan, s) && Reused(plan, s, known) && Enabled(plan, s, a)
    requires Calm(plan, s, a)
    ensures Reused(plan, Apply(plan, s, a), known) && Apply(plan, s, a).world.containers.Keys == s.world.containers.Keys
  {
    if a.Act? {
      var turn := TaskStep(plan, s.world, s.ids, a.svc, s.tasks[a.svc], a.answer).value;
      assert a.svc in Tasks(plan, s.level);
      TurnReuses(plan, s.world, s.ids, a.svc, s.tasks[a.svc], a.answer, turn, known);
      ActReused(plan, s, a.svc, turn, known);
    } else {
      OtherReused(plan, s, a, known);
    }
  }

  /** Whatever every calm step keeps holds all along an inspectable run. */
  lemma {:induction false} CalmRunKeeps(plan: Plan, s: State, acts: seq<Action>, holds: State -> bool)
    requires holds(s) && IsRun(plan, s, acts) && Inspectable(plan, s, acts)
    requires forall x, a {:trigger Apply(plan, x, a)} :: holds(x) && Enabled(plan, x, a) && Calm(plan, x, a) ==> holds(Apply(plan, x, a))
    ensures holds(After(plan, s, acts))
    decreases |acts|
  {
    if acts != [] { CalmRunKeeps(plan, Apply(plan, s, acts[0]), acts[1..], holds); }
  }

  lemma {:induction false} RunReused(plan: Plan, s: State, acts: seq<Action>, known: map<string, string>)
    requires ValidPlan(plan) && Inv(plan, s) && Reused(plan, s, known) && IsRun(plan, s, acts) && Inspectable(plan, s, acts)
    ensures Reused(plan, After(plan, s, acts), known) && After(plan, s, acts).world.containers.Keys == s.world.containers.Keys
    decreases |acts|
  {
    if acts != [] {
      ReusedStep(plan, s, acts[0], known);
      StepInv(plan, s, acts[0]);
      RunReused(plan, Apply(plan, s, acts[0]), acts[1..], known);
    }
  }

  /** The digest each managed container is stamped with is what its image resolves to now. */
  ghost predicate Unmoved(plan: Plan, w: World, ids: map<string, string>) {
    forall n :: n in ids && n in plan.project && ids[n] in w.containers && w.containers[ids[n]].hash.Some? ==>
      Resolve(w.images, plan.project[n].image) == w.containers[ids[n]].digest
  }

  lemma FinishedSettles(plan: Plan, w: World, acts: seq<Action>)
    requires IsUp(plan, w, acts) && PlainLabels(plan) && Single(plan, w)
    requires var s := After(plan, Begin(plan, w), acts); s.phase.Finished? && (plan.adopt || Unmoved(plan, s.world, s.ids))
    ensures var s := After(plan, Begin(plan, w), acts); Settled(plan, s.world, s.ids)
  {
    BeginInv(plan, w);
    RunFits(plan, Begin(plan, w), acts);
    UpInv(plan, w, acts);
    FinishedComplete(plan, w, acts);
  }

  lemma ReusedShows(plan: Plan, t: State, known: map<string, string>)
    requires Reused(plan, t, known)
    ensures forall i :: 0 <= i < |t.log| ==> Quiet(t.log[i])
    ensures forall n :: n in t.tasks ==> !t.tasks[n].Removing? && !t.tasks[n].Spawning?
    ensures t.ids.Keys == known.Keys ==> t.ids == known
  {}

  lemma BeginReused(plan: Plan, w: World, known: map<string, string>)
    requires Settled(plan, w, known)
    ensures Reused(plan, Begin(plan, w), known)
  {
    assert forall n :: n in Tasks(plan, 0) ==> n in plan.keep && n in plan.project;
  }

  /** A run over settled containers creates and removes nothing; ended well, it returns their ids. */
  lemma SettledReuses(plan: Plan, w: World, acts: seq<Action>, known: map<string, string>)
    requires IsUp(plan, w, acts) && Settled(plan, w, known) && known.Keys == plan.keep * plan.project.Keys
    requires Inspectable(plan, Begin(plan, w), acts)
    ensures var t := After(plan, Begin(plan, w), acts);
      && (forall i :: 0 <= i < |t.log| ==> Quiet(t.log[i]))
      && (forall n :: n in t.tasks ==> !t.tasks[n].Removing? && !t.tasks[n].Spawning?)
      && t.world.containers.Keys == w.containers.Keys
      && (t.phase.Finished? ==> t.ids == known)
  {
    BeginInv(plan, w);
    BeginReused(plan, w, known);
    RunReused(plan, Begin(plan, w), acts, known);
    ReusedShows(plan, After(plan, Begin(plan, w), acts), known);
    if After(plan, Begin(plan, w), acts).phase.Finished? { FinishedComplete(plan, w, acts); }
  }

  /**
    A second Up of an unchanged plan, with images resolving as stamped and
    inspections answered, creates and removes nothing, whatever the order of
    steps and whatever else fails; when it ends well it returns the same ids.
   */
  lemma SecondUpReuses(plan: Plan, w: World, first: seq<Action>, s: State, second: seq<Action>)
    requires IsUp(plan, w, first) && s == After(plan, Begin(plan, w), first) && PlainLabels(plan) && Single(plan, w)
    requires s.phase.Finished? && (plan.adopt || Unmoved(plan, s.world, s.ids))
    requires IsUp(plan, s.world, second) && Inspectable(plan, Begin(plan, s.world), second)
    ensures var t := After(plan, Begin(plan, s.world), second);
      && (forall i :: 0 <= i < |t.log| ==> Quiet(t.log[i]))
      && (forall n :: n in t.tasks ==> !t.tasks[n].Removing? && !t.tasks[n].Spawning?)
      && t.world.containers.Keys == s.world.containers.Keys
      && (t.phase.Finished? ==> t.ids == s.ids)
  {
    FinishedSettles(plan, w, first);
    FinishedComplete(plan, w, first);
    SettledReuses(plan, s.world, second, s.ids);
  }
}
