/**
  Which containers a second Up replaces: exactly those whose image has come to
  resolve to something other than the digest they were stamped with.
  (compose/orchestrator.go:318-458)
 */
module ComposeRecreate {
  import opened Prelude
  import Ordering
  import opened ComposeModel
  import opened ComposeSpec
  import opened ComposeGraph
  import opened ComposeUp
  import opened ComposeSafety
  import opened ComposeReuse
  import opened ComposeRuns

  // ---- one service followed through a run ----

  /** The service, its container as the run found it, and what its image resolved to then. */
  datatype Watch = Watch(n: string, id: string, was: Container, digest: string)

  ghost predicate Watches(plan: Plan, x: Watch) {
    x.n in plan.project && x.n in plan.keep && !plan.adopt && x.was.service == x.n
  }

  ghost predicate Stale(plan: Plan, x: Watch)
    requires Watches(plan, x)
  {
    !Matches(plan, x.n, x.was, x.digest)
  }

  ghost predicate WasRemoved(log: seq<Event>, id: string) {
    exists i :: 0 <= i < |log| && log[i].Removed? && log[i].id == id
  }

  /** It is still the service's only container. */
  ghost predicate Untouched(x: Watch, w: World, log: seq<Event>) {
    && Owns(w, x.n, x.id) && SameIdentity(x.was, w.containers[x.id]) && (forall id :: Owns(w, x.n, id) ==> id == x.id)
    && !WasRemoved(log, x.id)
  }

  ghost predicate Outcome(plan: Plan, x: Watch, w: World, log: seq<Event>)
    requires Watches(plan, x)
  {
    if Stale(plan, x) then WasRemoved(log, x.id) else Untouched(x, w, log)
  }

  ghost predicate AtTask(plan: Plan, x: Watch, w: World, log: seq<Event>, t: Task)
    requires Watches(plan, x)
  {
    match t
    case Idle => Untouched(x, w, log)
    case Listing(d) => d == x.digest && Untouched(x, w, log)
    case Inspecting(d, id, _) => d == x.digest && id == x.id && Untouched(x, w, log)
    case Removing(_, id, _) => id == x.id && Stale(plan, x) && Untouched(x, w, log)
    case Creating(_) => Stale(plan, x) && WasRemoved(log, x.id)
    case Spawning(_, _, _) => Stale(plan, x) && WasRemoved(log, x.id)
    case Pulling(_, _) => Stale(plan, x) && WasRemoved(log, x.id)
    case Starting(id) => Outcome(plan, x, w, log) && (!Stale(plan, x) ==> id == x.id)
    case Returned(id) => Outcome(plan, x, w, log) && (!Stale(plan, x) ==> id == x.id)
    case Ensured(id) => Outcome(plan, x, w, log) && (!Stale(plan, x) ==> id == x.id)
    case Broken => (Stale(plan, x) && WasRemoved(log, x.id)) || Untouched(x, w, log)
  }

  /** Where the run stands with the service. */
  ghost predicate Followed(plan: Plan, x: Watch, s: State)
    requires Watches(plan, x)
  {
    if x.n in s.ids then Outcome(plan, x, s.world, s.log)
    else if x.n in s.tasks then AtTask(plan, x, s.world, s.log, s.tasks[x.n])
    else Untouched(x, s.world, s.log)
  }

  // ---- its image stays put ----

  /** The image the run found under ref is still there, and nobody is about to pull it. */
  ghost predicate Held(plan: Plan, s: State, ref: string, image: string) {
    && ref in s.world.images && s.world.images[ref] == image
    && forall m :: m in s.tasks && m in plan.project && s.tasks[m].Pulling? ==> plan.project[m].image != ref
  }

  lemma TurnHolds(plan: Plan, w: World, ids: map<string, string>, svc: string, t: Task, a: Answer, turn: Turn, ref: string)
    requires svc in plan.project && TaskStep(plan, w, ids, svc, t, a) == Some(turn)
    requires ref in w.images && (t.Pulling? ==> plan.project[svc].image != ref)
    ensures ref in turn.world.images && turn.world.images[ref] == w.images[ref] && (turn.task.Pulling? ==> plan.project[svc].image != ref)
  {}

  lemma ActHolds(plan: Plan, s: State, svc: string, turn: Turn, ref: string, image: string)
    requires Held(plan, s, ref, image) && svc in s.tasks && svc in plan.project
    requires ref in turn.world.images && turn.world.images[ref] == image && (turn.task.Pulling? ==> plan.project[svc].image != ref)
    ensures Held(plan, Acted(s, svc, turn), ref, image)
  {}

  lemma HeldStep(plan: Plan, s: State, a: Action, n: string, image: string)
    requires Enabled(plan, s, a) && Calm(plan, s, a) && n in plan.keep && n in plan.project && Held(plan, s, plan.project[n].image, image)
    ensures Held(plan, Apply(plan, s, a), plan.project[n].image, image)
  {
    if a.Act? {
      var turn := TaskStep(plan, s.world, s.ids, a.svc, s.tasks[a.svc], a.answer).value;
      TurnHolds(plan, s.world, s.ids, a.svc, s.tasks[a.svc], a.answer, turn, plan.project[n].image);
      ActHolds(plan, s, a.svc, turn, plan.project[n].image, image);
    }
  }

  // ---- steps ----

  lemma RemovedStays(log: seq<Event>, more: seq<Event>, id: string)
    requires log <= more && WasRemoved(log, id)
    ensures WasRemoved(more, id)
  {
    var i :| 0 <= i < |log| && log[i].Removed? && log[i].id == id;
    assert more[i] == log[i];
  }

  lemma NotRemovedMore(log: seq<Event>, e: Event, id: string)
    requires !WasRemoved(log, id)
    ensures WasRemoved(log + [e], id) <==> e.Removed? && e.id == id
  {
    var more := log + [e];
    if e.Removed? && e.id == id { assert more[|log|] == e; }
    assert forall i :: 0 <= i < |log| ==> more[i] == log[i];
  }

  /** A turn that leaves the container alone. */
  lemma UntouchedMore(x: Watch, w: World, log: seq<Event>, turn: Turn, log': seq<Event>)
    requires Untouched(x, w, log) && log' == (if turn.event.Some? then log + [turn.event.value] else log)
    requires x.id in turn.world.containers && SameIdentity(w.containers[x.id], turn.world.containers[x.id])
    requires forall id :: Owns(turn.world, x.n, id) ==> Owns(w, x.n, id)
    requires turn.event.Some? && turn.event.value.Removed? ==> turn.event.value.id != x.id
    ensures Untouched(x, turn.world, log')
  {
    if turn.event.Some? { NotRemovedMore(log, turn.event.value, x.id); }
  }

  ghost function Log(log: seq<Event>, turn: Turn): seq<Event> {
    if turn.event.Some? then log + [turn.event.value] else log
  }

  lemma OutcomeMore(plan: Plan, x: Watch, w: World, log: seq<Event>, turn: Turn)
    requires Watches(plan, x) && Outcome(plan, x, w, log)
    requires !Stale(plan, x) ==> Untouched(x, turn.world, Log(log, turn))
    ensures Outcome(plan, x, turn.world, Log(log, turn))
  {
    if Stale(plan, x) { RemovedStays(log, Log(log, turn), x.id); }
  }

  /** The service's own next step, before the outcome is known. */
  lemma OwnEarly(plan: Plan, x: Watch, w: World, ids: map<string, string>, log: seq<Event>, t: Task, a: Answer, turn: Turn)
    requires Watches(plan, x) && TaskOk(plan, w, x.n, t) && AtTask(plan, x, w, log, t) && TaskStep(plan, w, ids, x.n, t, a) == Some(turn)
    requires t.Idle? || t.Listing? || t.Inspecting?
    requires NoEmptyId(w) && x.digest == Resolve(w.images, plan.project[x.n].image) && (a.Fail? ==> !t.Idle? && !t.Inspecting?)
    ensures AtTask(plan, x, turn.world, Log(log, turn), turn.task)
  {
    if t.Listing? && a.Found? { assert Owns(w, x.n, a.id); }
  }

  lemma OwnRemoves(plan: Plan, x: Watch, w: World, ids: map<string, string>, log: seq<Event>, t: Task, a: Answer, turn: Turn)
    requires Watches(plan, x) && AtTask(plan, x, w, log, t) && TaskStep(plan, w, ids, x.n, t, a) == Some(turn) && t.Removing?
    ensures AtTask(plan, x, turn.world, Log(log, turn), turn.task)
  {
    if turn.event.Some? { NotRemovedMore(log, turn.event.value, x.id); }
  }

  lemma OwnCreates(plan: Plan, x: Watch, w: World, ids: map<string, string>, log: seq<Event>, t: Task, a: Answer, turn: Turn)
    requires Watches(plan, x) && AtTask(plan, x, w, log, t) && TaskStep(plan, w, ids, x.n, t, a) == Some(turn)
    requires t.Creating? || t.Spawning? || t.Pulling?
    ensures AtTask(plan, x, turn.world, Log(log, turn), turn.task)
  {
    RemovedStays(log, Log(log, turn), x.id);
  }

  lemma OwnStarts(plan: Plan, x: Watch, w: World, ids: map<string, string>, log: seq<Event>, t: Task, a: Answer, turn: Turn)
    requires Watches(plan, x) && AtTask(plan, x, w, log, t) && TaskStep(plan, w, ids, x.n, t, a) == Some(turn)
    requires t.Starting? || t.Returned?
    ensures AtTask(plan, x, turn.world, Log(log, turn), turn.task)
  {
    if !Stale(plan, x) { UntouchedMore(x, w, log, turn, Log(log, turn)); } else { RemovedStays(log, Log(log, turn), x.id); }
  }

  lemma OwnStep(plan: Plan, x: Watch, w: World, ids: map<string, string>, log: seq<Event>, t: Task, a: Answer, turn: Turn)
    requires Watches(plan, x) && TaskOk(plan, w, x.n, t) && AtTask(plan, x, w, log, t) && TaskStep(plan, w, ids, x.n, t, a) == Some(turn)
    requires NoEmptyId(w) && x.digest == Resolve(w.images, plan.project[x.n].image) && (a.Fail? ==> !t.Idle? && !t.Inspecting?)
    ensures AtTask(plan, x, turn.world, Log(log, turn), turn.task)
  {
    if t.Idle? || t.Listing? || t.Inspecting? { OwnEarly(plan, x, w, ids, log, t, a, turn); }
    else if t.Removing? { OwnRemoves(plan, x, w, ids, log, t, a, turn); }
    else if t.Starting? || t.Returned? { OwnStarts(plan, x, w, ids, log, t, a, turn); }
    else { OwnCreates(plan, x, w, ids, log, t, a, turn); }
  }

  /** Another service's step. */
  ghost predicate Elsewhere(x: Watch, w: World, turn: Turn) {
    && (Owns(w, x.n, x.id) ==> x.id in turn.world.containers && SameIdentity(w.containers[x.id], turn.world.containers[x.id]))
    && (forall id :: Owns(turn.world, x.n, id) ==> Owns(w, x.n, id))
    && (Owns(w, x.n, x.id) && turn.event.Some? && turn.event.value.Removed? ==> turn.event.value.id != x.id)
  }

  lemma OtherElsewhere(plan: Plan, x: Watch, w: World, ids: map<string, string>, svc: string, t: Task, a: Answer, turn: Turn)
    requires svc != x.n && TaskOk(plan, w, svc, t) && TaskStep(plan, w, ids, svc, t, a) == Some(turn) && OnlyTouches(w, turn.world, svc)
    ensures Elsewhere(x, w, turn)
  {
    forall id | Owns(turn.world, x.n, id) ensures Owns(w, x.n, id) { assert turn.world.containers[id].service != svc; }
  }

  lemma UntouchedElsewhere(x: Watch, w: World, log: seq<Event>, turn: Turn)
    requires Untouched(x, w, log) && Elsewhere(x, w, turn)
    ensures Untouched(x, turn.world, Log(log, turn))
  {
    UntouchedMore(x, w, log, turn, Log(log, turn));
  }

  lemma OutcomeElsewhere(plan: Plan, x: Watch, w: World, log: seq<Event>, turn: Turn)
    requires Watches(plan, x) && Outcome(plan, x, w, log) && Elsewhere(x, w, turn)
    ensures Outcome(plan, x, turn.world, Log(log, turn))
  {
    if !Stale(plan, x) { UntouchedElsewhere(x, w, log, turn); }
    OutcomeMore(plan, x, w, log, turn);
  }

  lemma TaskElsewhere(plan: Plan, x: Watch, w: World, log: seq<Event>, t: Task, turn: Turn)
    requires Watches(plan, x) && AtTask(plan, x, w, log, t) && Elsewhere(x, w, turn)
    ensures AtTask(plan, x, turn.world, Log(log, turn), t)
  {
    if Untouched(x, w, log) { UntouchedElsewhere(x, w, log, turn); }
    if WasRemoved(log, x.id) { RemovedStays(log, Log(log, turn), x.id); }
  }

  lemma FollowElsewhere(plan: Plan, x: Watch, s: State, svc: string, turn: Turn)
    requires Watches(plan, x) && Followed(plan, x, s) && svc != x.n && Elsewhere(x, s.world, turn)
    ensures Followed(plan, x, Acted(s, svc, turn))
  {
    if x.n in s.ids { OutcomeElsewhere(plan, x, s.world, s.log, turn); }
    else if x.n in s.tasks { TaskElsewhere(plan, x, s.world, s.log, s.tasks[x.n], turn); }
    else { UntouchedElsewhere(x, s.world, s.log, turn); }
  }

  lemma FollowOwn(plan: Plan, x: Watch, s: State, turn: Turn)
    requires Watches(plan, x) && x.n in s.tasks && x.n !in s.ids && AtTask(plan, x, turn.world, Log(s.log, turn), turn.task)
    ensures Followed(plan, x, Acted(s, x.n, turn))
  {}

  lemma FollowAct(plan: Plan, x: Watch, s: State, a: Action)
    requires ValidPlan(plan) && Inv(plan, s) && Watches(plan, x) && Followed(plan, x, s) && Enabled(plan, s, a) && a.Act? && Calm(plan, s, a)
    requires x.digest == Resolve(s.world.images, plan.project[x.n].image)
    ensures Followed(plan, x, Apply(plan, s, a))
  {
    var t := s.tasks[a.svc];
    var turn := TaskStep(plan, s.world, s.ids, a.svc, t, a.answer).value;
    TurnOk(plan, s.world, s.ids, a.svc, t, a.answer, turn);
    if a.svc == x.n {
      OwnStep(plan, x, s.world, s.ids, s.log, t, a.answer, turn);
      FollowOwn(plan, x, s, turn);
    } else {
      OtherElsewhere(plan, x, s.world, s.ids, a.svc, t, a.answer, turn);
      FollowElsewhere(plan, x, s, a.svc, turn);
    }
  }

  /** A step that is no task's: a gate's, the end of a level, or someone else's. */
  lemma FollowStill(plan: Plan, x: Watch, s: State, t: State)
    requires Watches(plan, x) && Followed(plan, x, s) && SameStock(plan, s.world, t.world) && t.ids == s.ids
    requires t.log == s.log || (exists e: Event :: t.log == s.log + [e] && e.Observed?)
    requires t.tasks == s.tasks || ((x.n in s.tasks ==> x.n in s.ids) && (x.n in t.tasks ==> t.tasks[x.n].Idle?))
    ensures Followed(plan, x, t)
  {
    var e: Event :| t.log == s.log || (t.log == s.log + [e] && e.Observed?);
    var turn := Turn(Idle, t.world, if t.log == s.log then None else Some(e));
    assert Log(s.log, turn) == t.log;
    assert Elsewhere(x, s.world, turn);
    if x.n in s.ids { OutcomeElsewhere(plan, x, s.world, s.log, turn); }
    else if x.n in s.tasks { TaskElsewhere(plan, x, s.world, s.log, s.tasks[x.n], turn); }
    else { UntouchedElsewhere(x, s.world, s.log, turn); }
  }

  lemma FollowOther(plan: Plan, x: Watch, s: State, a: Action)
    requires Inv(plan, s) && Watches(plan, x) && Followed(plan, x, s) && Enabled(plan, s, a) && !a.Act? && Calm(plan, s, a)
    ensures Followed(plan, x, Apply(plan, s, a))
  {
    OtherIs(plan, s, a);
    var t := Apply(plan, s, a);
    if t.log != s.log { assert t.log == s.log + [t.log[|s.log|]]; }
    if a.Advance? && x.n in s.tasks { assert x.n in Tasks(plan, s.level); }
    FollowStill(plan, x, s, t);
  }

  lemma FollowStep(plan: Plan, x: Watch, s: State, a: Action)
    requires ValidPlan(plan) && Inv(plan, s) && Watches(plan, x) && Followed(plan, x, s) && Enabled(plan, s, a) && Calm(plan, s, a)
    requires x.digest == Resolve(s.world.images, plan.project[x.n].image)
    ensures Followed(plan, x, Apply(plan, s, a))
  {
    if a.Act? { FollowAct(plan, x, s, a); } else { FollowOther(plan, x, s, a); }
  }

  /** What a run that starts with the image in the store keeps. */
  ghost predicate Tracked(plan: Plan, x: Watch, image: string, s: State)
    requires Watches(plan, x)
  {
    && Inv(plan, s) && Followed(plan, x, s)
    && (plan.project[x.n].image != "" ==> Held(plan, s, plan.project[x.n].image, image))
  }

  lemma TrackStep(plan: Plan, x: Watch, image: string, s: State, a: Action)
    requires ValidPlan(plan) && Watches(plan, x) && Tracked(plan, x, image, s) && Enabled(plan, s, a) && Calm(plan, s, a)
    requires var ref := plan.project[x.n].image; x.digest == if ref == "" then "" else Resolve(map[ref := image], ref)
    ensures Tracked(plan, x, image, Apply(plan, s, a))
  {
    TrackFollows(plan, x, image, s, a);
    if plan.project[x.n].image != "" { HeldStep(plan, s, a, x.n, image); }
    StepInv(plan, s, a);
  }

  lemma TrackFollows(plan: Plan, x: Watch, image: string, s: State, a: Action)
    requires ValidPlan(plan) && Watches(plan, x) && Tracked(plan, x, image, s) && Enabled(plan, s, a) && Calm(plan, s, a)
    requires var ref := plan.project[x.n].image; x.digest == if ref == "" then "" else Resolve(map[ref := image], ref)
    ensures Followed(plan, x, Apply(plan, s, a))
  {
    FollowStep(plan, x, s, a);
  }

  lemma RunFollows(plan: Plan, x: Watch, s: State, acts: seq<Action>, image: string)
    requires ValidPlan(plan) && Watches(plan, x) && Tracked(plan, x, image, s) && IsRun(plan, s, acts) && Inspectable(plan, s, acts)
    requires var ref := plan.project[x.n].image; x.digest == if ref == "" then "" else Resolve(map[ref := image], ref)
    ensures Followed(plan, x, After(plan, s, acts))
  {
    var holds := (y: State) => Tracked(plan, x, image, y);
    forall y, a | holds(y) && Enabled(plan, y, a) && Calm(plan, y, a) ensures holds(Apply(plan, y, a)) { TrackStep(plan, x, image, y, a); }
    CalmRunKeeps(plan, s, acts, holds);
  }

  // ---- two Ups ----

  lemma FollowedShows(plan: Plan, x: Watch, s: State)
    requires Watches(plan, x) && Followed(plan, x, s)
    ensures WasRemoved(s.log, x.id) ==> Stale(plan, x)
    ensures x.n in s.ids ==> (WasRemoved(s.log, x.id) <==> Stale(plan, x))
  {}

  /** What the first Up leaves of a service is its only container, stamped as the plan stamps it. */
  lemma FirstLeaves(plan: Plan, w: World, first: seq<Action>, n: string)
    requires IsUp(plan, w, first) && PlainLabels(plan) && Single(plan, w)
    requires n in After(plan, Begin(plan, w), first).ids && After(plan, Begin(plan, w), first).phase.Finished?
    ensures var s := After(plan, Begin(plan, w), first);
      && n in plan.keep && n in plan.project && Owns(s.world, n, s.ids[n]) && Fits(plan, n, s.world.containers[s.ids[n]])
      && forall id :: Owns(s.world, n, id) ==> id == s.ids[n]
  {
    BeginInv(plan, w);
    RunFits(plan, Begin(plan, w), first);
    UpInv(plan, w, first);
    FinishedComplete(plan, w, first);
  }

  lemma SecondFollows(plan: Plan, w: World, acts: seq<Action>, x: Watch)
    requires IsUp(plan, w, acts) && Inspectable(plan, Begin(plan, w), acts) && Watches(plan, x) && Untouched(x, w, [])
    requires x.digest == Resolve(w.images, plan.project[x.n].image)
    requires plan.project[x.n].image == "" || plan.project[x.n].image in w.images
    ensures Followed(plan, x, After(plan, Begin(plan, w), acts))
  {
    BeginInv(plan, w);
    var ref := plan.project[x.n].image;
    RunFollows(plan, x, Begin(plan, w), acts, if ref in w.images then w.images[ref] else "");
  }

  /** The image of the container's service no longer resolves to the digest this orchestrator stamped it with. */
  ghost predicate ImageMoved(plan: Plan, w: World, n: string, id: string) {
    n in plan.project && id in w.containers && w.containers[id].hash.Some? && Resolve(w.images, plan.project[n].image) != w.containers[id].digest
  }

  /**
    After an Up that ended well, a second one whose inspections are answered
    removes the container of a service only if the image, which the store then
    held, had moved; and if it ends well, it removes it exactly then.
   */
  lemma RecreatedIffMoved(plan: Plan, w: World, first: seq<Action>, s: State, second: seq<Action>, t: State, n: string)
    requires IsUp(plan, w, first) && s == After(plan, Begin(plan, w), first) && s.phase.Finished? && n in s.ids
    requires !plan.adopt && PlainLabels(plan) && Single(plan, w)
    requires IsUp(plan, s.world, second) && Inspectable(plan, Begin(plan, s.world), second) && t == After(plan, Begin(plan, s.world), second)
    requires n in plan.project && (plan.project[n].image == "" || plan.project[n].image in s.world.images)
    ensures WasRemoved(t.log, s.ids[n]) ==> ImageMoved(plan, s.world, n, s.ids[n])
    ensures t.phase.Finished? ==> (WasRemoved(t.log, s.ids[n]) <==> ImageMoved(plan, s.world, n, s.ids[n]))
  {
    FirstLeaves(plan, w, first, n);
    var x := Watch(n, s.ids[n], s.world.containers[s.ids[n]], Resolve(s.world.images, plan.project[n].image));
    SecondFollows(plan, s.world, second, x);
    FollowedShows(plan, x, t);
    if t.phase.Finished? { FinishedComplete(plan, s.world, second); }
  }

  // ---- an image absent at the first Up ----

  /** A service by itself. */
  ghost predicate Lonely(svc: Service) {
    svc.dependsOn == map[] && RefTarget(svc.networkMode) == "" && RefTarget(svc.pid) == "" && RefTarget(svc.ipc) == ""
  }

  function Alone(svc: Service, cx: Context): Plan {
    Plan(map[svc.name := svc], [[svc.name]], {svc.name}, false, cx)
  }

  lemma AloneValid(svc: Service, cx: Context)
    requires Lonely(svc)
    ensures ValidPlan(Alone(svc, cx))
  {
    var plan, n := Alone(svc, cx), svc.name;
    assert Edges(svc) == {} && Deps(plan.project, n) == {};
    assert GraphOf(plan.project) == map[n := {}];
    Ordering.LessOrders({n});
    assert Elements([n]) == {n};
    Ordering.SortUnique(Ordering.Less, [n], Ordering.SortedKeys({n}));
    assert Placed(plan.levels, 0) == {} && Placed(plan.levels, 1) == {n};
    assert IsLevel(GraphOf(plan.project), plan.levels, 0);
  }

  ghost function Solo(plan: Plan, n: string, w: World, t: Task, log: seq<Event>): State {
    State(w, map[], 0, Ensuring, map[n := t], log)
  }

  /** acts lead from s to t. */
  ghost predicate Runs(plan: Plan, s: State, acts: seq<Action>, t: State) {
    IsRun(plan, s, acts) && After(plan, s, acts) == t
  }

  lemma RunsOn(plan: Plan, s: State, acts: seq<Action>, t: State, a: Action)
    requires Runs(plan, s, acts, t) && Enabled(plan, t, a)
    ensures Runs(plan, s, acts + [a], Apply(plan, t, a))
  {
    assert [a][1..] == [];
    assert IsRun(plan, Apply(plan, t, a), [a][1..]);
    RunConcat(plan, s, acts, [a]);
  }

  lemma SoloStep(plan: Plan, s: State, acts: seq<Action>, n: string, w: World, t: Task, log: seq<Event>, a: Answer, turn: Turn)
    requires n in plan.project && Runs(plan, s, acts, Solo(plan, n, w, t, log))
    requires TaskStep(plan, w, map[], n, t, a) == Some(turn) && !turn.task.Ensured?
    ensures Runs(plan, s, acts + [Act(n, a)], Solo(plan, n, turn.world, turn.task, Log(log, turn)))
  {
    var u := Solo(plan, n, w, t, log);
    RunsOn(plan, s, acts, u, Act(n, a));
    assert Acted(u, n, turn) == Solo(plan, n, turn.world, turn.task, Log(log, turn));
  }

  const NEW_ID := "c"

  /** The container the first Up creates for an image it had to pull. */
  ghost function FirstContainer(svc: Service, cx: Context): Container {
    Container(svc.name, Some(ConfigHash(cx, svc.image, svc)), svc.image, Running, NoHealth)
  }

  lemma SpecStamps(svc: Service, cx: Context, spec: RunSpec)
    requires svc.image != "" && ToRunSpec(cx, svc, ConfigHash(cx, svc.image, svc), svc.image, map[]) == Some(spec)
    ensures FromSpec(spec).(state := Running) == FirstContainer(svc, cx)
  {
    LabelsStick(cx, svc, ConfigHash(cx, svc.image, svc), svc.image);
  }

  ghost const EMPTY: World := World(map[], map[])

  ghost function MissingActs(n: string): seq<Action> {
    [] + [Act(n, Answer.Ok)] + [Act(n, NotFound)] + [Act(n, Answer.Ok)] + [Act(n, ImageMissing)]
  }

  ghost function PulledActs(n: string, image: string): seq<Action> {
    MissingActs(n) + [Act(n, Pulled(image))] + [Act(n, New(NEW_ID))] + [Act(n, Answer.Ok)]
  }

  /** The first Up: nothing is there, the image is missing and pulled, the container created and started. */
  ghost function FirstActs(n: string, image: string): seq<Action> {
    PulledActs(n, image) + [Act(n, Answer.Ok)] + [Join([n])] + [Advance]
  }

  ghost function SecondActs(n: string): seq<Action> {
    [] + [Act(n, Answer.Ok)] + [Act(n, Found(NEW_ID))] + [Act(n, Answer.Ok)] + [Act(n, Answer.Ok)]
  }

  lemma MissesImage(svc: Service, cx: Context, spec: RunSpec)
    requires Lonely(svc) && svc.image != "" && ToRunSpec(cx, svc, ConfigHash(cx, svc.image, svc), svc.image, map[]) == Some(spec)
    ensures var n, plan := svc.name, Alone(svc, cx);
      Runs(plan, Begin(plan, EMPTY), MissingActs(n), Solo(plan, n, EMPTY, Pulling(svc.image, spec), []))
  {
    var n, plan, d := svc.name, Alone(svc, cx), svc.image;
    var s := Begin(plan, EMPTY);
    assert s == Solo(plan, n, EMPTY, Idle, []);
    assert Runs(plan, s, [], s);
    var a := [] + [Act(n, Answer.Ok)];
    SoloStep(plan, s, [], n, EMPTY, Idle, [], Answer.Ok, Turn(Listing(d), EMPTY, None));
    SoloStep(plan, s, a, n, EMPTY, Listing(d), [], NotFound, Turn(Creating(d), EMPTY, None));
    SoloStep(plan, s, a + [Act(n, NotFound)], n, EMPTY, Creating(d), [], Answer.Ok, Turn(Spawning(d, spec, false), EMPTY, None));
    SoloStep(plan, s, a + [Act(n, NotFound)] + [Act(n, Answer.Ok)], n, EMPTY, Spawning(d, spec, false), [], ImageMissing, Turn(Pulling(d, spec), EMPTY, None));
  }

  lemma CreatesPulled(svc: Service, cx: Context, image: string, spec: RunSpec)
    requires Lonely(svc) && svc.image != "" && ToRunSpec(cx, svc, ConfigHash(cx, svc.image, svc), svc.image, map[]) == Some(spec)
    ensures var n, plan := svc.name, Alone(svc, cx);
      Runs(plan, Begin(plan, EMPTY), MissingActs(n) + [Act(n, Pulled(image))] + [Act(n, New(NEW_ID))],
           Solo(plan, n, World(map[NEW_ID := FromSpec(spec)], map[svc.image := image]), Starting(NEW_ID), [] + [Created(n, NEW_ID, spec)]))
  {
    var n, plan, d := svc.name, Alone(svc, cx), svc.image;
    var s, acts := Begin(plan, EMPTY), MissingActs(n);
    MissesImage(svc, cx, spec);
    var w1 := World(map[], map[d := image]);
    SoloStep(plan, s, acts, n, EMPTY, Pulling(d, spec), [], Pulled(image), Turn(Spawning(d, spec, true), w1, None));
    SoloStep(plan, s, acts + [Act(n, Pulled(image))], n, w1, Spawning(d, spec, true), [], New(NEW_ID),
      Turn(Starting(NEW_ID), With(w1, NEW_ID, FromSpec(spec)), Some(Created(n, NEW_ID, spec))));
  }

  /** The service is created after the pull, and stamped with the reference. */
  lemma PullsImage(svc: Service, cx: Context, image: string, spec: RunSpec) returns (log: seq<Event>)
    requires Lonely(svc) && svc.image != "" && ToRunSpec(cx, svc, ConfigHash(cx, svc.image, svc), svc.image, map[]) == Some(spec)
    ensures var n, plan := svc.name, Alone(svc, cx);
      Runs(plan, Begin(plan, EMPTY), PulledActs(n, image), Solo(plan, n, World(map[NEW_ID := FirstContainer(svc, cx)], map[svc.image := image]), Returned(NEW_ID), log))
  {
    var n, plan := svc.name, Alone(svc, cx);
    CreatesPulled(svc, cx, image, spec);
    var w2 := World(map[NEW_ID := FromSpec(spec)], map[svc.image := image]);
    var w3 := With(w2, NEW_ID, FromSpec(spec).(state := Running));
    var before := [] + [Created(n, NEW_ID, spec)];
    log := before + [Started(n, NEW_ID)];
    SoloStep(plan, Begin(plan, EMPTY), MissingActs(n) + [Act(n, Pulled(image))] + [Act(n, New(NEW_ID))], n, w2, Starting(NEW_ID), before,
      Answer.Ok, Turn(Returned(NEW_ID), w3, Some(Started(n, NEW_ID))));
    SpecStamps(svc, cx, spec);
    assert w3 == World(map[NEW_ID := FirstContainer(svc, cx)], map[svc.image := image]);
  }

  lemma SoloFinishes(svc: Service, cx: Context, s: State, acts: seq<Action>, w: World, log: seq<Event>) returns (t: State)
    requires Lonely(svc) && Runs(Alone(svc, cx), s, acts, Solo(Alone(svc, cx), svc.name, w, Returned(NEW_ID), log))
    ensures Runs(Alone(svc, cx), s, acts + [Act(svc.name, Answer.Ok)] + [Join([svc.name])] + [Advance], t)
    ensures t.phase.Finished? && t.world == w && t.ids == map[svc.name := NEW_ID]
  {
    var n, plan := svc.name, Alone(svc, cx);
    var u := Solo(plan, n, w, Returned(NEW_ID), log);
    var a := Acted(u, n, Turn(Ensured(NEW_ID), w, Some(ComposeUp.Recorded(n, NEW_ID))));
    RunsOn(plan, s, acts, u, Act(n, Answer.Ok));
    assert Apply(plan, u, Act(n, Answer.Ok)) == a;
    assert Elements([n]) == plan.project.Keys;
    var b := Apply(plan, a, Join([n]));
    RunsOn(plan, s, acts + [Act(n, Answer.Ok)], a, Join([n]));
    RequirementsNone(plan, n);
    t := Apply(plan, b, Advance);
    RunsOn(plan, s, acts + [Act(n, Answer.Ok)] + [Join([n])], b, Advance);
  }

  lemma RequirementsNone(plan: Plan, n: string)
    requires n in plan.project && plan.project[n].dependsOn == map[]
    ensures Requirements(plan, [n], [n]) == map[]
  {
    assert [n][..0] == [];
    assert Requirements(plan, [n], []) == map[];
  }

  /** The next Up finds the pulled image where the reference was stamped. */
  lemma RemovedNext(svc: Service, cx: Context, image: string) returns (t: State)
    requires Lonely(svc) && svc.image != "" && image != "" && image != svc.image
    ensures var plan := Alone(svc, cx);
      Runs(plan, Begin(plan, World(map[NEW_ID := FirstContainer(svc, cx)], map[svc.image := image])), SecondActs(svc.name), t) && WasRemoved(t.log, NEW_ID)
  {
    var n, plan, c := svc.name, Alone(svc, cx), FirstContainer(svc, cx);
    var w := World(map[NEW_ID := c], map[svc.image := image]);
    var s := Begin(plan, w);
    assert s == Solo(plan, n, w, Idle, []);
    assert Runs(plan, s, [], s);
    var a := [] + [Act(n, Answer.Ok)];
    SoloStep(plan, s, [], n, w, Idle, [], Answer.Ok, Turn(Listing(image), w, None));
    SoloStep(plan, s, a, n, w, Listing(image), [], Found(NEW_ID), Turn(Inspecting(image, NEW_ID, true), w, None));
    SoloStep(plan, s, a + [Act(n, Found(NEW_ID))], n, w, Inspecting(image, NEW_ID, true), [], Answer.Ok, Turn(Removing(image, NEW_ID, true), w, None));
    var e := Removed(n, NEW_ID, c, image, true);
    SoloStep(plan, s, a + [Act(n, Found(NEW_ID))] + [Act(n, Answer.Ok)], n, w, Removing(image, NEW_ID, true), [], Answer.Ok, Turn(Creating(image), Without(w, NEW_ID), Some(e)));
    t := Solo(plan, n, Without(w, NEW_ID), Creating(image), [] + [e]);
    assert t.log[0] == e;
  }

  /**
    An image absent at the first Up: the container is stamped by reference, the
    pull gives the reference an image, and the next Up removes the container.
   */
  lemma AbsentImageRecreates(svc: Service, cx: Context, image: string)
    requires Lonely(svc) && svc.image != "" && image != "" && image != svc.image
    ensures var plan := Alone(svc, cx);
      && IsUp(plan, EMPTY, FirstActs(svc.name, image))
      && var s := After(plan, Begin(plan, EMPTY), FirstActs(svc.name, image));
         && s.phase.Finished? && svc.name in s.ids && ImageMoved(plan, s.world, svc.name, s.ids[svc.name])
         && IsUp(plan, s.world, SecondActs(svc.name))
         && WasRemoved(After(plan, Begin(plan, s.world), SecondActs(svc.name)).log, s.ids[svc.name])
  {
    AloneValid(svc, cx);
    var spec := ToRunSpec(cx, svc, ConfigHash(cx, svc.image, svc), svc.image, map[]).value;
    var w := World(map[NEW_ID := FirstContainer(svc, cx)], map[svc.image := image]);
    var log := PullsImage(svc, cx, image, spec);
    var s := SoloFinishes(svc, cx, Begin(Alone(svc, cx), EMPTY), PulledActs(svc.name, image), w, log);
    var t := RemovedNext(svc, cx, image);
  }
}
