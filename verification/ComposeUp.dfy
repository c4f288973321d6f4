/**
  Orchestrator.Up as a state machine. Each goroutine of a level is a task whose
  next step is its next runtime call; steps of different tasks interleave in any
  order and every call may fail. Levels are joined and gated one at a time.
  (compose/orchestrator.go:103-226, 315-617)
 */
module ComposeUp {
  import opened Prelude
  import opened ComposeModel
  import opened ComposeSpec
  import opened ComposeGraph

  // ---- the runtime ----

  datatype RunState = Running | Exited(code: int) | Other

  datatype Health = NoHealth | Healthy | Unhealthy | Pending

  /** A container as its labels and status show it; hash is None when this orchestrator did not create it. */
  datatype Container = Container(service: string, hash: Option<string>, digest: string, state: RunState, health: Health)

  datatype World = World(containers: map<string, Container>, images: map<string, string>)

  datatype Plan = Plan(project: Project, levels: seq<Level>, keep: set<string>, adopt: bool, cx: Context)

  /** resolveImageDigest: the local image id, or the reference itself. */
  function Resolve(images: map<string, string>, ref: string): string {
    if ref != "" && ref in images && images[ref] != "" then images[ref] else ref
  }

  /** The container RunContainer creates. */
  function FromSpec(spec: RunSpec): Container {
    Container(LabelOr(spec.labels, SERVICE_LABEL),
              if HASH_LABEL in spec.labels then Some(spec.labels[HASH_LABEL]) else None,
              LabelOr(spec.labels, DIGEST_LABEL), Other, NoHealth)
  }

  // ---- tasks ----

  datatype Task =
    | Idle
    | Listing(digest: string)
    | Inspecting(digest: string, id: string, running: bool)
    | Removing(digest: string, id: string, inspected: bool)
    | Creating(digest: string)
    | Spawning(digest: string, spec: RunSpec, pulled: bool)
    | Pulling(digest: string, spec: RunSpec)
    | Starting(id: string)
    | Returned(id: string)
    | Ensured(id: string)
    | Broken

  datatype Event =
    | Created(svc: string, id: string, spec: RunSpec)
    | Started(svc: string, id: string)
    | Removed(svc: string, id: string, was: Container, digest: string, inspected: bool)
    | Recorded(svc: string, id: string)
    | Observed(svc: string, cond: string, seen: Container)

  /** What the runtime answers to the call a task makes. */
  datatype Answer = Ok | Fail | Found(id: string) | NotFound | New(id: string) | ImageMissing | Pulled(image: string)

  datatype Turn = Turn(task: Task, world: World, event: Option<Event>)

  /** A container that may stand: attach if it runs, start it otherwise. */
  function Reuse(id: string, running: bool): Task {
    if running then Returned(id) else Starting(id)
  }

  /** The container is someone else's, or carries the wanted hash and digest. */
  predicate Matches(plan: Plan, svc: string, c: Container, digest: string)
    requires svc in plan.project
  {
    c.hash == None || (c.hash == Some(ConfigHash(plan.cx, digest, plan.project[svc])) && c.digest == digest)
  }

  predicate Exists(w: World, svc: string) {
    exists id :: id in w.containers && w.containers[id].service == svc
  }

  function Without(w: World, id: string): World {
    w.(containers := w.containers - {id})
  }

  /** The store after ref was tagged anew, or lost its image. */
  function Retagged(w: World, ref: string, image: Option<string>): World {
    w.(images := if image.Some? then w.images[ref := image.value] else w.images - {ref})
  }

  function With(w: World, id: string, c: Container): World {
    w.(containers := w.containers[id := c])
  }

  /** ensureService, one runtime call at a time; None when the answer cannot come. */
  function TaskStep(plan: Plan, w: World, ids: map<string, string>, svc: string, t: Task, a: Answer): Option<Turn>
    requires svc in plan.project
  {
    var s := plan.project[svc];
    match t
    case Idle =>
      if a.Ok? then Some(Turn(Listing(Resolve(w.images, s.image)), w, None))
      else if a.Fail? then Some(Turn(Listing(s.image), w, None))
      else None
    case Listing(d) =>
      if a.Fail? then Some(Turn(Broken, w, None))
      else if a.NotFound? && !Exists(w, svc) then Some(Turn(Creating(d), w, None))
      else if a.Found? && a.id in w.containers && w.containers[a.id].service == svc then
        var running := w.containers[a.id].state.Running?;
        Some(Turn(if plan.adopt then Reuse(a.id, running) else Inspecting(d, a.id, running), w, None))
      else None
    case Inspecting(d, id, running) =>
      if a.Fail? then Some(Turn(Removing(d, id, false), w, None))
      else if a.Ok? && id in w.containers then
        Some(Turn(if Matches(plan, svc, w.containers[id], d) then Reuse(id, running) else Removing(d, id, true), w, None))
      else None
    case Removing(d, id, inspected) =>
      if a.Fail? then Some(Turn(Broken, w, None))
      else if a.Ok? && id in w.containers then
        Some(Turn(Creating(d), Without(w, id), Some(Removed(svc, id, w.containers[id], d, inspected))))
      else None
    case Creating(d) =>
      if !a.Ok? then None
      else
        var spec := ToRunSpec(plan.cx, s, ConfigHash(plan.cx, d, s), d, ids);
        Some(Turn(if spec.None? then Broken else Spawning(d, spec.value, false), w, None))
    case Spawning(d, spec, pulled) =>
      if a.Fail? then Some(Turn(Broken, w, None))
      else if a.New? && a.id != "" && a.id !in w.containers then
        Some(Turn(Starting(a.id), With(w, a.id, FromSpec(spec)), Some(Created(svc, a.id, spec))))
      else if a.ImageMissing? && !pulled && s.image != "" && s.image !in w.images then Some(Turn(Pulling(d, spec), w, None))
      else None
    case Pulling(d, spec) =>
      if a.Fail? then Some(Turn(Broken, w, None))
      else if a.Pulled? then
        Some(Turn(Spawning(d, spec, true), w.(images := w.images[s.image := a.image]), None))
      else None
    case Starting(id) =>
      if a.Fail? then Some(Turn(Broken, w, None))
      else if a.Ok? && id in w.containers then
        Some(Turn(Returned(id), With(w, id, w.containers[id].(state := Running)), Some(Started(svc, id))))
      else None
    case Returned(id) =>
      if a.Ok? then Some(Turn(Ensured(id), w, Some(Recorded(svc, id)))) else None
    case Ensured(_) => None
    case Broken => None
  }

  // ---- gates ----

  const HEALTHY := "service_healthy"
  const COMPLETED := "service_completed_successfully"

  predicate Gated(cond: string) { cond == HEALTHY || cond == COMPLETED }

  /** declaresActiveHealthcheck. */
  predicate DeclaresHealthcheck(s: Service) {
    s.healthCheck.Some? && !s.healthCheck.value.disable && |s.healthCheck.value.test| > 0 && s.healthCheck.value.test[0] != "NONE"
  }

  datatype Verdict = Pass | Refuse | Wait

  /** One poll of waitFor. */
  function Judge(cond: string, declares: bool, c: Container): Verdict {
    if cond == HEALTHY then
      match c.health
      case Healthy => Pass
      case NoHealth => if !declares && c.state.Running? then Pass else Wait
      case Unhealthy => Refuse
      case Pending => Wait
    else if cond == COMPLETED && c.state.Exited? then (if c.state.code == 0 then Pass else Refuse)
    else Wait
  }

  datatype Requirement = Requirement(cond: string, optional: bool)

  /** What one dependent adds to the requirements gathered so far: a strict one already there stays. */
  function Contribution(plan: Plan, level: Level, n: string, prev: map<string, Requirement>): map<string, Requirement> {
    if n in plan.keep && n in plan.project then
      var deps := plan.project[n].dependsOn;
      map d | d in deps && d in level && Gated(deps[d].condition) && (d in prev ==> prev[d].optional) ::
        Requirement(deps[d].condition, !deps[d].required)
    else map[]
  }

  /** The requirements gateLevel gathers when the project's services come up in this order. */
  function Requirements(plan: Plan, level: Level, order: seq<string>): map<string, Requirement> {
    if order == [] then map[]
    else
      var prev := Requirements(plan, level, order[..|order| - 1]);
      prev + Contribution(plan, level, order[|order| - 1], prev)
  }

  /** The requirement loop of gateLevel, for any iteration order of the two maps. */
  method GatherRequirements(plan: Plan, level: Level, order: seq<string>) returns (required: map<string, Requirement>)
    ensures required == Requirements(plan, level, order)
  {
    required := map[];
    for i := 0 to |order|
      invariant required == Requirements(plan, level, order[..i])
    {
      assert order[..i + 1][..i] == order[..i];
      if order[i] in plan.keep && order[i] in plan.project {
        required := AddDependent(plan, level, order[i], required);
      }
    }
    assert order[..|order|] == order;
  }

  method AddDependent(plan: Plan, level: Level, n: string, prev: map<string, Requirement>) returns (required: map<string, Requirement>)
    requires n in plan.keep && n in plan.project
    ensures required == prev + Contribution(plan, level, n, prev)
  {
    var deps := plan.project[n].dependsOn;
    ghost var adds := Contribution(plan, level, n, prev);
    required := prev;
    var done: set<string> := {};
    while deps.Keys - done != {}
      invariant done <= deps.Keys && required == prev + Restrict(adds, done)
      decreases deps.Keys - done
    {
      var d :| d in deps.Keys - done;
      if d in level && Gated(deps[d].condition) && !(d in required && !required[d].optional) {
        OverlayStep(prev, adds, done, d);
        required := required[d := Requirement(deps[d].condition, !deps[d].required)];
      } else {
        assert d !in adds;
        assert Restrict(adds, done + {d}) == Restrict(adds, done);
      }
      done := done + {d};
    }
    DiffEmpty(deps.Keys, done);
    assert Restrict(adds, done) == adds;
  }

  // ---- the machine ----

  datatype Phase = Ensuring | Gating(req: map<string, Requirement>, todo: set<string>) | Finished | Aborted

  datatype State = State(world: World, ids: map<string, string>, level: nat, phase: Phase, tasks: map<string, Task>, log: seq<Event>)

  /** A step of a task, the end of a level, the steps of its gates, or a change someone else makes to a container's status or to the image store. */
  datatype Action =
    | Act(svc: string, answer: Answer)
    | Join(order: seq<string>)
    | GatePass(svc: string)
    | GateRefuse(svc: string, seen: bool) // the wait fails: what was seen settles it, or the time is up
    | GateSkip(svc: string)
    | Advance
    | Drift(id: string, state: RunState, health: Health)
    | Tag(ref: string, image: Option<string>)

  /** A fresh task for each kept service of a level. */
  function Tasks(plan: Plan, k: nat): map<string, Task> {
    if k < |plan.levels| then map n | n in plan.levels[k] && n in plan.keep && n in plan.project :: Idle else map[]
  }

  /** The start of Up, once the network and volumes exist. */
  function Begin(plan: Plan, w: World): State {
    State(w, map[], 0, if |plan.levels| == 0 then Finished else Ensuring, Tasks(plan, 0), [])
  }

  /** The poll of a wait finds a container that will not comply. */
  predicate SeenToFail(plan: Plan, s: State, svc: string)
    requires s.phase.Gating? && svc in s.phase.req && svc in s.ids
  {
    && s.ids[svc] in s.world.containers && svc in plan.project
    && Judge(s.phase.req[svc].cond, DeclaresHealthcheck(plan.project[svc]), s.world.containers[s.ids[svc]]).Refuse?
  }

  ghost predicate Enabled(plan: Plan, s: State, a: Action) {
    match a
    case Act(svc, answer) =>
      s.phase.Ensuring? && svc in s.tasks && svc in plan.project && TaskStep(plan, s.world, s.ids, svc, s.tasks[svc], answer).Some?
    case Join(order) =>
      && s.phase.Ensuring? && s.level < |plan.levels|
      && (forall n :: n in s.tasks ==> s.tasks[n].Ensured? || s.tasks[n].Broken?)
      && NoDup(order) && Elements(order) == plan.project.Keys
    case GatePass(svc) =>
      && s.phase.Gating? && svc in s.phase.todo && svc in s.phase.req && svc in s.ids && s.ids[svc] in s.world.containers && svc in plan.project
      && Judge(s.phase.req[svc].cond, DeclaresHealthcheck(plan.project[svc]), s.world.containers[s.ids[svc]]).Pass?
    case GateRefuse(svc, seen) =>
      && s.phase.Gating? && svc in s.phase.todo && svc in s.phase.req && svc in s.ids
      && (seen ==> SeenToFail(plan, s, svc))
    case GateSkip(svc) => s.phase.Gating? && svc in s.phase.todo && svc !in s.ids
    case Advance => s.phase.Gating? && s.phase.todo == {}
    case Drift(id, _, _) => id in s.world.containers
    case Tag(_, _) => true
  }

  ghost function Apply(plan: Plan, s: State, a: Action): State
    requires Enabled(plan, s, a)
  {
    match a
    case Act(svc, answer) => Acted(s, svc, TaskStep(plan, s.world, s.ids, svc, s.tasks[svc], answer).value)
    case Join(order) =>
      var req := Requirements(plan, plan.levels[s.level], order);
      s.(phase := if exists n :: n in s.tasks && s.tasks[n].Broken? then Aborted else Gating(req, req.Keys))
    case GatePass(svc) =>
      s.(phase := Gating(s.phase.req, s.phase.todo - {svc}), log := s.log + [Observed(svc, s.phase.req[svc].cond, s.world.containers[s.ids[svc]])])
    case GateRefuse(svc, _) =>
      s.(phase := if s.phase.req[svc].optional then Gating(s.phase.req, s.phase.todo - {svc}) else Aborted)
    case GateSkip(svc) =>
      s.(phase := Gating(s.phase.req, s.phase.todo - {svc}))
    case Advance =>
      s.(level := s.level + 1, phase := if s.level + 1 < |plan.levels| then Ensuring else Finished, tasks := Tasks(plan, s.level + 1))
    case Drift(id, state, health) =>
      s.(world := With(s.world, id, s.world.containers[id].(state := state, health := health)))
    case Tag(ref, image) => s.(world := Retagged(s.world, ref, image))
  }

  /** The state after svc's task took a turn; ensuring records the id for later levels. */
  function Acted(s: State, svc: string, turn: Turn): State {
    State(turn.world, if turn.task.Ensured? then s.ids[svc := turn.task.id] else s.ids, s.level, s.phase,
          s.tasks[svc := turn.task], if turn.event.Some? then s.log + [turn.event.value] else s.log)
  }

  /** A run from s: every action enabled when taken. */
  ghost predicate IsRun(plan: Plan, s: State, acts: seq<Action>)
    decreases |acts|
  {
    acts == [] || (Enabled(plan, s, acts[0]) && IsRun(plan, Apply(plan, s, acts[0]), acts[1..]))
  }

  ghost function After(plan: Plan, s: State, acts: seq<Action>): State
    requires IsRun(plan, s, acts)
    decreases |acts|
  {
    if acts == [] then s else After(plan, Apply(plan, s, acts[0]), acts[1..])
  }
}
