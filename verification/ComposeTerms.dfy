/**
  What runs of Up show, told on the services' own fields: which services one
  waits for, when a gate opens, that containers are created as declared and
  that only containers that ran are recorded. (compose/orchestrator.go:103-226,
  463-757, 945-970; compose/graph.go:136-162)
 */
module ComposeTerms {
  import opened Prelude
  import opened ComposeModel
  import opened ComposeSpec
  import opened ComposeGraph
  import opened ComposeUp
  import opened ComposeSafety

  // ---- dependencies ----

  /** n names d in depends_on, or shares d's network, process or IPC namespace. */
  predicate Names(s: Service, d: string) {
    d in s.dependsOn || (d != "" && (s.networkMode == "service:" + d || s.pid == "service:" + d || s.ipc == "service:" + d))
  }

  lemma RefTargetIs(v: string, d: string)
    ensures d != "" ==> (RefTarget(v) == d <==> v == "service:" + d)
  {
    if "service:" < v { assert v == v[..8] + v[8..]; }
    if v == "service:" + d { assert v[8..] == d; }
  }

  /** A service depends on exactly the other services of the project that it names. */
  lemma DepsNamed(p: Project, n: string, d: string)
    requires n in p
    ensures d in Deps(p, n) <==> d in p && d != n && Names(p[n], d)
  {
    var s := p[n];
    RefTargetIs(s.networkMode, d);
    RefTargetIs(s.pid, d);
    RefTargetIs(s.ipc, d);
    if d != "" && RefTarget(s.networkMode) == d { assert s.networkMode in {s.networkMode, s.pid, s.ipc}; }
    if d != "" && RefTarget(s.pid) == d { assert s.pid in {s.networkMode, s.pid, s.ipc}; }
    if d != "" && RefTarget(s.ipc) == d { assert s.ipc in {s.networkMode, s.pid, s.ipc}; }
  }

  /** No container is created or started before each other service of the project that its own names was recorded. */
  lemma StartsAfterNamed(plan: Plan, w: World, acts: seq<Action>, i: nat, d: string)
    requires IsUp(plan, w, acts)
    requires var log := After(plan, Begin(plan, w), acts).log;
      && i < |log| && (log[i].Created? || log[i].Started?) && log[i].svc in plan.project
      && d in plan.project && d != log[i].svc && Names(plan.project[log[i].svc], d)
    ensures var log := After(plan, Begin(plan, w), acts).log; exists j :: 0 <= j < i && log[j].Recorded? && log[j].svc == d
  {
    var s := After(plan, Begin(plan, w), acts);
    DepsNamed(plan.project, s.log[i].svc, d);
    StartsAfterDependencies(plan, w, acts, i, d);
    var j :| 0 <= j < i && s.log[j] == Recorded(d, s.ids[d]);
  }

  // ---- conditions ----

  /** Nothing the service declares makes a runtime report a health status. */
  predicate NoActiveCheck(s: Service) {
    match s.healthCheck
    case None => true
    case Some(h) => h.disable || h.test == [] || h.test[0] == "NONE"
  }

  /** What a poll must see of a container of s for the condition to be met. */
  predicate Complies(s: Service, cond: string, c: Container) {
    || (cond == "service_healthy" && (c.health == Healthy || (c.health == NoHealth && c.state == Running && NoActiveCheck(s))))
    || (cond == "service_completed_successfully" && c.state == Exited(0))
  }

  lemma CompliesIs(s: Service, cond: string, c: Container)
    ensures Satisfies(DeclaresHealthcheck(s), cond, c) <==> Complies(s, cond, c)
  {}

  /**
    While a level is gated, the wait for a service can end well exactly when its
    container complies; so a running container that reports no health passes a
    service_healthy gate exactly when its service has no active healthcheck.
   */
  lemma GateOpensIff(plan: Plan, s: State, svc: string)
    requires s.phase.Gating? && svc in s.phase.todo && svc in s.phase.req && svc in plan.project && svc in s.ids && s.ids[svc] in s.world.containers
    ensures var c, cond := s.world.containers[s.ids[svc]], s.phase.req[svc].cond;
      && (Enabled(plan, s, GatePass(svc)) <==> Complies(plan.project[svc], cond, c))
      && (cond == "service_healthy" && c.health == NoHealth && c.state == Running ==> (Enabled(plan, s, GatePass(svc)) <==> NoActiveCheck(plan.project[svc])))
  {
    var c, cond := s.world.containers[s.ids[svc]], s.phase.req[svc].cond;
    PassSatisfies(cond, DeclaresHealthcheck(plan.project[svc]), c);
    CompliesIs(plan.project[svc], cond, c);
  }

  /** A wait can always run out of time; it is given up at once exactly when the container is unhealthy where health is asked for, or ended badly where its end is. */
  lemma GateFailsAtOnceIff(plan: Plan, s: State, svc: string)
    requires s.phase.Gating? && svc in s.phase.todo && svc in s.phase.req && svc in plan.project && svc in s.ids && s.ids[svc] in s.world.containers
    ensures var c, cond := s.world.containers[s.ids[svc]], s.phase.req[svc].cond;
      Enabled(plan, s, GateRefuse(svc, true)) <==>
        || (cond == "service_healthy" && c.health == Unhealthy)
        || (cond == "service_completed_successfully" && c.state.Exited? && c.state.code != 0)
    ensures Enabled(plan, s, GateRefuse(svc, false))
  {}

  /** n, brought up by this plan, names d in depends_on as required under one of the two conditions that are waited for. */
  ghost predicate Requires(plan: Plan, n: string, d: string, cond: string) {
    && n in plan.keep && n in plan.project && d in plan.project[n].dependsOn
    && plan.project[n].dependsOn[d].condition == cond && plan.project[n].dependsOn[d].required
    && cond in {"service_healthy", "service_completed_successfully"}
  }

  lemma RequiresIs(plan: Plan, n: string, d: string, cond: string)
    ensures Requires(plan, n, d, cond) <==> StrictlyAsks(plan, n, d, cond)
  {}

  /** What an event shows of a service is that it was seen to comply. */
  ghost predicate ShowsMet(plan: Plan, e: Event, d: string, cond: string) {
    e.Observed? && e.svc == d && e.cond == cond && d in plan.project && Complies(plan.project[d], cond, e.seen)
  }

  /**
    No container is created or started before each service that its own
    requires under a condition was seen to meet that condition, provided the
    kept services that require anything of it require the same.
   */
  lemma StartsOnTerms(plan: Plan, w: World, acts: seq<Action>, i: nat, d: string, cond: string)
    requires IsUp(plan, w, acts) && d in plan.project
    requires var log := After(plan, Begin(plan, w), acts).log;
      i < |log| && (log[i].Created? || log[i].Started?) && log[i].svc != d && Requires(plan, log[i].svc, d, cond)
    requires forall n, c :: Requires(plan, n, d, c) ==> c == cond
    ensures exists j :: 0 <= j < i && ShowsMet(plan, After(plan, Begin(plan, w), acts).log[j], d, cond)
  {
    var s := After(plan, Begin(plan, w), acts);
    var n := s.log[i].svc;
    DepsNamed(plan.project, n, d);
    RequiresIs(plan, n, d, cond);
    forall m, c | StrictlyAsks(plan, m, d, c) ensures c == cond { RequiresIs(plan, m, d, c); }
    StartsAfterConditions(plan, w, acts, i, d, cond);
    var j :| 0 <= j < i && s.log[j].Observed? && s.log[j].svc == d && s.log[j].cond == cond && Satisfies(DeclaresHealthcheck(plan.project[d]), cond, s.log[j].seen);
    CompliesIs(plan.project[d], cond, s.log[j].seen);
    assert ShowsMet(plan, s.log[j], d, cond);
  }

  /** Only services brought up by the plan have containers created or started. */
  ghost predicate KeptIn(plan: Plan, log: seq<Event>) {
    forall i :: 0 <= i < |log| && (log[i].Created? || log[i].Started?) ==> log[i].svc in plan.keep && log[i].svc in plan.project
  }

  lemma KeptTurn(plan: Plan, s: State, svc: string, turn: Turn)
    requires KeptIn(plan, s.log) && svc in plan.keep && svc in plan.project && svc in s.tasks
    requires turn.event.Some? ==> turn.event.value.svc == svc
    ensures KeptIn(plan, Acted(s, svc, turn).log)
  {}

  /** Steps that are no task's add at most an observation. */
  lemma OtherLogs(plan: Plan, s: State, a: Action)
    requires Enabled(plan, s, a) && !a.Act?
    ensures var log := Apply(plan, s, a).log; log == s.log || (|log| == |s.log| + 1 && s.log <= log && log[|s.log|].Observed?)
  {}

  lemma KeptMore(plan: Plan, log: seq<Event>, more: seq<Event>)
    requires KeptIn(plan, log) && (more == log || (|more| == |log| + 1 && log <= more && more[|log|].Observed?))
    ensures KeptIn(plan, more)
  {}

  lemma KeptAct(plan: Plan, s: State, svc: string, a: Answer)
    requires ValidPlan(plan) && Inv(plan, s) && KeptIn(plan, s.log) && Enabled(plan, s, Act(svc, a))
    ensures KeptIn(plan, Apply(plan, s, Act(svc, a)).log)
  {
    assert svc in Tasks(plan, s.level);
    var turn := TaskStep(plan, s.world, s.ids, svc, s.tasks[svc], a).value;
    TurnOk(plan, s.world, s.ids, svc, s.tasks[svc], a, turn);
    KeptTurn(plan, s, svc, turn);
  }

  lemma KeptEvents(plan: Plan, s: State, a: Action)
    requires ValidPlan(plan) && Inv(plan, s) && KeptIn(plan, s.log) && Enabled(plan, s, a)
    ensures KeptIn(plan, Apply(plan, s, a).log)
  {
    if a.Act? {
      KeptAct(plan, s, a.svc, a.answer);
    } else {
      OtherLogs(plan, s, a);
      KeptMore(plan, s.log, Apply(plan, s, a).log);
    }
  }

  lemma {:induction false} RunKeptEvents(plan: Plan, s: State, acts: seq<Action>)
    requires ValidPlan(plan) && Inv(plan, s) && KeptIn(plan, s.log) && IsRun(plan, s, acts)
    ensures KeptIn(plan, After(plan, s, acts).log)
    decreases |acts|
  {
    if acts != [] {
      StepInv(plan, s, acts[0]);
      KeptEvents(plan, s, acts[0]);
      RunKeptEvents(plan, Apply(plan, s, acts[0]), acts[1..]);
    }
  }

  /** Up creates and starts containers only for services it was asked to bring up. */
  lemma OnlyKeptStart(plan: Plan, w: World, acts: seq<Action>)
    requires IsUp(plan, w, acts)
    ensures KeptIn(plan, After(plan, Begin(plan, w), acts).log)
  {
    BeginInv(plan, w);
    RunKeptEvents(plan, Begin(plan, w), acts);
  }

  // ---- what is created ----

  /** The mount a volume entry becomes. */
  ghost predicate MountedAs(project: string, v: Volume, m: ComposeSpec.Mount) {
    && m.target == v.target && m.readOnly == v.readOnly
    && (match m.kind case VolumeMount => v.kind == "volume" case Tmpfs => v.kind == "tmpfs" case Bind => v.kind != "volume" && v.kind != "tmpfs")
    && m.source == (match m.kind case VolumeMount => (if v.source == "" then "" else project + "_" + v.source) case _ => v.source)
  }

  /** The labels only the orchestrator sets. */
  const OWN_LABELS := {
    "com.docker.compose.project", "com.docker.compose.service", "com.docker.compose.oneoff",
    "dev.containers.engine", "dev.containers.config-hash", "dev.containers.image-digest"
  }

  ghost predicate LabelIs(labels: map<string, string>, k: string, v: string) { k in labels && labels[k] == v }

  /** Its own labels first, then the service's, then those common to the project. */
  ghost predicate LabelledAs(cx: Context, s: Service, digest: string, labels: map<string, string>) {
    && LabelIs(labels, "com.docker.compose.project", cx.projectName) && LabelIs(labels, "com.docker.compose.service", s.name)
    && LabelIs(labels, "com.docker.compose.oneoff", "False") && LabelIs(labels, "dev.containers.engine", "devcontainer-go/compose")
    && LabelIs(labels, "dev.containers.config-hash", cx.digest(digest, s.(dependsOn := map[], deploy := None, unrun := "")))
    && (digest != "" ==> LabelIs(labels, "dev.containers.image-digest", digest))
    && (forall k :: k in s.labels && k !in OWN_LABELS ==> LabelIs(labels, k, s.labels[k]))
    && (forall k :: k in cx.labels && k !in s.labels && k !in OWN_LABELS ==> LabelIs(labels, k, cx.labels[k]))
    && (forall k :: k in labels ==> k in OWN_LABELS || k in s.labels || k in cx.labels)
  }

  ghost predicate RestartsAs(s: string, p: RestartPolicy) {
    match p
    case RestartAlways => s == "always"
    case RestartOnFailure => s == "on-failure"
    case RestartUnlessStopped => s == "unless-stopped"
    case RestartNo => s !in {"always", "on-failure", "unless-stopped"}
  }

  /** The limits: deploy's where it sets them, else the service's own. */
  ghost predicate LimitedAs(s: Service, memory: int, nanoCPUs: int) {
    && memory == (if s.deploy.Some? && s.deploy.value.memory != 0 then s.deploy.value.memory else s.memLimit)
    && nanoCPUs == (if s.deploy.Some? && s.deploy.value.nanoCPUs > 0 then s.deploy.value.nanoCPUs else if s.cpus > 0 then s.cpus else 0)
  }

  ghost predicate EnvironAs(s: Service, env: map<string, string>) {
    forall k :: (k in env <==> k in s.environment && s.environment[k].Some?) && (k in env ==> s.environment[k] == Some(env[k]))
  }

  /** A joined namespace by the container recorded for its service, any other mode as declared. */
  ghost predicate JoinsAs(mode: string, ids: map<string, string>, out: string) {
    if exists d :: d != "" && mode == "service:" + d then exists d :: d in ids && mode == "service:" + d && out == "container:" + ids[d] else out == mode
  }

  /** The container is the service as declared. */
  ghost predicate CreatedAs(cx: Context, s: Service, digest: string, spec: RunSpec) {
    && spec.image == s.image && spec.name == cx.projectName + "-" + s.name + "-1"
    && spec.cmd == s.command && spec.entrypoint == s.entrypoint && spec.user == s.user && spec.workingDir == s.workingDir
    && EnvironAs(s, spec.env) && LabelledAs(cx, s, digest, spec.labels)
    && |spec.mounts| == |s.volumes| && (forall k :: 0 <= k < |s.volumes| ==> MountedAs(cx.projectName, s.volumes[k], spec.mounts[k]))
    && spec.networks == (if s.networkMode == "" then [cx.projectName + "_default"] else [])
    && spec.ports == s.ports && RestartsAs(s.restart, spec.restart) && spec.healthCheck == s.healthCheck
    && (spec.init <==> s.init == Some(true)) && spec.capAdd == s.capAdd && spec.privileged == s.privileged && spec.securityOpt == s.securityOpt
    && LimitedAs(s, spec.memory, spec.nanoCPUs)
  }

  lemma LabelsAre(cx: Context, s: Service, digest: string)
    ensures LabelledAs(cx, s, digest, StampedLabels(cx, s, ConfigHash(cx, digest, s), digest))
  {
    assert OWN_LABELS == RESERVED;
  }

  lemma ModeIs(v: string, ids: map<string, string>)
    ensures ResolveMode(v, ids).Some? ==> JoinsAs(v, ids, ResolveMode(v, ids).value) && (ResolveMode(v, ids).value == "" <==> v == "")
  {
    var t := RefTarget(v);
    RefTargetIs(v, t);
    if d :| d != "" && v == "service:" + d { RefTargetIs(v, d); }
  }

  lemma SpecIs(cx: Context, s: Service, digest: string, ids: map<string, string>, spec: RunSpec)
    requires ToRunSpec(cx, s, ConfigHash(cx, digest, s), digest, ids) == Some(spec)
    ensures CreatedAs(cx, s, digest, spec)
  {
    LabelsAre(cx, s, digest);
    ModeIs(s.networkMode, ids);
  }

  /** The new container is known by its labels as its service's under that configuration and image; it does not run yet and reports no health. */
  lemma CreatedShows(cx: Context, s: Service, digest: string, spec: RunSpec)
    requires CreatedAs(cx, s, digest, spec)
    ensures var c := FromSpec(spec);
      && c.service == s.name && c.hash == Some(cx.digest(digest, s.(dependsOn := map[], deploy := None, unrun := "")))
      && (digest != "" ==> c.digest == digest) && c.state == Other && c.health == NoHealth
  {
    assert LabelIs(spec.labels, "com.docker.compose.service", s.name);
  }

  /** e creates a container as its service is declared, joining the containers recorded. */
  ghost predicate AsDeclared(plan: Plan, ids: map<string, string>, e: Event) {
    e.Created? ==>
      && e.svc in plan.project && (exists digest :: CreatedAs(plan.cx, plan.project[e.svc], digest, e.spec))
      && JoinsAs(plan.project[e.svc].networkMode, ids, e.spec.networkMode)
      && JoinsAs(plan.project[e.svc].pid, ids, e.spec.pidMode) && JoinsAs(plan.project[e.svc].ipc, ids, e.spec.ipcMode)
  }

  ghost predicate AllStamped(plan: Plan, log: seq<Event>) {
    forall i :: 0 <= i < |log| && log[i].Created? ==> exists digest :: Stamped(plan, log[i].svc, digest, log[i].spec)
  }

  lemma StampedMore(plan: Plan, log: seq<Event>, e: Event)
    requires AllStamped(plan, log) && (e.Created? ==> exists digest :: Stamped(plan, e.svc, digest, e.spec))
    ensures AllStamped(plan, log + [e])
  {}

  lemma CreatedStamped(plan: Plan, s: State, a: Action)
    requires ValidPlan(plan) && Inv(plan, s) && AllStamped(plan, s.log) && Enabled(plan, s, a)
    ensures AllStamped(plan, Apply(plan, s, a).log)
  {
    if a.Act? {
      var t := s.tasks[a.svc];
      var turn := TaskStep(plan, s.world, s.ids, a.svc, t, a.answer).value;
      assert TaskOk(plan, s.world, a.svc, t);
      if turn.event.Some? {
        SpawnEvent(plan, s, a.svc, t, a.answer, turn);
        StampedMore(plan, s.log, turn.event.value);
      }
    } else if a.GatePass? {
      StampedMore(plan, s.log, Apply(plan, s, a).log[|s.log|]);
    }
  }

  lemma SpawnEvent(plan: Plan, s: State, svc: string, t: Task, a: Answer, turn: Turn)
    requires svc in plan.project && TaskOk(plan, s.world, svc, t) && TaskStep(plan, s.world, s.ids, svc, t, a) == Some(turn) && turn.event.Some?
    ensures var e := turn.event.value; e.Created? ==> exists digest :: Stamped(plan, e.svc, digest, e.spec)
  {
    if turn.event.value.Created? { assert t.Spawning? && Stamped(plan, svc, t.digest, t.spec); }
  }

  lemma {:induction false} RunStamped(plan: Plan, s: State, acts: seq<Action>)
    requires ValidPlan(plan) && Inv(plan, s) && AllStamped(plan, s.log) && IsRun(plan, s, acts)
    ensures AllStamped(plan, After(plan, s, acts).log)
    decreases |acts|
  {
    if acts != [] {
      StepInv(plan, s, acts[0]);
      CreatedStamped(plan, s, acts[0]);
      RunStamped(plan, Apply(plan, s, acts[0]), acts[1..]);
    }
  }

  /** Every container a run of Up creates is its service as declared, stamped with its configuration, and joins the namespaces of the containers recorded. */
  lemma CreatesAsDeclared(plan: Plan, w: World, acts: seq<Action>, i: nat)
    requires IsUp(plan, w, acts) && i < |After(plan, Begin(plan, w), acts).log|
    ensures var s := After(plan, Begin(plan, w), acts); AsDeclared(plan, s.ids, s.log[i])
  {
    BeginInv(plan, w);
    RunStamped(plan, Begin(plan, w), acts);
    var s := After(plan, Begin(plan, w), acts);
    if s.log[i].Created? {
      JoinsRecorded(plan, w, acts, i);
      EventDeclared(plan, s.ids, s.log[i]);
    }
  }

  lemma EventDeclared(plan: Plan, ids: map<string, string>, e: Event)
    requires e.Created? && (exists digest :: Stamped(plan, e.svc, digest, e.spec)) && Joined(plan, ids, e.svc, e.spec)
    ensures AsDeclared(plan, ids, e)
  {
    var digest :| Stamped(plan, e.svc, digest, e.spec);
    var s := plan.project[e.svc];
    var at: map<string, string> :| ToRunSpec(plan.cx, s, ConfigHash(plan.cx, digest, s), digest, at) == Some(e.spec);
    SpecIs(plan.cx, s, digest, at, e.spec);
    ModeIs(s.networkMode, ids);
    ModeIs(s.pid, ids);
    ModeIs(s.ipc, ids);
  }

  // ---- what is recorded ran ----

  ghost predicate Runs(s: State, id: string) { id in s.world.containers && s.world.containers[id].state == Running }

  /** The container was seen running at some point of the run. */
  ghost predicate RanDuring(plan: Plan, s: State, acts: seq<Action>, id: string)
    requires IsRun(plan, s, acts)
    decreases |acts|
  {
    Runs(s, id) || (acts != [] && RanDuring(plan, Apply(plan, s, acts[0]), acts[1..], id))
  }

  /** A task about to return a container without starting it knows one that ran. */
  ghost predicate TaskRan(t: Task, ran: set<string>) {
    match t
    case Inspecting(_, id, running) => running ==> id in ran
    case Returned(id) => id in ran
    case Ensured(id) => id in ran
    case _ => true
  }

  ghost predicate AllRan(s: State, ran: set<string>) {
    (forall n :: n in s.tasks ==> TaskRan(s.tasks[n], ran)) && (forall n :: n in s.ids ==> s.ids[n] in ran)
  }

  lemma TurnRan(plan: Plan, w: World, ids: map<string, string>, svc: string, t: Task, a: Answer, turn: Turn, ran: set<string>)
    requires svc in plan.project && TaskStep(plan, w, ids, svc, t, a) == Some(turn) && TaskRan(t, ran)
    requires forall id :: id in w.containers && w.containers[id].state == Running ==> id in ran
    requires forall id :: id in turn.world.containers && turn.world.containers[id].state == Running ==> id in ran
    ensures TaskRan(turn.task, ran)
  {}

  lemma ActRan(s: State, svc: string, turn: Turn, ran: set<string>)
    requires AllRan(s, ran) && svc in s.tasks && TaskRan(turn.task, ran)
    ensures AllRan(Acted(s, svc, turn), ran)
  {}

  lemma StepRan(plan: Plan, s: State, a: Action, ran: set<string>)
    requires Enabled(plan, s, a) && AllRan(s, ran)
    requires forall id :: Runs(s, id) ==> id in ran
    requires forall id :: Runs(Apply(plan, s, a), id) ==> id in ran
    ensures AllRan(Apply(plan, s, a), ran)
  {
    if a.Act? {
      var turn := TaskStep(plan, s.world, s.ids, a.svc, s.tasks[a.svc], a.answer).value;
      forall id | id in turn.world.containers && turn.world.containers[id].state == Running ensures id in ran { assert Runs(Apply(plan, s, a), id); }
      forall id | id in s.world.containers && s.world.containers[id].state == Running ensures id in ran { assert Runs(s, id); }
      TurnRan(plan, s.world, s.ids, a.svc, s.tasks[a.svc], a.answer, turn, ran);
      ActRan(s, a.svc, turn, ran);
    }
  }

  ghost function RunningIds(s: State): (r: set<string>)
    ensures forall id :: id in r <==> Runs(s, id)
  {
    set id | id in s.world.containers && Runs(s, id)
  }

  lemma {:induction false} RunRan(plan: Plan, s: State, acts: seq<Action>, ran: set<string>, n: string)
    requires IsRun(plan, s, acts) && AllRan(s, ran) && n in After(plan, s, acts).ids
    ensures var id := After(plan, s, acts).ids[n]; id in ran || RanDuring(plan, s, acts, id)
    decreases |acts|
  {
    if acts != [] {
      var t := Apply(plan, s, acts[0]);
      var more := ran + RunningIds(s) + RunningIds(t);
      StepRan(plan, s, acts[0], more);
      RunRan(plan, t, acts[1..], more, n);
    }
  }

  /** Every container Up records was running at some point of the run: it was found so, or started. */
  lemma RecordedRan(plan: Plan, w: World, acts: seq<Action>, n: string)
    requires IsUp(plan, w, acts) && n in After(plan, Begin(plan, w), acts).ids
    ensures RanDuring(plan, Begin(plan, w), acts, After(plan, Begin(plan, w), acts).ids[n])
  {
    RunRan(plan, Begin(plan, w), acts, {}, n);
  }
}
