/**
  The identity a container is stamped with and the RunSpec it is created from.
  The digest of the hash input is a parameter, injective where a property needs
  it. (compose/hash.go, compose/orchestrator.go:626-757)
 */
module ComposeSpec {
  import opened Prelude
  import opened ComposeModel

  const PROJECT_LABEL := "com.docker.compose.project"
  const SERVICE_LABEL := "com.docker.compose.service"
  const ONEOFF_LABEL := "com.docker.compose.oneoff"
  const ENGINE_LABEL := "dev.containers.engine"
  const HASH_LABEL := "dev.containers.config-hash"
  const DIGEST_LABEL := "dev.containers.image-digest"
  const ENGINE_NAME := "devcontainer-go/compose"

  const RESERVED := {PROJECT_LABEL, SERVICE_LABEL, ONEOFF_LABEL, ENGINE_LABEL, HASH_LABEL, DIGEST_LABEL}

  /** What is common to every service of one Up. */
  datatype Context = Context(projectName: string, labels: map<string, string>, digest: (string, Service) -> string)

  ghost predicate Injective(digest: (string, Service) -> string) {
    forall d, s, d', s' :: digest(d, s) == digest(d', s') ==> d == d' && s == s'
  }

  /** stripForHash. */
  function Strip(svc: Service): Service {
    svc.(dependsOn := map[], deploy := None, unrun := "")
  }

  function ConfigHash(cx: Context, imageID: string, svc: Service): string {
    cx.digest(imageID, Strip(svc))
  }

  datatype RestartPolicy = RestartNo | RestartAlways | RestartOnFailure | RestartUnlessStopped

  datatype MountType = Bind | VolumeMount | Tmpfs

  datatype Mount = Mount(kind: MountType, source: string, target: string, readOnly: bool)

  datatype RunSpec = RunSpec(
    image: string, name: string, cmd: seq<string>, entrypoint: seq<string>, user: string, workingDir: string,
    env: map<string, string>, labels: map<string, string>, mounts: seq<Mount>, networks: seq<string>,
    networkMode: string, pidMode: string, ipcMode: string, ports: seq<Port>, restart: RestartPolicy,
    healthCheck: Option<HealthCheck>, init: bool, capAdd: seq<string>, privileged: bool, securityOpt: seq<string>,
    memory: int, nanoCPUs: int)

  /** resolveNamespaceMode: a `service:<x>` mode becomes a join of x's recorded container. */
  function ResolveMode(v: string, ids: map<string, string>): Option<string> {
    var target := RefTarget(v);
    if target == "" then Some(v)
    else if target in ids && ids[target] != "" then Some("container:" + ids[target])
    else None
  }

  function StampedLabels(cx: Context, svc: Service, hash: string, imageDigest: string): map<string, string> {
    var own := cx.labels + map[PROJECT_LABEL := cx.projectName, ENGINE_LABEL := ENGINE_NAME,
      SERVICE_LABEL := svc.name, ONEOFF_LABEL := "False", HASH_LABEL := hash];
    var stamped := if imageDigest != "" then own[DIGEST_LABEL := imageDigest] else own;
    stamped + (map k | k in svc.labels && k !in RESERVED :: svc.labels[k])
  }

  function MountTypeOf(s: string): MountType {
    if s == "volume" then VolumeMount else if s == "tmpfs" then Tmpfs else Bind
  }

  function MountOf(cx: Context, v: Volume): Mount {
    Mount(MountTypeOf(v.kind), if v.kind == "volume" && v.source != "" then cx.projectName + "_" + v.source else v.source, v.target, v.readOnly)
  }

  function RestartOf(s: string): RestartPolicy {
    if s == "always" then RestartAlways
    else if s == "on-failure" then RestartOnFailure
    else if s == "unless-stopped" then RestartUnlessStopped
    else RestartNo
  }

  /** resourcesOf: deploy limits win over mem_limit and cpus. */
  function Resources(svc: Service): Limits {
    var lim := if svc.deploy.Some? then svc.deploy.value else Limits(0, 0);
    var cpus := if lim.nanoCPUs > 0 then lim.nanoCPUs else 0;
    Limits(if lim.memory == 0 then svc.memLimit else lim.memory,
           if cpus == 0 && svc.cpus > 0 then svc.cpus else cpus)
  }

  /** serviceToRunSpec; None when a namespace to join has no started container. */
  function ToRunSpec(cx: Context, svc: Service, hash: string, imageDigest: string, ids: map<string, string>): Option<RunSpec> {
    var net, pid, ipc := ResolveMode(svc.networkMode, ids), ResolveMode(svc.pid, ids), ResolveMode(svc.ipc, ids);
    if net.None? || pid.None? || ipc.None? then None
    else
      Some(RunSpec(
        svc.image, cx.projectName + "-" + svc.name + "-1", svc.command, svc.entrypoint, svc.user, svc.workingDir,
        map k | k in svc.environment && svc.environment[k].Some? :: svc.environment[k].value,
        StampedLabels(cx, svc, hash, imageDigest),
        seq(|svc.volumes|, i requires 0 <= i < |svc.volumes| => MountOf(cx, svc.volumes[i])),
        if net.value != "" then [] else [cx.projectName + "_default"],
        net.value, pid.value, ipc.value, svc.ports, RestartOf(svc.restart), svc.healthCheck,
        svc.init == Some(true), svc.capAdd, svc.privileged, svc.securityOpt,
        Resources(svc).memory, Resources(svc).nanoCPUs))
  }

  /** Limits that deploy supplies. */
  predicate DeploysMemory(svc: Service) { svc.deploy.Some? && svc.deploy.value.memory != 0 }

  predicate DeploysCPUs(svc: Service) { svc.deploy.Some? && svc.deploy.value.nanoCPUs > 0 }

  /** y is x but for the ids of containers svc joins and for limits a deploy section supplies. */
  ghost predicate SameBut(svc: Service, svc': Service, x: RunSpec, y: RunSpec) {
    y == x.(networkMode := if RefTarget(svc.networkMode) != "" then y.networkMode else x.networkMode,
            pidMode := if RefTarget(svc.pid) != "" then y.pidMode else x.pidMode,
            ipcMode := if RefTarget(svc.ipc) != "" then y.ipcMode else x.ipcMode,
            memory := if DeploysMemory(svc) || DeploysMemory(svc') then y.memory else x.memory,
            nanoCPUs := if DeploysCPUs(svc) || DeploysCPUs(svc') then y.nanoCPUs else x.nanoCPUs)
  }

  /**
    Configurations with one hash run the same container: the specs they
    translate to agree except for limits a deploy section supplies and the ids
    of joined containers, and agree completely when limits and recorded ids do.
   */
  lemma EqualHashEqualSpec(cx: Context, svc: Service, d: string, svc': Service, d': string, ids: map<string, string>, ids': map<string, string>)
    requires Injective(cx.digest) && ConfigHash(cx, d, svc) == ConfigHash(cx, d', svc')
    ensures d == d'
    ensures
      var h := ConfigHash(cx, d, svc);
      var r, r' := ToRunSpec(cx, svc, h, d, ids), ToRunSpec(cx, svc', h, d', ids');
      && (r.Some? && r'.Some? ==> SameBut(svc, svc', r.value, r'.value))
      && (ids == ids' ==> (r.Some? <==> r'.Some?))
      && (ids == ids' && svc.deploy == svc'.deploy ==> r == r')
  {
    SameStripped(cx, svc, d, svc', d');
  }

  /** One hash, one configuration but for what the hash strips. */
  lemma SameStripped(cx: Context, svc: Service, d: string, svc': Service, d': string)
    requires Injective(cx.digest) && ConfigHash(cx, d, svc) == ConfigHash(cx, d', svc')
    ensures d == d' && svc == svc'.(dependsOn := svc.dependsOn, deploy := svc.deploy, unrun := svc.unrun)
  {
    assert svc == Strip(svc).(dependsOn := svc.dependsOn, deploy := svc.deploy, unrun := svc.unrun);
    assert svc' == Strip(svc').(dependsOn := svc'.dependsOn, deploy := svc'.deploy, unrun := svc'.unrun);
  }

  /** What differs in identity differs in hash: the fields the hash ignores are the only ones a matching hash leaves open. */
  lemma HashSeesOnlyStripped(cx: Context, svc: Service, d: string, svc': Service, d': string)
    requires Injective(cx.digest)
    ensures ConfigHash(cx, d, svc) == ConfigHash(cx, d', svc') <==>
      d == d' && svc == svc'.(dependsOn := svc.dependsOn, deploy := svc.deploy, unrun := svc.unrun)
  {
    if ConfigHash(cx, d, svc) == ConfigHash(cx, d', svc') { SameStripped(cx, svc, d, svc', d'); }
  }

  function LabelOr(labels: map<string, string>, k: string): string {
    if k in labels then labels[k] else ""
  }

  /** The labels convergence relies on are the orchestrator's whatever labels the service declares; the digest's too, when there is one to stamp. */
  lemma LabelsStick(cx: Context, svc: Service, hash: string, d: string)
    ensures var l := StampedLabels(cx, svc, hash, d);
      && HASH_LABEL in l && l[HASH_LABEL] == hash
      && LabelOr(l, SERVICE_LABEL) == svc.name && LabelOr(l, PROJECT_LABEL) == cx.projectName
      && (LabelOr(l, DIGEST_LABEL) == d <==> d != "" || LabelOr(cx.labels, DIGEST_LABEL) == "")
      && forall labels :: Restrict(StampedLabels(cx, svc.(labels := labels), hash, d), RESERVED) == Restrict(l, RESERVED)
  {
    forall labels ensures Restrict(StampedLabels(cx, svc.(labels := labels), hash, d), RESERVED) == Restrict(StampedLabels(cx, svc, hash, d), RESERVED) {
      OwnLabelsIgnored(cx, svc, hash, d, labels);
    }
  }

  lemma OwnLabelsIgnored(cx: Context, svc: Service, hash: string, d: string, labels: map<string, string>)
    ensures Restrict(StampedLabels(cx, svc.(labels := labels), hash, d), RESERVED) == Restrict(StampedLabels(cx, svc, hash, d), RESERVED)
  {
    var a, b := StampedLabels(cx, svc.(labels := labels), hash, d), StampedLabels(cx, svc, hash, d);
    assert forall k :: k in RESERVED ==> (k in a <==> k in b) && (k in a ==> a[k] == b[k]);
  }
}
