/** Compose services as the orchestrator sees them. (compose/graph.go:136-162) */
module ComposeModel {
  import opened Prelude

  datatype Dependency = Dependency(condition: string, required: bool)

  datatype HealthCheck = HealthCheck(disable: bool, test: seq<string>, timing: string)

  datatype Volume = Volume(kind: string, source: string, target: string, readOnly: bool)

  datatype Port = Port(hostIP: string, published: string, target: int, protocol: string)

  datatype Limits = Limits(memory: int, nanoCPUs: int)

  /** A service; cpus is in billionths. plain stands for fields that are hashed but not translated, unrun for build, pull policy, scale, profiles and hooks. */
  datatype Service = Service(
    name: string, image: string, command: seq<string>, entrypoint: seq<string>, user: string, workingDir: string,
    environment: map<string, Option<string>>, labels: map<string, string>, volumes: seq<Volume>, ports: seq<Port>,
    networkMode: string, pid: string, ipc: string, restart: string, healthCheck: Option<HealthCheck>, init: Option<bool>,
    capAdd: seq<string>, privileged: bool, securityOpt: seq<string>, memLimit: int, cpus: int, plain: string,
    dependsOn: map<string, Dependency>, deploy: Option<Limits>, unrun: string)

  type Project = map<string, Service>

  /** The service a `service:<name>` mode points at, or "". */
  function RefTarget(v: string): string {
    if "service:" < v then v[8..] else ""
  }

  /** serviceEdges: depends_on plus the services whose namespaces are joined. */
  function Edges(svc: Service): set<string> {
    svc.dependsOn.Keys + (set m | m in {svc.networkMode, svc.pid, svc.ipc} && RefTarget(m) != "" :: RefTarget(m))
  }

  /** The other services of the project that svc depends on. */
  function Deps(p: Project, n: string): (r: set<string>)
    requires n in p
    ensures r <= p.Keys - {n}
  {
    set d | d in Edges(p[n]) && d in p && d != n
  }
}
