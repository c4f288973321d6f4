/** What image layers, features and the resolved configuration hold. (config/resolved.go) */
module Metadata {
  import opened Prelude
  import opened Json

  datatype Mount = Mount(kind: string, source: string, target: string, readOnly: bool)

  datatype Command = Command(shell: string, exec: seq<string>)

  /** One phase's command; None and no parallel entries when the phase is unconfigured. */
  datatype Hook = Hook(single: Option<Command>, parallel: map<string, Command>)
  {
    predicate IsEmpty() { single.None? && parallel == map[] }
  }

  const NoHook := Hook(None, map[])

  datatype PerPhase<+T> = PerPhase(onCreate: T, updateContent: T, postCreate: T, postStart: T, postAttach: T)

  datatype Phase = OnCreate | UpdateContent | PostCreate | PostStart | PostAttach

  function At<T>(p: PerPhase<T>, phase: Phase): T {
    match phase
    case OnCreate => p.onCreate
    case UpdateContent => p.updateContent
    case PostCreate => p.postCreate
    case PostStart => p.postStart
    case PostAttach => p.postAttach
  }

  lemma PhasesEqual<T>(p: PerPhase<T>, q: PerPhase<T>)
    requires forall phase :: At(p, phase) == At(q, phase)
    ensures p == q
  {
    assert At(p, OnCreate) == At(q, OnCreate) && At(p, UpdateContent) == At(q, UpdateContent) && At(p, PostCreate) == At(q, PostCreate);
    assert At(p, PostStart) == At(q, PostStart) && At(p, PostAttach) == At(q, PostAttach);
  }

  datatype HostReq = HostReq(cpus: int, memory: string, storage: string)

  /** The part of FeatureMetadata a label carries; dependsOn is None when nothing records it. */
  datatype Layer = Layer(
    id: string, version: string, resolvedRef: string, dependsOn: Option<map<string, map<string, Json>>>,
    remoteUser: string, containerUser: string, userEnvProbe: string, waitFor: string, shutdownAction: string,
    updateRemoteUserUID: Option<bool>, init: Option<bool>, privileged: Option<bool>, overrideCommand: Option<bool>,
    containerEnv: map<string, string>, remoteEnv: map<string, string>, mounts: seq<Mount>,
    capAdd: seq<string>, securityOpt: seq<string>, entrypoint: string, hostRequirements: Option<HostReq>, hooks: PerPhase<Hook>)

  const NoHooks := PerPhase(NoHook, NoHook, NoHook, NoHook, NoHook)

  const EmptyLayer := Layer("", "", "", None, "", "", "", "", "", None, None, None, None, map[], map[], [], [], [], "", None, NoHooks)

  /** The merged fields of a resolved configuration. */
  datatype Values = Values(
    remoteUser: string, containerUser: string, userEnvProbe: string, waitFor: string, shutdownAction: string,
    updateRemoteUserUID: Option<bool>, init: Option<bool>, privileged: Option<bool>, overrideCommand: Option<bool>,
    containerEnv: map<string, string>, remoteEnv: map<string, string>, mounts: seq<Mount>,
    capAdd: seq<string>, securityOpt: seq<string>, entrypoints: seq<string>, hostRequirements: Option<HostReq>,
    lifecycle: PerPhase<seq<Hook>>)
}
