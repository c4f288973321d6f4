/** MergeMetadata: image and feature layers folded into the resolved configuration. (config/merge_metadata.go, config/resolved.go:87-102) */
module MetadataMerge {
  import opened Prelude
  import opened MergeLists
  import opened Metadata
  import opened MountLists
  import opened HookLists

  // ---- substitution ----

  /** The sub closure: variables resolved, the empty string left alone. */
  function Sub(resolve: string -> string, s: string): string {
    if s == "" then "" else resolve(s)
  }

  function SubAll(resolve: string -> string, ss: seq<string>): seq<string> {
    Map(ss, s => Sub(resolve, s))
  }

  function SubMap(resolve: string -> string, m: map<string, string>): map<string, string> {
    map k | k in m :: Sub(resolve, m[k])
  }

  function SubMount(resolve: string -> string, m: Mount): Mount {
    m.(source := Sub(resolve, m.source), target := Sub(resolve, m.target))
  }

  function SubCommand(resolve: string -> string, c: Command): Command {
    Command(Sub(resolve, c.shell), SubAll(resolve, c.exec))
  }

  function SubHook(resolve: string -> string, h: Hook): Hook {
    Hook(if h.single.Some? then Some(SubCommand(resolve, h.single.value)) else None,
         map k | k in h.parallel :: SubCommand(resolve, h.parallel[k]))
  }

  /** substituteLayer. */
  function SubLayer(resolve: string -> string, l: Layer): Layer {
    l.(remoteUser := Sub(resolve, l.remoteUser), containerUser := Sub(resolve, l.containerUser), entrypoint := Sub(resolve, l.entrypoint),
       containerEnv := SubMap(resolve, l.containerEnv), remoteEnv := SubMap(resolve, l.remoteEnv),
       mounts := Map(l.mounts, m => SubMount(resolve, m)), capAdd := SubAll(resolve, l.capAdd), securityOpt := SubAll(resolve, l.securityOpt),
       hooks := PerPhase(SubHook(resolve, l.hooks.onCreate), SubHook(resolve, l.hooks.updateContent), SubHook(resolve, l.hooks.postCreate),
                         SubHook(resolve, l.hooks.postStart), SubHook(resolve, l.hooks.postAttach)))
  }

  function SubLayers(resolve: string -> string, layers: seq<Layer>): seq<Layer> {
    Map(layers, l => SubLayer(resolve, l))
  }

  // ---- the fields of a layer ----

  const RemoteUserOf: Layer -> string := (l: Layer) => l.remoteUser
  const ContainerUserOf: Layer -> string := (l: Layer) => l.containerUser
  const UserEnvProbeOf: Layer -> string := (l: Layer) => l.userEnvProbe
  const WaitForOf: Layer -> string := (l: Layer) => l.waitFor
  const ShutdownActionOf: Layer -> string := (l: Layer) => l.shutdownAction
  const UpdateRemoteUserUIDOf: Layer -> Option<bool> := (l: Layer) => l.updateRemoteUserUID
  const InitOf: Layer -> Option<bool> := (l: Layer) => l.init
  const PrivilegedOf: Layer -> Option<bool> := (l: Layer) => l.privileged
  const OverrideCommandOf: Layer -> Option<bool> := (l: Layer) => l.overrideCommand
  const ContainerEnvOf: Layer -> map<string, string> := (l: Layer) => l.containerEnv
  const RemoteEnvOf: Layer -> map<string, string> := (l: Layer) => l.remoteEnv
  const MountsOf: Layer -> seq<Mount> := (l: Layer) => l.mounts
  const CapAddOf: Layer -> seq<string> := (l: Layer) => l.capAdd
  const SecurityOptOf: Layer -> seq<string> := (l: Layer) => l.securityOpt
  const EntrypointOf: Layer -> string := (l: Layer) => l.entrypoint
  const HostRequirementsOf: Layer -> Option<HostReq> := (l: Layer) => l.hostRequirements

  function HookOf(phase: Phase): Layer -> Hook {
    (l: Layer) => At(l.hooks, phase)
  }

  // ---- the merge ----

  function PickedText(user: string, vs: seq<string>): string {
    if user != "" then user else LastText(vs)
  }

  function PickedSome<T>(user: Option<T>, vs: seq<Option<T>>): Option<T> {
    if user.Some? then user else LastSome(vs)
  }

  function Hooked(layers: seq<Layer>, phase: Phase, user: seq<Hook>): seq<Hook> {
    Configured(Map(layers, HookOf(phase))) + user
  }

  /** The entrypoints layers declare, in chain order. */
  function Entrypoints(vs: seq<string>): seq<string> {
    if vs == [] then [] else Entrypoints(vs[..|vs| - 1]) + if vs[|vs| - 1] == "" then [] else [vs[|vs| - 1]]
  }

  function MergedMounts(layers: seq<Layer>, user: seq<Mount>): seq<Mount> {
    LastPerTarget(Flat(Map(layers, MountsOf)) + user)
  }

  function MergedHooks(ls: seq<Layer>, user: PerPhase<seq<Hook>>): PerPhase<seq<Hook>> {
    PerPhase(Hooked(ls, OnCreate, user.onCreate), Hooked(ls, UpdateContent, user.updateContent), Hooked(ls, PostCreate, user.postCreate),
             Hooked(ls, PostStart, user.postStart), Hooked(ls, PostAttach, user.postAttach))
  }

  function MergedText(ls: seq<Layer>, get: Layer -> string, user: string): string {
    PickedText(user, Map(ls, get))
  }

  function MergedOption<T>(ls: seq<Layer>, get: Layer -> Option<T>, user: Option<T>): Option<T> {
    PickedSome(user, Map(ls, get))
  }

  function MergedMap(ls: seq<Layer>, get: Layer -> map<string, string>, user: map<string, string>): map<string, string> {
    Overlay(Map(ls, get)) + user
  }

  function MergedSet(ls: seq<Layer>, get: Layer -> seq<string>, user: seq<string>): seq<string> {
    Dedup(Flat(Map(ls, get)) + user)
  }

  /** What substituted layers make of a configuration. */
  function Folded(c: Values, ls: seq<Layer>): Values {
    Values(
      MergedText(ls, RemoteUserOf, c.remoteUser), MergedText(ls, ContainerUserOf, c.containerUser),
      MergedText(ls, UserEnvProbeOf, c.userEnvProbe), MergedText(ls, WaitForOf, c.waitFor),
      MergedText(ls, ShutdownActionOf, c.shutdownAction),
      MergedOption(ls, UpdateRemoteUserUIDOf, c.updateRemoteUserUID), MergedOption(ls, InitOf, c.init),
      MergedOption(ls, PrivilegedOf, c.privileged), MergedOption(ls, OverrideCommandOf, c.overrideCommand),
      MergedMap(ls, ContainerEnvOf, c.containerEnv), MergedMap(ls, RemoteEnvOf, c.remoteEnv),
      MergedMounts(ls, c.mounts),
      MergedSet(ls, CapAddOf, c.capAdd), MergedSet(ls, SecurityOptOf, c.securityOpt),
      Entrypoints(Map(ls, EntrypointOf)), MergedOption(ls, HostRequirementsOf, c.hostRequirements),
      MergedHooks(ls, c.lifecycle))
  }

  /** MergeMetadata: with no layers at all it leaves the configuration alone. */
  function Merged(c: Values, resolve: string -> string, layers: seq<Layer>): Values {
    if layers == [] then c else Folded(c, SubLayers(resolve, layers))
  }

  /** Finalize: defaults for what nothing set. */
  function Finalized(c: Values): Values {
    c.(overrideCommand := if c.overrideCommand.None? then Some(true) else c.overrideCommand,
       userEnvProbe := if c.userEnvProbe == "" then "loginInteractiveShell" else c.userEnvProbe,
       waitFor := if c.waitFor != "" then c.waitFor else if |c.lifecycle.updateContent| > 0 then "updateContent" else "postCreate")
  }

  method GatherEntrypoints(vs: seq<string>) returns (r: seq<string>)
    ensures r == Entrypoints(vs)
  {
    r := [];
    for i := 0 to |vs|
      invariant r == Entrypoints(vs[..i])
    {
      assert vs[..i + 1][..i] == vs[..i];
      if vs[i] != "" { r := r + [vs[i]]; }
    }
    assert vs[..|vs|] == vs;
  }

  /** The configuration being resolved; value holds the fields the merge assigns. */
  class ResolvedConfig {
    var value: Values

    constructor (c: Values)
      ensures value == c
    {
      value := c;
    }

    /** The text fields: an explicit value stays, else the last layer that sets one wins. */
    method MergeTexts(ls: seq<Layer>)
      modifies this
      ensures var c := old(value);
        value == c.(remoteUser := MergedText(ls, RemoteUserOf, c.remoteUser), containerUser := MergedText(ls, ContainerUserOf, c.containerUser),
                    userEnvProbe := MergedText(ls, UserEnvProbeOf, c.userEnvProbe), waitFor := MergedText(ls, WaitForOf, c.waitFor),
                    shutdownAction := MergedText(ls, ShutdownActionOf, c.shutdownAction))
    {
      var remoteUser := PickText(value.remoteUser, Map(ls, RemoteUserOf));
      var containerUser := PickText(value.containerUser, Map(ls, ContainerUserOf));
      var userEnvProbe := PickText(value.userEnvProbe, Map(ls, UserEnvProbeOf));
      var waitFor := PickText(value.waitFor, Map(ls, WaitForOf));
      var shutdownAction := PickText(value.shutdownAction, Map(ls, ShutdownActionOf));
      value := value.(remoteUser := remoteUser, containerUser := containerUser, userEnvProbe := userEnvProbe, waitFor := waitFor, shutdownAction := shutdownAction);
    }

    /** The optional fields, likewise. */
    method MergeOptional(ls: seq<Layer>)
      modifies this
      ensures var c := old(value);
        value == c.(init := MergedOption(ls, InitOf, c.init), privileged := MergedOption(ls, PrivilegedOf, c.privileged),
                    overrideCommand := MergedOption(ls, OverrideCommandOf, c.overrideCommand),
                    updateRemoteUserUID := MergedOption(ls, UpdateRemoteUserUIDOf, c.updateRemoteUserUID),
                    hostRequirements := MergedOption(ls, HostRequirementsOf, c.hostRequirements))
    {
      var init := PickSome(value.init, Map(ls, InitOf));
      var privileged := PickSome(value.privileged, Map(ls, PrivilegedOf));
      var overrideCommand := PickSome(value.overrideCommand, Map(ls, OverrideCommandOf));
      var updateUID := PickSome(value.updateRemoteUserUID, Map(ls, UpdateRemoteUserUIDOf));
      var host := value.hostRequirements;
      if host.None? { host := FindLast(Map(ls, HostRequirementsOf)); }
      value := value.(init := init, privileged := privileged, overrideCommand := overrideCommand, updateRemoteUserUID := updateUID, hostRequirements := host);
    }

    /** The lists and maps: layers first, the configuration last. */
    method MergeCollections(ls: seq<Layer>)
      modifies this
      ensures var c := old(value);
        value == c.(capAdd := MergedSet(ls, CapAddOf, c.capAdd), securityOpt := MergedSet(ls, SecurityOptOf, c.securityOpt),
                    entrypoints := Entrypoints(Map(ls, EntrypointOf)), containerEnv := MergedMap(ls, ContainerEnvOf, c.containerEnv),
                    remoteEnv := MergedMap(ls, RemoteEnvOf, c.remoteEnv), mounts := MergedMounts(ls, c.mounts))
    {
      var caps := Gather(Map(ls, CapAddOf));
      caps := UnionDedup(caps, value.capAdd);
      var opts := Gather(Map(ls, SecurityOptOf));
      opts := UnionDedup(opts, value.securityOpt);
      var entrypoints := GatherEntrypoints(Map(ls, EntrypointOf));
      var containerEnv := MergeMaps(Map(ls, ContainerEnvOf), value.containerEnv);
      var remoteEnv := MergeMaps(Map(ls, RemoteEnvOf), value.remoteEnv);
      var mounts := Gather(Map(ls, MountsOf));
      mounts := DedupByTarget(mounts + value.mounts);
      value := value.(capAdd := caps, securityOpt := opts, entrypoints := entrypoints, containerEnv := containerEnv, remoteEnv := remoteEnv, mounts := mounts);
    }

    method MergeHooks(ls: seq<Layer>)
      modifies this
      ensures value == old(value).(lifecycle := MergedHooks(ls, old(value).lifecycle))
    {
      var onCreate := PrependHooks(Map(ls, HookOf(OnCreate)), value.lifecycle.onCreate);
      var updateContent := PrependHooks(Map(ls, HookOf(UpdateContent)), value.lifecycle.updateContent);
      var postCreate := PrependHooks(Map(ls, HookOf(PostCreate)), value.lifecycle.postCreate);
      var postStart := PrependHooks(Map(ls, HookOf(PostStart)), value.lifecycle.postStart);
      var postAttach := PrependHooks(Map(ls, HookOf(PostAttach)), value.lifecycle.postAttach);
      value := value.(lifecycle := PerPhase(onCreate, updateContent, postCreate, postStart, postAttach));
    }

    /** MergeMetadata, in the order it assigns the fields. */
    method MergeMetadata(resolve: string -> string, layers: seq<Layer>)
      modifies this
      ensures value == Merged(old(value), resolve, layers)
    {
      if |layers| == 0 { return; }
      var ls := SubLayers(resolve, layers);
      MergeTexts(ls);
      MergeOptional(ls);
      MergeCollections(ls);
      MergeHooks(ls);
    }
  }
}
