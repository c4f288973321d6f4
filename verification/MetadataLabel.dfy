/**
  The devcontainer.metadata label: layers written as JSON and read back.
  (feature/metadata.go, config/normalize.go:38-126)
 */
module MetadataLabel {
  import opened Prelude
  import opened MergeLists
  import opened Json
  import opened Metadata

  /** The keys of a label entry. */
  datatype Field =
    | FId | FVersion | FResolvedRef | FDependsOn | FRemoteUser | FContainerUser | FUserEnvProbe | FWaitFor | FShutdownAction
    | FUpdateRemoteUserUID | FInit | FPrivileged | FOverrideCommand | FContainerEnv | FRemoteEnv | FMounts | FCapAdd | FSecurityOpt
    | FEntrypoint | FHostRequirements | FOnCreate | FUpdateContent | FPostCreate | FPostStart | FPostAttach

  type Entry = map<Field, Json>

  // ---- writing ----

  function Text(s: string): Option<Json> { if s == "" then None else Some(Str(s)) }

  function Flag(o: Option<bool>): Option<Json> { if o.None? then None else Some(Bool(o.value)) }

  function Strs(ss: seq<string>): (r: seq<Json>)
    ensures |r| == |ss| && forall i :: 0 <= i < |ss| ==> r[i] == Str(ss[i])
  {
    seq(|ss|, i requires 0 <= i < |ss| => Str(ss[i]))
  }

  function Texts(ss: seq<string>): Option<Json> { if ss == [] then None else Some(Arr(Strs(ss))) }

  function TextMap(m: map<string, string>): Option<Json> { if m == map[] then None else Some(Obj(map k | k in m :: Str(m[k]))) }

  function Put(m: map<string, Json>, k: string, o: Option<Json>): map<string, Json> { if o.None? then m else m[k := o.value] }

  function MountObj(m: Mount): Json {
    Obj(Put(Put(Put(Put(map[], "type", Text(m.kind)), "source", Text(m.source)), "target", Text(m.target)),
        "readonly", if m.readOnly then Some(Bool(true)) else None))
  }

  /** encodeMounts. */
  function MountsJson(ms: seq<Mount>): Option<Json> {
    if ms == [] then None else Some(Arr(Map(ms, m => MountObj(m))))
  }

  function HostJson(h: Option<HostReq>): Option<Json> {
    if h.None? then None
    else Some(Obj(Put(Put(Put(map[], "cpus", if h.value.cpus == 0 then None else Some(Num(h.value.cpus))), "memory", Text(h.value.memory)), "storage", Text(h.value.storage))))
  }

  /** A parallel command; an absent argument list is written as null. */
  function CommandJson(c: Command): Json {
    if c.shell != "" then Str(c.shell) else if c.exec == [] then Null else Arr(Strs(c.exec))
  }

  predicate Runs(c: Command) { c.shell != "" || c.exec != [] }

  /** encodeLifecycleCommand. */
  function HookJson(h: Hook): Option<Json> {
    if h.single.Some? && Runs(h.single.value) then Some(CommandJson(h.single.value))
    else if h.parallel != map[] then Some(Obj(map k | k in h.parallel :: CommandJson(h.parallel[k])))
    else None
  }

  function DependsJson(d: Option<map<string, map<string, Json>>>): Option<Json> {
    if d.None? then None else Some(Obj(map k | k in d.value :: Obj(d.value[k])))
  }

  /** metadataFromFeatureMetadata, and what omitempty keeps of it. */
  function FieldJson(l: Layer, f: Field): Option<Json> {
    match f
    case FId => Text(l.id)
    case FVersion => Text(l.version)
    case FResolvedRef => Text(l.resolvedRef)
    case FDependsOn => DependsJson(l.dependsOn)
    case FRemoteUser => Text(l.remoteUser)
    case FContainerUser => Text(l.containerUser)
    case FUserEnvProbe => Text(l.userEnvProbe)
    case FWaitFor => Text(l.waitFor)
    case FShutdownAction => Text(l.shutdownAction)
    case FUpdateRemoteUserUID => Flag(l.updateRemoteUserUID)
    case FInit => Flag(l.init)
    case FPrivileged => Flag(l.privileged)
    case FOverrideCommand => Flag(l.overrideCommand)
    case FContainerEnv => TextMap(l.containerEnv)
    case FRemoteEnv => TextMap(l.remoteEnv)
    case FMounts => MountsJson(l.mounts)
    case FCapAdd => Texts(l.capAdd)
    case FSecurityOpt => Texts(l.securityOpt)
    case FEntrypoint => Text(l.entrypoint)
    case FHostRequirements => HostJson(l.hostRequirements)
    case FOnCreate => HookJson(l.hooks.onCreate)
    case FUpdateContent => HookJson(l.hooks.updateContent)
    case FPostCreate => HookJson(l.hooks.postCreate)
    case FPostStart => HookJson(l.hooks.postStart)
    case FPostAttach => HookJson(l.hooks.postAttach)
  }

  function EncodeEntry(l: Layer): Entry {
    map f: Field | FieldJson(l, f).Some? :: FieldJson(l, f).value
  }

  // ---- reading; None is a decoding error ----

  function Get<K>(m: map<K, Json>, k: K): Option<Json> { if k in m then Some(m[k]) else None }

  /** e holds what is written of l. */
  ghost predicate Encodes(e: Entry, l: Layer) {
    forall f :: Get(e, f) == FieldJson(l, f)
  }

  lemma EntryEncodes(l: Layer)
    ensures Encodes(EncodeEntry(l), l)
  {}

  /** Unmarshalling into a string: null leaves it empty. */
  function AsText(j: Json): Option<string> {
    match j
    case Null => Some("")
    case Str(s) => Some(s)
    case _ => None
  }

  function TextsFrom(items: seq<Json>): Option<seq<string>> {
    if items == [] then Some([])
    else
      var n := |items| - 1;
      var rest := TextsFrom(items[..n]);
      if rest.None? || AsText(items[n]).None? then None else Some(rest.value + [AsText(items[n]).value])
  }

  function AsTexts(j: Json): Option<seq<string>> {
    match j
    case Null => Some([])
    case Arr(items) => TextsFrom(items)
    case _ => None
  }

  function AsTextMap(j: Json): Option<map<string, string>> {
    match j
    case Null => Some(map[])
    case Obj(m) => if forall k :: k in m ==> AsText(m[k]).Some? then Some(map k | k in m :: AsText(m[k]).value) else None
    case _ => None
  }

  function ReadText<K>(m: map<K, Json>, k: K): Option<string> {
    if k in m then AsText(m[k]) else Some("")
  }

  function ReadFlag(e: Entry, f: Field): Option<Option<bool>> {
    match Get(e, f)
    case None => Some(None)
    case Some(Null) => Some(None)
    case Some(Bool(b)) => Some(Some(b))
    case _ => None
  }

  function ReadTexts(e: Entry, f: Field): Option<seq<string>> {
    if f in e then AsTexts(e[f]) else Some([])
  }

  function ReadTextMap(e: Entry, f: Field): Option<map<string, string>> {
    if f in e then AsTextMap(e[f]) else Some(map[])
  }

  function ReadHost(e: Entry): Option<Option<HostReq>> {
    match Get(e, FHostRequirements)
    case None => Some(None)
    case Some(Null) => Some(None)
    case Some(Obj(m)) =>
      var cpus := match Get(m, "cpus") { case None => Some(0) case Some(Null) => Some(0) case Some(Num(n)) => Some(n) case _ => None };
      if cpus.None? || ReadText(m, "memory").None? || ReadText(m, "storage").None? then None
      else Some(Some(HostReq(cpus.value, ReadText(m, "memory").value, ReadText(m, "storage").value)))
    case _ => None
  }

  /** decodeCommandValue. */
  function CommandFrom(j: Json): Option<Command> {
    if AsText(j).Some? then Some(Command(AsText(j).value, []))
    else if AsTexts(j).Some? then Some(Command("", AsTexts(j).value))
    else None
  }

  /** decodeLifecycleCommand. */
  function ReadHook(e: Entry, f: Field): Option<Hook> {
    if f !in e then Some(NoHook)
    else if CommandFrom(e[f]).Some? then Some(Hook(CommandFrom(e[f]), map[]))
    else if e[f].Obj? && (forall k :: k in e[f].fields ==> CommandFrom(e[f].fields[k]).Some?) then
      Some(Hook(None, map k | k in e[f].fields :: CommandFrom(e[f].fields[k]).value))
    else None
  }

  predicate Blank(m: Mount) { m.kind == "" && m.source == "" && m.target == "" }

  /** One element of mounts: a CSV string, an object that names something, or nothing recognised. */
  function MountFrom(csv: string -> Mount, j: Json): Option<Mount> {
    if AsText(j).Some? then Some(csv(AsText(j).value))
    else if !j.Obj? then None
    else
      var kind, source, target := ReadText(j.fields, "type"), ReadText(j.fields, "source"), ReadText(j.fields, "target");
      var ro := match Get(j.fields, "readonly") { case None => Some(false) case Some(Null) => Some(false) case Some(Bool(b)) => Some(b) case _ => None };
      if kind.None? || source.None? || target.None? || ro.None? then None
      else
        var m := Mount(kind.value, source.value, target.value, ro.value);
        if Blank(m) then None else Some(m)
  }

  /** decodeMounts: what is not recognised is skipped. */
  function MountsFrom(csv: string -> Mount, items: seq<Json>): seq<Mount> {
    if items == [] then []
    else
      var n := |items| - 1;
      MountsFrom(csv, items[..n]) + if MountFrom(csv, items[n]).Some? then [MountFrom(csv, items[n]).value] else []
  }

  function ReadMounts(csv: string -> Mount, e: Entry): Option<seq<Mount>> {
    match Get(e, FMounts)
    case None => Some([])
    case Some(Null) => Some([])
    case Some(Arr(items)) => Some(MountsFrom(csv, items))
    case _ => None
  }

  function ReadDepends(e: Entry): Option<Option<map<string, map<string, Json>>>> {
    match Get(e, FDependsOn)
    case None => Some(None)
    case Some(Null) => Some(None)
    case Some(Obj(m)) =>
      if forall k :: k in m ==> m[k].Obj? || m[k].Null? then Some(Some(map k | k in m :: if m[k].Obj? then m[k].fields else map[])) else None
    case _ => None
  }

  function ReadHooks(e: Entry): Option<PerPhase<Hook>> {
    var a, b, c, d, p := ReadHook(e, FOnCreate), ReadHook(e, FUpdateContent), ReadHook(e, FPostCreate), ReadHook(e, FPostStart), ReadHook(e, FPostAttach);
    if a.None? || b.None? || c.None? || d.None? || p.None? then None else Some(PerPhase(a.value, b.value, c.value, d.value, p.value))
  }

  /** The text fields, in the order of the record. */
  function ReadAllTexts(e: Entry): Option<seq<string>> {
    if ReadText(e, FId).None? || ReadText(e, FVersion).None? || ReadText(e, FResolvedRef).None? || ReadText(e, FRemoteUser).None? || ReadText(e, FContainerUser).None?
      || ReadText(e, FUserEnvProbe).None? || ReadText(e, FWaitFor).None? || ReadText(e, FShutdownAction).None? || ReadText(e, FEntrypoint).None? then None
    else
      Some([ReadText(e, FId).value, ReadText(e, FVersion).value, ReadText(e, FResolvedRef).value, ReadText(e, FRemoteUser).value,
            ReadText(e, FContainerUser).value, ReadText(e, FUserEnvProbe).value, ReadText(e, FWaitFor).value, ReadText(e, FShutdownAction).value, ReadText(e, FEntrypoint).value])
  }

  /** toFeatureMetadata. */
  function DecodeEntry(csv: string -> Mount, e: Entry): Option<Layer> {
    var uid, init, priv, over := ReadFlag(e, FUpdateRemoteUserUID), ReadFlag(e, FInit), ReadFlag(e, FPrivileged), ReadFlag(e, FOverrideCommand);
    var cenv, renv, caps, opts := ReadTextMap(e, FContainerEnv), ReadTextMap(e, FRemoteEnv), ReadTexts(e, FCapAdd), ReadTexts(e, FSecurityOpt);
    var texts, host, mounts, hooks, deps := ReadAllTexts(e), ReadHost(e), ReadMounts(csv, e), ReadHooks(e), ReadDepends(e);
    if uid.None? || init.None? || priv.None? || over.None? || cenv.None? || renv.None? || caps.None? || opts.None? then None
    else if texts.None? || |texts.value| != 9 || host.None? || mounts.None? || hooks.None? || deps.None? then None
    else
      var t := texts.value;
      Some(Layer(t[0], t[1], t[2], deps.value, t[3], t[4], t[5], t[6], t[7], uid.value, init.value, priv.value, over.value,
                 cenv.value, renv.value, mounts.value, caps.value, opts.value, t[8], host.value, hooks.value))
  }

  // ---- what survives ----

  function NormalCommand(c: Command): Command { if c.shell != "" then Command(c.shell, []) else c }

  /** A hook as the label can hold it: one command in one form, or parallel ones; a command that runs nothing is no hook. */
  function NormalHook(h: Hook): Hook {
    if h.single.Some? && Runs(h.single.value) then Hook(Some(NormalCommand(h.single.value)), map[])
    else Hook(None, map k | k in h.parallel :: NormalCommand(h.parallel[k]))
  }

  /** The mounts that name something. */
  function NormalMounts(ms: seq<Mount>): seq<Mount> {
    if ms == [] then [] else NormalMounts(ms[..|ms| - 1]) + if Blank(ms[|ms| - 1]) then [] else [ms[|ms| - 1]]
  }

  function NormalHooks(h: PerPhase<Hook>): PerPhase<Hook> {
    PerPhase(NormalHook(h.onCreate), NormalHook(h.updateContent), NormalHook(h.postCreate), NormalHook(h.postStart), NormalHook(h.postAttach))
  }

  function NormalLayer(l: Layer): Layer {
    l.(mounts := NormalMounts(l.mounts), hooks := NormalHooks(l.hooks))
  }

  /** The layer loses nothing in the label. */
  predicate InNormalForm(l: Layer) { NormalLayer(l) == l }

  // ---- round trips, field by field ----

  lemma {:induction false} TextsBack(ss: seq<string>)
    ensures TextsFrom(Strs(ss)) == Some(ss)
  {
    if ss != [] {
      var n := |ss| - 1;
      TextsBack(ss[..n]);
      assert Strs(ss)[..n] == Strs(ss[..n]) && AsText(Strs(ss)[n]) == Some(ss[n]);
      assert ss == ss[..n] + [ss[n]];
    }
  }

  lemma TextBack(e: Entry, f: Field, s: string)
    requires Get(e, f) == Text(s)
    ensures ReadText(e, f) == Some(s)
  {}

  lemma FlagBack(e: Entry, f: Field, o: Option<bool>)
    requires Get(e, f) == Flag(o)
    ensures ReadFlag(e, f) == Some(o)
  {}

  lemma ListBack(e: Entry, f: Field, ss: seq<string>)
    requires Get(e, f) == Texts(ss)
    ensures ReadTexts(e, f) == Some(ss)
  {
    TextsBack(ss);
  }

  lemma MapBack(e: Entry, f: Field, m: map<string, string>)
    requires Get(e, f) == TextMap(m)
    ensures ReadTextMap(e, f) == Some(m)
  {
    var j := map k | k in m :: Str(m[k]);
    assert m == map k | k in j :: AsText(j[k]).value;
  }

  lemma CommandBack(c: Command)
    ensures CommandFrom(CommandJson(c)) == Some(NormalCommand(c))
  {
    TextsBack(c.exec);
  }

  lemma HookBack(e: Entry, f: Field, h: Hook)
    requires Get(e, f) == HookJson(h)
    ensures ReadHook(e, f) == Some(NormalHook(h))
  {
    if h.single.Some? && Runs(h.single.value) {
      CommandBack(h.single.value);
    } else if h.parallel != map[] {
      ParallelBack(h.parallel);
    }
  }

  lemma ParallelBack(m: map<string, Command>)
    ensures var j := map k | k in m :: CommandJson(m[k]);
      && (forall k :: k in j ==> CommandFrom(j[k]).Some?)
      && (map k | k in j :: CommandFrom(j[k]).value) == (map k | k in m :: NormalCommand(m[k]))
  {
    forall k | k in m ensures CommandFrom(CommandJson(m[k])) == Some(NormalCommand(m[k])) { CommandBack(m[k]); }
  }

  lemma MountBack(csv: string -> Mount, m: Mount)
    ensures MountFrom(csv, MountObj(m)) == if Blank(m) then None else Some(m)
  {
    var o := MountObj(m).fields;
    assert ReadText(o, "type") == Some(m.kind) && ReadText(o, "source") == Some(m.source) && ReadText(o, "target") == Some(m.target);
    assert Get(o, "readonly") == if m.readOnly then Some(Bool(true)) else None;
  }

  lemma {:induction false} MountListBack(csv: string -> Mount, ms: seq<Mount>)
    ensures MountsFrom(csv, Map(ms, m => MountObj(m))) == NormalMounts(ms)
  {
    if ms != [] {
      var n := |ms| - 1;
      var js := Map(ms, m => MountObj(m));
      MountListBack(csv, ms[..n]);
      assert js[..n] == Map(ms[..n], m => MountObj(m));
      MountBack(csv, ms[n]);
    }
  }

  lemma MountsBack(csv: string -> Mount, e: Entry, l: Layer)
    requires Encodes(e, l)
    ensures ReadMounts(csv, e) == Some(NormalMounts(l.mounts))
  {
    assert Get(e, FMounts) == FieldJson(l, FMounts);
    if l.mounts != [] { MountListBack(csv, l.mounts); }
  }

  lemma HostBack(e: Entry, l: Layer)
    requires Encodes(e, l)
    ensures ReadHost(e) == Some(l.hostRequirements)
  {
    assert Get(e, FHostRequirements) == FieldJson(l, FHostRequirements);
    if l.hostRequirements.Some? {
      var h := l.hostRequirements.value;
      var o := HostJson(l.hostRequirements).value.fields;
      assert ReadText(o, "memory") == Some(h.memory) && ReadText(o, "storage") == Some(h.storage);
      assert Get(o, "cpus") == if h.cpus == 0 then None else Some(Num(h.cpus));
    }
  }

  lemma DependsBack(e: Entry, l: Layer)
    requires Encodes(e, l)
    ensures ReadDepends(e) == Some(l.dependsOn)
  {
    assert Get(e, FDependsOn) == FieldJson(l, FDependsOn);
    if l.dependsOn.Some? {
      var d := l.dependsOn.value;
      var j: map<string, Json> := map k | k in d :: Obj(d[k]);
      assert d == map k | k in j :: if j[k].Obj? then j[k].fields else map[];
    }
  }

  function FieldOf(phase: Phase): Field {
    match phase
    case OnCreate => FOnCreate
    case UpdateContent => FUpdateContent
    case PostCreate => FPostCreate
    case PostStart => FPostStart
    case PostAttach => FPostAttach
  }

  lemma PhaseBack(e: Entry, l: Layer, phase: Phase)
    requires Encodes(e, l)
    ensures ReadHook(e, FieldOf(phase)) == Some(NormalHook(At(l.hooks, phase)))
  {
    HookBack(e, FieldOf(phase), At(l.hooks, phase));
  }

  lemma HooksFrom(e: Entry, h: PerPhase<Hook>)
    requires forall phase :: ReadHook(e, FieldOf(phase)) == Some(At(h, phase))
    ensures ReadHooks(e) == Some(h)
  {
    assert ReadHook(e, FieldOf(OnCreate)) == Some(h.onCreate) && ReadHook(e, FieldOf(UpdateContent)) == Some(h.updateContent);
    assert ReadHook(e, FieldOf(PostCreate)) == Some(h.postCreate) && ReadHook(e, FieldOf(PostStart)) == Some(h.postStart);
    assert ReadHook(e, FieldOf(PostAttach)) == Some(h.postAttach);
  }

  lemma NormalAt(h: PerPhase<Hook>, phase: Phase)
    ensures At(NormalHooks(h), phase) == NormalHook(At(h, phase))
  {}

  lemma HooksBack(e: Entry, l: Layer)
    requires Encodes(e, l)
    ensures ReadHooks(e) == Some(NormalHooks(l.hooks))
  {
    forall phase ensures ReadHook(e, FieldOf(phase)) == Some(At(NormalHooks(l.hooks), phase)) {
      PhaseBack(e, l, phase);
      NormalAt(l.hooks, phase);
    }
    HooksFrom(e, NormalHooks(l.hooks));
  }

  lemma AllTextsBack(e: Entry, l: Layer)
    requires Encodes(e, l)
    ensures ReadAllTexts(e) ==
      Some([l.id, l.version, l.resolvedRef, l.remoteUser, l.containerUser, l.userEnvProbe, l.waitFor, l.shutdownAction, l.entrypoint])
  {
    TextBack(e, FId, l.id);
    TextBack(e, FVersion, l.version);
    TextBack(e, FResolvedRef, l.resolvedRef);
    TextBack(e, FRemoteUser, l.remoteUser);
    TextBack(e, FContainerUser, l.containerUser);
    TextBack(e, FUserEnvProbe, l.userEnvProbe);
    TextBack(e, FWaitFor, l.waitFor);
    TextBack(e, FShutdownAction, l.shutdownAction);
    TextBack(e, FEntrypoint, l.entrypoint);
  }

  lemma FlagsBack(e: Entry, l: Layer)
    requires Encodes(e, l)
    ensures ReadFlag(e, FUpdateRemoteUserUID) == Some(l.updateRemoteUserUID) && ReadFlag(e, FInit) == Some(l.init)
    ensures ReadFlag(e, FPrivileged) == Some(l.privileged) && ReadFlag(e, FOverrideCommand) == Some(l.overrideCommand)
  {
    FlagBack(e, FUpdateRemoteUserUID, l.updateRemoteUserUID);
    FlagBack(e, FInit, l.init);
    FlagBack(e, FPrivileged, l.privileged);
    FlagBack(e, FOverrideCommand, l.overrideCommand);
  }

  lemma ListsBack(e: Entry, l: Layer)
    requires Encodes(e, l)
    ensures ReadTextMap(e, FContainerEnv) == Some(l.containerEnv) && ReadTextMap(e, FRemoteEnv) == Some(l.remoteEnv)
    ensures ReadTexts(e, FCapAdd) == Some(l.capAdd) && ReadTexts(e, FSecurityOpt) == Some(l.securityOpt)
  {
    MapBack(e, FContainerEnv, l.containerEnv);
    MapBack(e, FRemoteEnv, l.remoteEnv);
    ListBack(e, FCapAdd, l.capAdd);
    ListBack(e, FSecurityOpt, l.securityOpt);
  }

  lemma EntryBack(csv: string -> Mount, e: Entry, l: Layer)
    requires Encodes(e, l)
    ensures DecodeEntry(csv, e) == Some(NormalLayer(l))
  {
    AllTextsBack(e, l);
    FlagsBack(e, l);
    ListsBack(e, l);
    MountsBack(csv, e, l);
    HostBack(e, l);
    DependsBack(e, l);
    HooksBack(e, l);
  }

  /** Whatever a layer holds, the label returns it in normal form. */
  lemma EntryRoundTrip(csv: string -> Mount, l: Layer)
    ensures DecodeEntry(csv, EncodeEntry(l)) == Some(NormalLayer(l))
  {
    EntryEncodes(l);
    EntryBack(csv, EncodeEntry(l), l);
  }
}
