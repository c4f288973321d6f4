/**
  What the entries of a devcontainer.metadata label mean, told on their JSON:
  which layer, if any, an entry is read as, and what a build's label says of the
  features it installs and of the users. (feature/metadata.go:63-308,
  config/normalize.go:38-126)
 */
module LabelTerms {
  import opened Prelude
  import opened MergeLists
  import opened Json
  import opened Metadata
  import opened MetadataLabel
  import opened Reattach

  // ---- values ----

  /** A string, null standing for the empty one. */
  ghost predicate TextOf(j: Json, s: string) { j == Str(s) || (j == Null && s == "") }

  ghost predicate TextAt<K>(m: map<K, Json>, k: K, s: string) {
    if k in m then TextOf(m[k], s) else s == ""
  }

  ghost predicate FlagAt(e: Entry, f: Field, v: Option<bool>) {
    if f in e && e[f] != Null then v.Some? && e[f] == Bool(v.value) else v.None?
  }

  ghost predicate ItemsAre(items: seq<Json>, ss: seq<string>) {
    |items| == |ss| && forall i :: 0 <= i < |ss| ==> TextOf(items[i], ss[i])
  }

  ghost predicate ListOf(j: Json, ss: seq<string>) {
    (j == Null && ss == []) || (j.Arr? && ItemsAre(j.items, ss))
  }

  ghost predicate ListAt(e: Entry, f: Field, ss: seq<string>) {
    if f in e then ListOf(e[f], ss) else ss == []
  }

  ghost predicate MapAt(e: Entry, f: Field, m: map<string, string>) {
    if f !in e || e[f] == Null then m == map[]
    else e[f].Obj? && e[f].fields.Keys == m.Keys && forall k :: k in m ==> TextOf(e[f].fields[k], m[k])
  }

  /** One command: a string runs in a shell, a list as it stands. */
  ghost predicate CommandOf(j: Json, c: Command) {
    (TextOf(j, c.shell) && c.exec == []) || (j.Arr? && c.shell == "" && ListOf(j, c.exec))
  }

  /** One phase's commands: none, a single one, or named ones to run in parallel. */
  ghost predicate HookAt(e: Entry, f: Field, h: Hook) {
    if f !in e then h.single.None? && h.parallel == map[]
    else if e[f].Obj? then
      h.single.None? && h.parallel.Keys == e[f].fields.Keys && forall k :: k in h.parallel ==> CommandOf(e[f].fields[k], h.parallel[k])
    else h.single.Some? && h.parallel == map[] && CommandOf(e[f], h.single.value)
  }

  /** One mount: a comma-separated string, or an object that says at least what, from where or to where. */
  ghost predicate MountOf(csv: string -> Mount, j: Json, m: Mount) {
    match j
    case Str(s) => m == csv(s)
    case Null => m == csv("")
    case Obj(o) =>
      && TextAt(o, "type", m.kind) && TextAt(o, "source", m.source) && TextAt(o, "target", m.target)
      && (if "readonly" in o && o["readonly"] != Null then o["readonly"] == Bool(m.readOnly) else !m.readOnly)
      && (m.kind != "" || m.source != "" || m.target != "")
    case _ => false
  }

  /** The mounts of a list: those that are mounts, in order; what is not recognised is passed over. */
  ghost predicate MountsOf(csv: string -> Mount, items: seq<Json>, ms: seq<Mount>, at: seq<nat>) {
    && |at| == |ms| && (forall k :: 0 <= k < |at| ==> at[k] < |items| && MountOf(csv, items[at[k]], ms[k]))
    && (forall j, k :: 0 <= j < k < |at| ==> at[j] < at[k])
    && forall i: nat :: i < |items| && i !in at ==> NoMount(csv, items[i])
  }

  ghost predicate NoMount(csv: string -> Mount, j: Json) { forall m :: !MountOf(csv, j, m) }

  ghost predicate MountsAt(csv: string -> Mount, e: Entry, ms: seq<Mount>) {
    if FMounts !in e || e[FMounts] == Null then ms == []
    else e[FMounts].Arr? && exists at: seq<nat> :: MountsOf(csv, e[FMounts].items, ms, at)
  }

  ghost predicate HostAt(e: Entry, v: Option<HostReq>) {
    if FHostRequirements !in e || e[FHostRequirements] == Null then v.None?
    else
      && e[FHostRequirements].Obj? && v.Some?
      && var o := e[FHostRequirements].fields;
         && (if "cpus" in o && o["cpus"] != Null then o["cpus"] == Num(v.value.cpus) else v.value.cpus == 0)
         && TextAt(o, "memory", v.value.memory) && TextAt(o, "storage", v.value.storage)
  }

  ghost predicate DependsAt(e: Entry, v: Option<map<string, map<string, Json>>>) {
    if FDependsOn !in e || e[FDependsOn] == Null then v.None?
    else
      && e[FDependsOn].Obj? && v.Some? && v.value.Keys == e[FDependsOn].fields.Keys
      && forall k :: k in v.value ==> e[FDependsOn].fields[k] == Obj(v.value[k]) || (e[FDependsOn].fields[k] == Null && v.value[k] == map[])
  }

  // ---- entries ----

  /** The entry is this layer, field by field. */
  ghost predicate Means(csv: string -> Mount, e: Entry, l: Layer) {
    && TextAt(e, FId, l.id) && TextAt(e, FVersion, l.version) && TextAt(e, FResolvedRef, l.resolvedRef) && DependsAt(e, l.dependsOn)
    && TextAt(e, FRemoteUser, l.remoteUser) && TextAt(e, FContainerUser, l.containerUser) && TextAt(e, FUserEnvProbe, l.userEnvProbe)
    && TextAt(e, FWaitFor, l.waitFor) && TextAt(e, FShutdownAction, l.shutdownAction) && TextAt(e, FEntrypoint, l.entrypoint)
    && FlagAt(e, FUpdateRemoteUserUID, l.updateRemoteUserUID) && FlagAt(e, FInit, l.init)
    && FlagAt(e, FPrivileged, l.privileged) && FlagAt(e, FOverrideCommand, l.overrideCommand)
    && MapAt(e, FContainerEnv, l.containerEnv) && MapAt(e, FRemoteEnv, l.remoteEnv) && MountsAt(csv, e, l.mounts)
    && ListAt(e, FCapAdd, l.capAdd) && ListAt(e, FSecurityOpt, l.securityOpt) && HostAt(e, l.hostRequirements)
    && HookAt(e, FOnCreate, l.hooks.onCreate) && HookAt(e, FUpdateContent, l.hooks.updateContent) && HookAt(e, FPostCreate, l.hooks.postCreate)
    && HookAt(e, FPostStart, l.hooks.postStart) && HookAt(e, FPostAttach, l.hooks.postAttach)
  }

  lemma TextMeans<K>(m: map<K, Json>, k: K, s: string)
    ensures ReadText(m, k) == Some(s) <==> TextAt(m, k, s)
  {}

  lemma FlagMeans(e: Entry, f: Field, v: Option<bool>)
    ensures ReadFlag(e, f) == Some(v) <==> FlagAt(e, f, v)
  {}

  lemma ItemsSnoc(items: seq<Json>, ss: seq<string>, n: nat)
    requires |items| == |ss| == n + 1
    ensures ItemsAre(items, ss) <==> ItemsAre(items[..n], ss[..n]) && TextOf(items[n], ss[n])
  {
    assert forall i :: 0 <= i < n ==> ss[..n][i] == ss[i] && items[..n][i] == items[i];
  }

  lemma {:induction false} ItemsLength(items: seq<Json>)
    ensures TextsFrom(items).Some? ==> |TextsFrom(items).value| == |items|
  {
    if items != [] { ItemsLength(items[..|items| - 1]); }
  }

  lemma {:induction false} ItemsMean(items: seq<Json>, ss: seq<string>)
    ensures TextsFrom(items) == Some(ss) <==> ItemsAre(items, ss)
  {
    ItemsLength(items);
    if items != [] && |ss| == |items| {
      var n := |items| - 1;
      ItemsMean(items[..n], ss[..n]);
      ItemsSnoc(items, ss, n);
      assert ss == ss[..n] + [ss[n]];
    }
  }

  lemma ListMeans(j: Json, ss: seq<string>)
    ensures AsTexts(j) == Some(ss) <==> ListOf(j, ss)
  {
    if j.Arr? { ItemsMean(j.items, ss); }
  }

  lemma MapMeans(e: Entry, f: Field, m: map<string, string>)
    ensures ReadTextMap(e, f) == Some(m) <==> MapAt(e, f, m)
  {
    if f in e && e[f].Obj? {
      var o := e[f].fields;
      if MapAt(e, f, m) {
        forall k | k in o ensures AsText(o[k]) == Some(m[k]) { assert k in m; }
        assert m == map k | k in o :: AsText(o[k]).value;
      }
    }
  }

  lemma CommandMeans(j: Json, c: Command)
    ensures CommandFrom(j) == Some(c) <==> CommandOf(j, c)
  {
    ListMeans(j, c.exec);
  }

  lemma HookMeans(e: Entry, f: Field, h: Hook)
    ensures ReadHook(e, f) == Some(h) <==> HookAt(e, f, h)
  {
    if f in e && e[f].Obj? {
      ParallelMeans(e[f].fields, h);
      assert CommandFrom(e[f]).None?;
    } else if f in e {
      if h.single.Some? { CommandMeans(e[f], h.single.value); }
    }
  }

  lemma ParallelMeans(o: map<string, Json>, h: Hook)
    ensures (forall k :: k in o ==> CommandFrom(o[k]).Some?) && h == Hook(None, map k | k in o :: CommandFrom(o[k]).value) <==>
      h.single.None? && h.parallel.Keys == o.Keys && forall k :: k in h.parallel ==> CommandOf(o[k], h.parallel[k])
  {
    forall k | k in h.parallel && k in o ensures CommandFrom(o[k]) == Some(h.parallel[k]) <==> CommandOf(o[k], h.parallel[k]) {
      CommandMeans(o[k], h.parallel[k]);
    }
  }

  lemma MountMeans(csv: string -> Mount, j: Json, m: Mount)
    ensures MountFrom(csv, j) == Some(m) <==> MountOf(csv, j, m)
  {
    if j.Obj? {
      TextMeans(j.fields, "type", m.kind);
      TextMeans(j.fields, "source", m.source);
      TextMeans(j.fields, "target", m.target);
    }
  }

  /** What a list of mounts yields is what is recognised of it, in order. */
  lemma {:induction false} MountsFound(csv: string -> Mount, items: seq<Json>) returns (at: seq<nat>)
    ensures MountsOf(csv, items, MountsFrom(csv, items), at)
  {
    at := [];
    if items != [] {
      var n := |items| - 1;
      var before := MountsFound(csv, items[..n]);
      var found := MountFrom(csv, items[n]);
      at := if found.Some? then before + [n] else before;
      MountsSnoc(csv, items, before, found);
    }
  }

  lemma InSnoc(before: seq<nat>, n: nat, i: nat)
    ensures i in before + [n] <==> i in before || i == n
  {}

  lemma RecognisedIff(csv: string -> Mount, j: Json)
    ensures MountFrom(csv, j).None? <==> NoMount(csv, j)
    ensures MountFrom(csv, j).Some? ==> MountOf(csv, j, MountFrom(csv, j).value)
  {
    forall m ensures MountFrom(csv, j) == Some(m) <==> MountOf(csv, j, m) { MountMeans(csv, j, m); }
  }

  lemma MountsSnoc(csv: string -> Mount, items: seq<Json>, before: seq<nat>, found: Option<Mount>)
    requires items != [] && found == MountFrom(csv, items[|items| - 1])
    requires MountsOf(csv, items[..|items| - 1], MountsFrom(csv, items[..|items| - 1]), before)
    ensures MountsOf(csv, items, MountsFrom(csv, items), if found.Some? then before + [|items| - 1] else before)
  {
    RecognisedIff(csv, items[|items| - 1]);
    if found.Some? { MountsSnocOne(csv, items, MountsFrom(csv, items[..|items| - 1]), before, found.value); }
    else { MountsSnocNone(csv, items, MountsFrom(csv, items[..|items| - 1]), before); }
  }

  lemma MountsSnocOne(csv: string -> Mount, items: seq<Json>, ms: seq<Mount>, before: seq<nat>, m: Mount)
    requires items != [] && MountsOf(csv, items[..|items| - 1], ms, before) && MountOf(csv, items[|items| - 1], m)
    ensures MountsOf(csv, items, ms + [m], before + [|items| - 1])
  {
    var n, at := |items| - 1, before + [|items| - 1];
    forall i: nat | i < |items| && i !in at ensures NoMount(csv, items[i]) { InSnoc(before, n, i); assert items[..n][i] == items[i]; }
  }

  lemma MountsSnocNone(csv: string -> Mount, items: seq<Json>, ms: seq<Mount>, before: seq<nat>)
    requires items != [] && MountsOf(csv, items[..|items| - 1], ms, before) && NoMount(csv, items[|items| - 1])
    ensures MountsOf(csv, items, ms, before)
  {
    var n := |items| - 1;
    forall i: nat | i < |items| && i !in before ensures NoMount(csv, items[i]) { if i < n { assert items[..n][i] == items[i]; } }
  }

  lemma {:induction false} Spaced(at: seq<nat>, k: nat)
    requires k < |at| && forall i, j :: 0 <= i < j < |at| ==> at[i] < at[j]
    ensures at[k] >= k
  {
    if k > 0 { Spaced(at, k - 1); }
  }

  lemma NoMore(csv: string -> Mount, items: seq<Json>, a: seq<Mount>, at: seq<nat>)
    requires MountsOf(csv, items, a, at)
    ensures |a| <= |items|
  {
    if |at| > 0 { Spaced(at, |at| - 1); }
  }

  /** A list is what it yields in one way only. */
  lemma {:induction false} MountsUnique(csv: string -> Mount, items: seq<Json>, a: seq<Mount>, at: seq<nat>, b: seq<Mount>, bt: seq<nat>)
    requires MountsOf(csv, items, a, at) && MountsOf(csv, items, b, bt)
    ensures a == b
  {
    if items == [] {
      NoMore(csv, items, a, at);
      NoMore(csv, items, b, bt);
    } else {
      var n := |items| - 1;
      var a', at' := MountsButLast(csv, items, a, at);
      var b', bt' := MountsButLast(csv, items, b, bt);
      MountsUnique(csv, items[..n], a', at', b', bt');
    }
  }

  lemma MountsDropLast(csv: string -> Mount, items: seq<Json>, a: seq<Mount>, at: seq<nat>)
    requires items != [] && MountsOf(csv, items, a, at) && |at| > 0 && at[|at| - 1] == |items| - 1
    ensures MountsOf(csv, items[..|items| - 1], a[..|a| - 1], at[..|at| - 1])
  {
    var n, at' := |items| - 1, at[..|at| - 1];
    assert at == at' + [n];
    forall i: nat | i < n && i !in at' ensures NoMount(csv, items[..n][i]) { InSnoc(at', n, i); }
  }

  lemma MountsKeepLast(csv: string -> Mount, items: seq<Json>, a: seq<Mount>, at: seq<nat>)
    requires items != [] && MountsOf(csv, items, a, at) && !(|at| > 0 && at[|at| - 1] == |items| - 1)
    ensures MountsOf(csv, items[..|items| - 1], a, at) && NoMount(csv, items[|items| - 1])
  {
    var n: nat := |items| - 1;
    forall k | 0 <= k < |at| ensures at[k] != n { assert at[k] <= at[|at| - 1] < |items|; }
    assert n !in at;
  }

  lemma MountsButLast(csv: string -> Mount, items: seq<Json>, a: seq<Mount>, at: seq<nat>) returns (a': seq<Mount>, at': seq<nat>)
    requires items != [] && MountsOf(csv, items, a, at)
    ensures MountsOf(csv, items[..|items| - 1], a', at')
    ensures var last := MountFrom(csv, items[|items| - 1]); a == a' + if last.Some? then [last.value] else []
  {
    var k := |at| - 1;
    RecognisedIff(csv, items[|items| - 1]);
    if |at| > 0 && at[k] == |items| - 1 {
      MountMeans(csv, items[at[k]], a[k]);
      MountsDropLast(csv, items, a, at);
      a', at' := a[..k], at[..k];
      assert a == a' + [a[k]];
    } else {
      MountsKeepLast(csv, items, a, at);
      a', at' := a, at;
      assert a == a' + [];
    }
  }

  lemma MountsMean(csv: string -> Mount, e: Entry, ms: seq<Mount>)
    ensures ReadMounts(csv, e) == Some(ms) <==> MountsAt(csv, e, ms)
  {
    if FMounts in e && e[FMounts].Arr? {
      var items := e[FMounts].items;
      var at := MountsFound(csv, items);
      if bt: seq<nat> :| MountsOf(csv, items, ms, bt) { MountsUnique(csv, items, MountsFrom(csv, items), at, ms, bt); }
    }
  }

  lemma HostMeans(e: Entry, v: Option<HostReq>)
    ensures ReadHost(e) == Some(v) <==> HostAt(e, v)
  {
    if FHostRequirements in e && e[FHostRequirements].Obj? && v.Some? {
      TextMeans(e[FHostRequirements].fields, "memory", v.value.memory);
      TextMeans(e[FHostRequirements].fields, "storage", v.value.storage);
    }
  }

  lemma DependsMean(e: Entry, v: Option<map<string, map<string, Json>>>)
    ensures ReadDepends(e) == Some(v) <==> DependsAt(e, v)
  {
    if FDependsOn in e && e[FDependsOn].Obj? && v.Some? {
      var o := e[FDependsOn].fields;
      if DependsAt(e, v) {
        forall k | k in o ensures o[k].Obj? || o[k].Null? { assert k in v.value; }
        assert v.value == map k | k in o :: if o[k].Obj? then o[k].fields else map[];
      }
    }
  }

  // ---- the whole entry ----

  /** Every part of the entry reads as the layer's field. */
  ghost predicate PartsRead(csv: string -> Mount, e: Entry, l: Layer) {
    && ReadAllTexts(e) == Some([l.id, l.version, l.resolvedRef, l.remoteUser, l.containerUser, l.userEnvProbe, l.waitFor, l.shutdownAction, l.entrypoint])
    && ReadFlag(e, FUpdateRemoteUserUID) == Some(l.updateRemoteUserUID) && ReadFlag(e, FInit) == Some(l.init)
    && ReadFlag(e, FPrivileged) == Some(l.privileged) && ReadFlag(e, FOverrideCommand) == Some(l.overrideCommand)
    && ReadTextMap(e, FContainerEnv) == Some(l.containerEnv) && ReadTextMap(e, FRemoteEnv) == Some(l.remoteEnv)
    && ReadMounts(csv, e) == Some(l.mounts) && ReadTexts(e, FCapAdd) == Some(l.capAdd) && ReadTexts(e, FSecurityOpt) == Some(l.securityOpt)
    && ReadHost(e) == Some(l.hostRequirements) && ReadDepends(e) == Some(l.dependsOn) && ReadHooks(e) == Some(l.hooks)
  }

  lemma DecodesParts(csv: string -> Mount, e: Entry, l: Layer)
    ensures DecodeEntry(csv, e) == Some(l) <==> PartsRead(csv, e, l)
  {}

  lemma TextsRead(e: Entry, l: Layer)
    ensures ReadAllTexts(e) == Some([l.id, l.version, l.resolvedRef, l.remoteUser, l.containerUser, l.userEnvProbe, l.waitFor, l.shutdownAction, l.entrypoint]) <==>
      && TextAt(e, FId, l.id) && TextAt(e, FVersion, l.version) && TextAt(e, FResolvedRef, l.resolvedRef)
      && TextAt(e, FRemoteUser, l.remoteUser) && TextAt(e, FContainerUser, l.containerUser) && TextAt(e, FUserEnvProbe, l.userEnvProbe)
      && TextAt(e, FWaitFor, l.waitFor) && TextAt(e, FShutdownAction, l.shutdownAction) && TextAt(e, FEntrypoint, l.entrypoint)
  {
    TextMeans(e, FId, l.id);
    TextMeans(e, FVersion, l.version);
    TextMeans(e, FResolvedRef, l.resolvedRef);
    TextMeans(e, FRemoteUser, l.remoteUser);
    TextMeans(e, FContainerUser, l.containerUser);
    TextMeans(e, FUserEnvProbe, l.userEnvProbe);
    TextMeans(e, FWaitFor, l.waitFor);
    TextMeans(e, FShutdownAction, l.shutdownAction);
    TextMeans(e, FEntrypoint, l.entrypoint);
  }

  lemma HooksRead(e: Entry, h: PerPhase<Hook>)
    ensures ReadHooks(e) == Some(h) <==>
      && HookAt(e, FOnCreate, h.onCreate) && HookAt(e, FUpdateContent, h.updateContent) && HookAt(e, FPostCreate, h.postCreate)
      && HookAt(e, FPostStart, h.postStart) && HookAt(e, FPostAttach, h.postAttach)
  {
    HookMeans(e, FOnCreate, h.onCreate);
    HookMeans(e, FUpdateContent, h.updateContent);
    HookMeans(e, FPostCreate, h.postCreate);
    HookMeans(e, FPostStart, h.postStart);
    HookMeans(e, FPostAttach, h.postAttach);
  }

  /** An entry decodes to a layer exactly when it means that layer. */
  lemma EntryMeans(csv: string -> Mount, e: Entry, l: Layer)
    ensures DecodeEntry(csv, e) == Some(l) <==> Means(csv, e, l)
  {
    DecodesParts(csv, e, l);
    TextsRead(e, l);
    FlagMeans(e, FUpdateRemoteUserUID, l.updateRemoteUserUID);
    FlagMeans(e, FInit, l.init);
    FlagMeans(e, FPrivileged, l.privileged);
    FlagMeans(e, FOverrideCommand, l.overrideCommand);
    MapMeans(e, FContainerEnv, l.containerEnv);
    MapMeans(e, FRemoteEnv, l.remoteEnv);
    MountsMean(csv, e, l.mounts);
    ListsRead(e, l);
    HostMeans(e, l.hostRequirements);
    DependsMean(e, l.dependsOn);
    HooksRead(e, l.hooks);
  }

  lemma ListsRead(e: Entry, l: Layer)
    ensures ReadTexts(e, FCapAdd) == Some(l.capAdd) <==> ListAt(e, FCapAdd, l.capAdd)
    ensures ReadTexts(e, FSecurityOpt) == Some(l.securityOpt) <==> ListAt(e, FSecurityOpt, l.securityOpt)
  {
    if FCapAdd in e { ListMeans(e[FCapAdd], l.capAdd); }
    if FSecurityOpt in e { ListMeans(e[FSecurityOpt], l.securityOpt); }
  }

  // ---- what is written ----

  ghost predicate WritesText<K>(m: map<K, Json>, k: K, s: string) {
    if s == "" then k !in m else k in m && m[k] == Str(s)
  }

  ghost predicate WritesFlag(e: Entry, f: Field, v: Option<bool>) {
    match v case None => f !in e case Some(b) => f in e && e[f] == Bool(b)
  }

  ghost predicate IsList(j: Json, ss: seq<string>) {
    j.Arr? && |j.items| == |ss| && forall i :: 0 <= i < |ss| ==> j.items[i] == Str(ss[i])
  }

  ghost predicate WritesList(e: Entry, f: Field, ss: seq<string>) {
    if |ss| == 0 then f !in e else f in e && IsList(e[f], ss)
  }

  ghost predicate WritesMap(e: Entry, f: Field, m: map<string, string>) {
    if m == map[] then f !in e else f in e && e[f].Obj? && e[f].fields.Keys == m.Keys && forall k :: k in m ==> e[f].fields[k] == Str(m[k])
  }

  ghost predicate IsMount(j: Json, m: Mount) {
    && j.Obj? && j.fields.Keys <= {"type", "source", "target", "readonly"}
    && WritesText(j.fields, "type", m.kind) && WritesText(j.fields, "source", m.source) && WritesText(j.fields, "target", m.target)
    && ("readonly" in j.fields <==> m.readOnly) && (m.readOnly ==> j.fields["readonly"] == Bool(true))
  }

  ghost predicate WritesMounts(e: Entry, ms: seq<Mount>) {
    if |ms| == 0 then FMounts !in e
    else FMounts in e && e[FMounts].Arr? && |e[FMounts].items| == |ms| && forall i :: 0 <= i < |ms| ==> IsMount(e[FMounts].items[i], ms[i])
  }

  ghost predicate WritesHost(e: Entry, v: Option<HostReq>) {
    match v
    case None => FHostRequirements !in e
    case Some(h) =>
      && FHostRequirements in e && e[FHostRequirements].Obj?
      && var o := e[FHostRequirements].fields;
         && o.Keys <= {"cpus", "memory", "storage"} && ("cpus" in o <==> h.cpus != 0) && (h.cpus != 0 ==> o["cpus"] == Num(h.cpus))
         && WritesText(o, "memory", h.memory) && WritesText(o, "storage", h.storage)
  }

  /** A command as a string or a list; one that has neither as null. */
  ghost predicate IsCommand(j: Json, c: Command) {
    if c.shell != "" then j == Str(c.shell) else if |c.exec| == 0 then j == Null else IsList(j, c.exec)
  }

  /** A single command that runs something, else the parallel ones, else nothing. */
  ghost predicate WritesHook(e: Entry, f: Field, h: Hook) {
    if h.single.Some? && (h.single.value.shell != "" || |h.single.value.exec| > 0) then f in e && IsCommand(e[f], h.single.value)
    else if h.parallel == map[] then f !in e
    else f in e && e[f].Obj? && e[f].fields.Keys == h.parallel.Keys && forall k :: k in h.parallel ==> IsCommand(e[f].fields[k], h.parallel[k])
  }

  ghost predicate WritesDepends(e: Entry, v: Option<map<string, map<string, Json>>>) {
    match v
    case None => FDependsOn !in e
    case Some(d) => FDependsOn in e && e[FDependsOn].Obj? && e[FDependsOn].fields.Keys == d.Keys && forall k :: k in d ==> e[FDependsOn].fields[k] == Obj(d[k])
  }

  ghost predicate WritesTexts(e: Entry, l: Layer) {
    && WritesText(e, FId, l.id) && WritesText(e, FVersion, l.version) && WritesText(e, FResolvedRef, l.resolvedRef)
    && WritesText(e, FRemoteUser, l.remoteUser) && WritesText(e, FContainerUser, l.containerUser) && WritesText(e, FUserEnvProbe, l.userEnvProbe)
    && WritesText(e, FWaitFor, l.waitFor) && WritesText(e, FShutdownAction, l.shutdownAction) && WritesText(e, FEntrypoint, l.entrypoint)
  }

  ghost predicate WritesFlags(e: Entry, l: Layer) {
    && WritesFlag(e, FUpdateRemoteUserUID, l.updateRemoteUserUID) && WritesFlag(e, FInit, l.init)
    && WritesFlag(e, FPrivileged, l.privileged) && WritesFlag(e, FOverrideCommand, l.overrideCommand)
  }

  ghost predicate WritesLists(e: Entry, l: Layer) {
    && WritesMap(e, FContainerEnv, l.containerEnv) && WritesMap(e, FRemoteEnv, l.remoteEnv)
    && WritesList(e, FCapAdd, l.capAdd) && WritesList(e, FSecurityOpt, l.securityOpt)
  }

  ghost predicate WritesHooks(e: Entry, h: PerPhase<Hook>) {
    && WritesHook(e, FOnCreate, h.onCreate) && WritesHook(e, FUpdateContent, h.updateContent) && WritesHook(e, FPostCreate, h.postCreate)
    && WritesHook(e, FPostStart, h.postStart) && WritesHook(e, FPostAttach, h.postAttach)
  }

  /** What the entry of a layer holds: each field that is set, in its plain form, and no other. */
  ghost predicate Writes(e: Entry, l: Layer) {
    && WritesTexts(e, l) && WritesFlags(e, l) && WritesLists(e, l) && WritesHooks(e, l.hooks)
    && WritesMounts(e, l.mounts) && WritesHost(e, l.hostRequirements) && WritesDepends(e, l.dependsOn)
  }

  lemma TextWritten<K>(m: map<K, Json>, k: K, s: string)
    requires Get(m, k) == Text(s)
    ensures WritesText(m, k, s)
  {}

  lemma FlagWritten(e: Entry, f: Field, v: Option<bool>)
    requires Get(e, f) == Flag(v)
    ensures WritesFlag(e, f, v)
  {}

  lemma ListWritten(e: Entry, f: Field, ss: seq<string>)
    requires Get(e, f) == Texts(ss)
    ensures WritesList(e, f, ss)
  {}

  lemma MapWritten(e: Entry, f: Field, m: map<string, string>)
    requires Get(e, f) == TextMap(m)
    ensures WritesMap(e, f, m)
  {}

  lemma MountWritten(m: Mount)
    ensures IsMount(MountObj(m), m)
  {}

  lemma MountsWritten(e: Entry, ms: seq<Mount>)
    requires Get(e, FMounts) == MountsJson(ms)
    ensures WritesMounts(e, ms)
  {
    forall i | 0 <= i < |ms| ensures IsMount(MountObj(ms[i]), ms[i]) { MountWritten(ms[i]); }
  }

  lemma HostWritten(e: Entry, v: Option<HostReq>)
    requires Get(e, FHostRequirements) == HostJson(v)
    ensures WritesHost(e, v)
  {}

  lemma CommandWritten(c: Command)
    ensures IsCommand(CommandJson(c), c)
  {}

  lemma HookWritten(e: Entry, f: Field, h: Hook)
    requires Get(e, f) == HookJson(h)
    ensures WritesHook(e, f, h)
  {
    if h.single.Some? { CommandWritten(h.single.value); }
    forall k | k in h.parallel ensures IsCommand(CommandJson(h.parallel[k]), h.parallel[k]) { CommandWritten(h.parallel[k]); }
  }

  lemma DependsWritten(e: Entry, v: Option<map<string, map<string, Json>>>)
    requires Get(e, FDependsOn) == DependsJson(v)
    ensures WritesDepends(e, v)
  {}

  lemma TextsWritten(e: Entry, l: Layer)
    requires Encodes(e, l)
    ensures WritesTexts(e, l)
  {
    TextWritten(e, FId, l.id);
    TextWritten(e, FVersion, l.version);
    TextWritten(e, FResolvedRef, l.resolvedRef);
    TextWritten(e, FRemoteUser, l.remoteUser);
    TextWritten(e, FContainerUser, l.containerUser);
    TextWritten(e, FUserEnvProbe, l.userEnvProbe);
    TextWritten(e, FWaitFor, l.waitFor);
    TextWritten(e, FShutdownAction, l.shutdownAction);
    TextWritten(e, FEntrypoint, l.entrypoint);
  }

  lemma PhaseWritten(e: Entry, l: Layer, phase: Phase)
    requires Encodes(e, l)
    ensures WritesHook(e, FieldOf(phase), At(l.hooks, phase))
  {
    assert Get(e, FieldOf(phase)) == FieldJson(l, FieldOf(phase));
    HookWritten(e, FieldOf(phase), At(l.hooks, phase));
  }

  lemma HooksWritten(e: Entry, l: Layer)
    requires Encodes(e, l)
    ensures WritesHooks(e, l.hooks)
  {
    PhaseWritten(e, l, OnCreate);
    PhaseWritten(e, l, UpdateContent);
    PhaseWritten(e, l, PostCreate);
    PhaseWritten(e, l, PostStart);
    PhaseWritten(e, l, PostAttach);
  }

  lemma FlagsWritten(e: Entry, l: Layer)
    requires Encodes(e, l)
    ensures WritesFlags(e, l)
  {
    FlagWritten(e, FUpdateRemoteUserUID, l.updateRemoteUserUID);
    FlagWritten(e, FInit, l.init);
    FlagWritten(e, FPrivileged, l.privileged);
    FlagWritten(e, FOverrideCommand, l.overrideCommand);
  }

  lemma ListsWritten(e: Entry, l: Layer)
    requires Encodes(e, l)
    ensures WritesLists(e, l)
  {
    MapWritten(e, FContainerEnv, l.containerEnv);
    MapWritten(e, FRemoteEnv, l.remoteEnv);
    ListWritten(e, FCapAdd, l.capAdd);
    ListWritten(e, FSecurityOpt, l.securityOpt);
  }

  lemma OthersWritten(e: Entry, l: Layer)
    requires Encodes(e, l)
    ensures WritesMounts(e, l.mounts) && WritesHost(e, l.hostRequirements) && WritesDepends(e, l.dependsOn)
  {
    MountsWritten(e, l.mounts);
    HostWritten(e, l.hostRequirements);
    DependsWritten(e, l.dependsOn);
  }

  lemma AllWritten(e: Entry, l: Layer)
    requires Encodes(e, l)
    ensures Writes(e, l)
  {
    TextsWritten(e, l);
    FlagsWritten(e, l);
    ListsWritten(e, l);
    HooksWritten(e, l);
    OthersWritten(e, l);
  }

  /** The entry written for a layer holds what the layer sets, and means the layer in normal form. */
  lemma EntryWrites(csv: string -> Mount, l: Layer)
    ensures Writes(EncodeEntry(l), l) && Means(csv, EncodeEntry(l), NormalLayer(l))
  {
    EntryEncodes(l);
    AllWritten(EncodeEntry(l), l);
    EntryRoundTrip(csv, l);
    EntryMeans(csv, EncodeEntry(l), NormalLayer(l));
  }

  // ---- what a build's label says ----

  /** The entry records f: its own metadata, the artifact it was resolved to and its dependencies, though there be none. */
  ghost predicate Records(csv: string -> Mount, e: Entry, f: Planned) {
    exists l :: Means(csv, e, l) && l.resolvedRef == f.resolvedRef
      && l.dependsOn == (match f.metadata.dependsOn case None => Some(map[]) case Some(d) => Some(d))
      && l == NormalLayer(f.metadata).(resolvedRef := l.resolvedRef, dependsOn := l.dependsOn)
  }

  /** The entry says which users the configuration asked for, and nothing else. */
  ghost predicate RecordsUsers(e: Entry, c: Values) {
    TextAt(e, FRemoteUser, c.remoteUser) && TextAt(e, FContainerUser, c.containerUser) && e.Keys <= {FRemoteUser, FContainerUser}
  }

  ghost predicate RecordsAll(csv: string -> Mount, entries: seq<Entry>, fs: seq<Planned>, at: seq<nat>) {
    && |entries| == |at| && (forall k :: 0 <= k < |at| ==> at[k] < |fs| && Records(csv, entries[k], fs[at[k]]))
    && (forall j, k :: 0 <= j < k < |at| ==> at[j] < at[k])
    && forall i: nat :: i < |fs| ==> (i in at <==> !fs[i].alreadyInstalled)
  }

  lemma StampRecords(csv: string -> Mount, f: Planned)
    ensures Records(csv, EncodeEntry(Stamp(f)), f)
  {
    var l := NormalLayer(Stamp(f));
    EntryRoundTrip(csv, Stamp(f));
    EntryMeans(csv, EncodeEntry(Stamp(f)), l);
  }

  lemma TrailerRecords(c: Values)
    ensures RecordsUsers(EncodeEntry(Trailer(c)), c)
  {}

  /** The layers a build writes are its features' records, those not built in, in order. */
  lemma {:induction false} StampedPicks(fs: seq<Planned>) returns (at: seq<nat>)
    ensures Picks(Map(fs, f => Stamp(f)), at, Stamped(fs)) && forall i: nat :: i < |fs| ==> (i in at <==> !fs[i].alreadyInstalled)
  {
    at := [];
    if fs != [] {
      var n, all := |fs| - 1, Map(fs, f => Stamp(f));
      var before := StampedPicks(fs[..n]);
      assert all[..n] == Map(fs[..n], f => Stamp(f));
      PicksMore(all, before, Stamped(fs[..n]));
      at := if fs[n].alreadyInstalled then before else before + [n];
      forall i: nat | i < |fs| ensures i in at <==> !fs[i].alreadyInstalled {
        InSnoc(before, n, i);
        if i < n { assert fs[..n][i] == fs[i]; }
      }
    }
  }

  lemma PickedRecords(csv: string -> Mount, fs: seq<Planned>, at: seq<nat>, layers: seq<Layer>, entries: seq<Entry>)
    requires Picks(Map(fs, f => Stamp(f)), at, layers) && forall i: nat :: i < |fs| ==> (i in at <==> !fs[i].alreadyInstalled)
    requires |entries| == |layers| && forall k :: 0 <= k < |layers| ==> entries[k] == EncodeEntry(layers[k])
    ensures RecordsAll(csv, entries, fs, at)
  {
    forall k | 0 <= k < |at| ensures at[k] < |fs| && Records(csv, entries[k], fs[at[k]]) { StampRecords(csv, fs[at[k]]); }
  }

  lemma LabelIs(c: Values, base: seq<Layer>, fs: seq<Planned>, entries: seq<Entry>)
    requires entries == Label(c, base, fs)
    ensures |entries| == |base| + |Stamped(fs)| + 1 && entries[|entries| - 1] == EncodeEntry(Trailer(c))
    ensures forall i :: 0 <= i < |base| ==> entries[i] == EncodeEntry(base[i])
    ensures forall k :: 0 <= k < |Stamped(fs)| ==> entries[|base|..|entries| - 1][k] == EncodeEntry(Stamped(fs)[k])
  {}

  /** What the label entries of a build say: of the base image's layers, of the features at these places, of the users. */
  ghost predicate Says(csv: string -> Mount, c: Values, base: seq<Layer>, fs: seq<Planned>, at: seq<nat>, entries: seq<Entry>) {
    && |entries| == |base| + |at| + 1
    && (forall i :: 0 <= i < |base| ==> Means(csv, entries[i], NormalLayer(base[i])))
    && RecordsAll(csv, entries[|base|..|entries| - 1], fs, at)
    && RecordsUsers(entries[|entries| - 1], c)
  }

  /** A build's label: the entries of the base image's layers, then in their order one for each feature it installs, then one for the users. */
  lemma LabelSays(csv: string -> Mount, c: Values, base: seq<Layer>, fs: seq<Planned>) returns (at: seq<nat>)
    ensures Says(csv, c, base, fs, at, Label(c, base, fs))
  {
    var entries := Label(c, base, fs);
    LabelIs(c, base, fs, entries);
    at := StampedPicks(fs);
    PickedRecords(csv, fs, at, Stamped(fs), entries[|base|..|entries| - 1]);
    TrailerRecords(c);
    BaseMeans(csv, entries, base);
  }

  lemma BaseMeans(csv: string -> Mount, entries: seq<Entry>, base: seq<Layer>)
    requires |entries| >= |base| && forall i :: 0 <= i < |base| ==> entries[i] == EncodeEntry(base[i])
    ensures forall i :: 0 <= i < |base| ==> Means(csv, entries[i], NormalLayer(base[i]))
  {
    forall i | 0 <= i < |base| ensures Means(csv, entries[i], NormalLayer(base[i])) {
      EntryRoundTrip(csv, base[i]);
      EntryMeans(csv, entries[i], NormalLayer(base[i]));
    }
  }
}
