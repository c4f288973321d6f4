/**
  What a metadata merge leaves, field by field, told by positions in the layers'
  own fields. Nothing here uses the merge's accessors, its substitution or its
  list operations. (config/merge_metadata.go:58-361, config/resolved.go:87-102)
 */
module MergeFields {
  import opened Prelude
  import opened Metadata
  import opened MergeLists
  import MountLists
  import HookLists
  import M = MetadataMerge

  // ---- what the fields mean ----

  /** A string of a layer with its variables resolved; an empty one has none. */
  function Filled(resolve: string -> string, s: string): string {
    if |s| > 0 then resolve(s) else s
  }

  function FilledMount(resolve: string -> string, m: Mount): Mount {
    Mount(m.kind, Filled(resolve, m.source), Filled(resolve, m.target), m.readOnly)
  }

  function FilledCommand(resolve: string -> string, c: Command): Command {
    Command(Filled(resolve, c.shell), seq(|c.exec|, i requires 0 <= i < |c.exec| => Filled(resolve, c.exec[i])))
  }

  function FilledHook(resolve: string -> string, h: Hook): Hook {
    Hook(match h.single case None => None case Some(c) => Some(FilledCommand(resolve, c)),
         map k | k in h.parallel :: FilledCommand(resolve, h.parallel[k]))
  }

  /** The user's text, else the last non-empty one of the column. */
  ghost predicate TextIs(out: string, user: string, column: seq<string>) {
    if user != "" then out == user
    else if forall i :: 0 <= i < |column| ==> column[i] == "" then out == ""
    else exists i :: 0 <= i < |column| && out == column[i] != "" && forall j :: i < j < |column| ==> column[j] == ""
  }

  /** The user's value, else the last one set. */
  ghost predicate OptionIs<T>(out: Option<T>, user: Option<T>, column: seq<Option<T>>) {
    if user.Some? then out == user
    else if forall i :: 0 <= i < |column| ==> column[i].None? then out.None?
    else exists i :: 0 <= i < |column| && column[i].Some? && out == column[i] && forall j :: i < j < |column| ==> column[j].None?
  }

  /** k is there when the user or some map of the column holds it, with the user's value, else that of the last such map, resolved. */
  ghost predicate KeyIs(out: map<string, string>, user: map<string, string>, column: seq<map<string, string>>, resolve: string -> string, k: string) {
    && (k in out <==> k in user || exists i :: 0 <= i < |column| && k in column[i])
    && (k in user ==> out[k] == user[k])
    && (k in out && k !in user ==>
          exists i :: 0 <= i < |column| && k in column[i] && out[k] == Filled(resolve, column[i][k]) && forall j :: i < j < |column| ==> k !in column[j])
  }

  ghost predicate MapIs(out: map<string, string>, user: map<string, string>, column: seq<map<string, string>>, resolve: string -> string) {
    forall k :: KeyIs(out, user, column, resolve, k)
  }

  /** The lists of the column one after the other, then the user's. */
  function Chained<T>(column: seq<seq<T>>, user: seq<T>): seq<T> {
    if column == [] then user else column[0] + Chained(column[1..], user)
  }

  /** The first occurrence of each string, in order. */
  ghost predicate UnionIs(out: seq<string>, all: seq<string>) {
    exists at: seq<nat> :: Picks(all, at, out) && forall i: nat :: i < |all| ==> (i in at <==> all[i] !in all[..i])
  }

  /** The mounts no later one overrides, in order; one without a target is never overridden. */
  ghost predicate MountsAre(out: seq<Mount>, all: seq<Mount>) {
    exists at: seq<nat> :: Picks(all, at, out) &&
      forall i: nat :: i < |all| ==> (i in at <==> all[i].target == "" || forall j :: i < j < |all| ==> all[j].target != all[i].target)
  }

  ghost predicate NonEmptyTexts(out: seq<string>, column: seq<string>) {
    exists at: seq<nat> :: Picks(column, at, out) && forall i: nat :: i < |column| ==> (i in at <==> column[i] != "")
  }

  ghost predicate RunsSomething(h: Hook) { h.single.Some? || h.parallel != map[] }

  /** The column's hooks that run something, in order, then the user's. */
  ghost predicate HooksAre(out: seq<Hook>, user: seq<Hook>, column: seq<Hook>) {
    exists at: seq<nat>, ours: seq<Hook> :: Picks(column, at, ours) && out == ours + user &&
      forall i: nat :: i < |column| ==> (i in at <==> RunsSomething(column[i]))
  }

  // ---- the list operations meet them ----

  lemma TextMeets(user: string, column: seq<string>)
    ensures TextIs(M.PickedText(user, column), user, column)
  {
    LastTextIs(column);
  }

  lemma OptionMeets<T>(user: Option<T>, column: seq<Option<T>>)
    ensures OptionIs(M.PickedSome(user, column), user, column)
  {
    LastSomeIs(column);
  }

  /** The column of maps the merge sees: the layers' keys, their values resolved. */
  ghost predicate Resolves(seen: seq<map<string, string>>, column: seq<map<string, string>>, resolve: string -> string, k: string) {
    |seen| == |column| && forall i :: 0 <= i < |column| ==> (k in seen[i] <==> k in column[i]) && (k in column[i] ==> seen[i][k] == Filled(resolve, column[i][k]))
  }

  lemma KeyMeets(user: map<string, string>, column: seq<map<string, string>>, seen: seq<map<string, string>>, resolve: string -> string, k: string)
    requires Resolves(seen, column, resolve, k)
    ensures KeyIs(Overlay(seen) + user, user, column, resolve, k)
  {
    OverlayLast(seen, k);
    if k in Overlay(seen) {
      var i :| 0 <= i < |seen| && k in seen[i] && Overlay(seen)[k] == seen[i][k] && forall j :: i < j < |seen| ==> k !in seen[j];
      assert k in column[i] && forall j :: i < j < |column| ==> k !in column[j];
    } else {
      forall i | 0 <= i < |column| ensures k !in column[i] { assert k !in seen[i]; }
    }
  }

  lemma MapMeets(user: map<string, string>, column: seq<map<string, string>>, seen: seq<map<string, string>>, resolve: string -> string)
    requires forall k :: Resolves(seen, column, resolve, k)
    ensures MapIs(Overlay(seen) + user, user, column, resolve)
  {
    forall k ensures KeyIs(Overlay(seen) + user, user, column, resolve, k) { KeyMeets(user, column, seen, resolve, k); }
  }

  lemma {:induction false} ChainedIsFlat<T>(column: seq<seq<T>>, user: seq<T>)
    ensures Chained(column, user) == Flat(column) + user
  {
    if column == [] {
    } else {
      ChainedIsFlat(column[1..], user);
      FlatConcat([column[0]], column[1..]);
      assert column == [column[0]] + column[1..];
      assert [column[0]][..0] == [];
      assert Flat([column[0]]) == column[0];
    }
  }

  lemma UnionMeets(all: seq<string>)
    ensures UnionIs(Dedup(all), all)
  {
    var at := DedupKeepsFirst(all);
    forall i: nat | i < |all| ensures i in at <==> all[i] !in all[..i] { assert i in at <==> FirstAt(all, i); }
  }

  lemma MountsMeet(all: seq<Mount>)
    ensures MountsAre(MountLists.LastPerTarget(all), all)
  {
    var at := MountLists.LastMountWins(all);
    forall i: nat | i < |all|
      ensures i in at <==> all[i].target == "" || forall j :: i < j < |all| ==> all[j].target != all[i].target
    {
      assert i in at <==> MountLists.Final(all, i);
    }
  }

  lemma {:induction false} TextsMeet(column: seq<string>) returns (at: seq<nat>)
    ensures Picks(column, at, M.Entrypoints(column)) && forall i: nat :: i < |column| ==> (i in at <==> column[i] != "")
  {
    at := [];
    if column != [] {
      var n := |column| - 1;
      var before := TextsMeet(column[..n]);
      PicksMore(column, before, M.Entrypoints(column[..n]));
      at := if column[n] == "" then before else before + [n];
      forall i: nat | i < |column| ensures i in at <==> column[i] != "" { InMore(before, at, n, i); if i < n { assert column[..n][i] == column[i]; } }
    }
  }

  lemma {:induction false} HooksMeet(column: seq<Hook>) returns (at: seq<nat>)
    ensures Picks(column, at, HookLists.Configured(column)) && forall i: nat :: i < |column| ==> (i in at <==> RunsSomething(column[i]))
  {
    at := [];
    if column != [] {
      var n := |column| - 1;
      var before := HooksMeet(column[..n]);
      PicksMore(column, before, HookLists.Configured(column[..n]));
      at := if RunsSomething(column[n]) then before + [n] else before;
      forall i: nat | i < |column| ensures i in at <==> RunsSomething(column[i]) { InMore(before, at, n, i); if i < n { assert column[..n][i] == column[i]; } }
    }
  }

  lemma InMore(before: seq<nat>, at: seq<nat>, n: nat, i: nat)
    requires at == before || at == before + [n]
    ensures i in at <==> i in before || (at != before && i == n)
  {}

  // ---- one column of the layers ----

  lemma FilledIs(resolve: string -> string)
    ensures forall s :: M.Sub(resolve, s) == Filled(resolve, s)
  {}

  lemma FilledMountIs(resolve: string -> string, m: Mount)
    ensures M.SubMount(resolve, m) == FilledMount(resolve, m)
  {
    FilledIs(resolve);
  }

  lemma FilledCommandIs(resolve: string -> string, c: Command)
    ensures M.SubCommand(resolve, c) == FilledCommand(resolve, c)
  {
    FilledIs(resolve);
    assert M.SubAll(resolve, c.exec) == FilledCommand(resolve, c).exec;
  }

  lemma FilledHookIs(resolve: string -> string, h: Hook)
    ensures M.SubHook(resolve, h) == FilledHook(resolve, h)
  {
    if h.single.Some? { FilledCommandIs(resolve, h.single.value); }
    forall k | k in h.parallel ensures M.SubCommand(resolve, h.parallel[k]) == FilledCommand(resolve, h.parallel[k]) {
      FilledCommandIs(resolve, h.parallel[k]);
    }
  }

  /** What a merge that has layers leaves of the single-valued texts: users and entrypoint have their variables resolved, the others are taken as they are. */
  lemma TextsMerged(c: Values, resolve: string -> string, layers: seq<Layer>, m: Values)
    requires layers != [] && m == M.Merged(c, resolve, layers)
    ensures
      && TextIs(m.remoteUser, c.remoteUser, Map(layers, (l: Layer) => Filled(resolve, l.remoteUser)))
      && TextIs(m.containerUser, c.containerUser, Map(layers, (l: Layer) => Filled(resolve, l.containerUser)))
      && TextIs(m.userEnvProbe, c.userEnvProbe, Map(layers, (l: Layer) => l.userEnvProbe))
      && TextIs(m.waitFor, c.waitFor, Map(layers, (l: Layer) => l.waitFor))
      && TextIs(m.shutdownAction, c.shutdownAction, Map(layers, (l: Layer) => l.shutdownAction))
  {
    var ls := M.SubLayers(resolve, layers);
    FilledIs(resolve);
    assert Map(ls, M.RemoteUserOf) == Map(layers, (l: Layer) => Filled(resolve, l.remoteUser));
    assert Map(ls, M.ContainerUserOf) == Map(layers, (l: Layer) => Filled(resolve, l.containerUser));
    assert Map(ls, M.UserEnvProbeOf) == Map(layers, (l: Layer) => l.userEnvProbe);
    assert Map(ls, M.WaitForOf) == Map(layers, (l: Layer) => l.waitFor);
    assert Map(ls, M.ShutdownActionOf) == Map(layers, (l: Layer) => l.shutdownAction);
    TextMeets(c.remoteUser, Map(ls, M.RemoteUserOf));
    TextMeets(c.containerUser, Map(ls, M.ContainerUserOf));
    TextMeets(c.userEnvProbe, Map(ls, M.UserEnvProbeOf));
    TextMeets(c.waitFor, Map(ls, M.WaitForOf));
    TextMeets(c.shutdownAction, Map(ls, M.ShutdownActionOf));
  }

  lemma OptionsMerged(c: Values, resolve: string -> string, layers: seq<Layer>, m: Values)
    requires layers != [] && m == M.Merged(c, resolve, layers)
    ensures
      && OptionIs(m.updateRemoteUserUID, c.updateRemoteUserUID, Map(layers, (l: Layer) => l.updateRemoteUserUID))
      && OptionIs(m.init, c.init, Map(layers, (l: Layer) => l.init))
      && OptionIs(m.privileged, c.privileged, Map(layers, (l: Layer) => l.privileged))
      && OptionIs(m.overrideCommand, c.overrideCommand, Map(layers, (l: Layer) => l.overrideCommand))
      && OptionIs(m.hostRequirements, c.hostRequirements, Map(layers, (l: Layer) => l.hostRequirements))
  {
    var ls := M.SubLayers(resolve, layers);
    assert Map(ls, M.UpdateRemoteUserUIDOf) == Map(layers, (l: Layer) => l.updateRemoteUserUID);
    assert Map(ls, M.InitOf) == Map(layers, (l: Layer) => l.init);
    assert Map(ls, M.PrivilegedOf) == Map(layers, (l: Layer) => l.privileged);
    assert Map(ls, M.OverrideCommandOf) == Map(layers, (l: Layer) => l.overrideCommand);
    assert Map(ls, M.HostRequirementsOf) == Map(layers, (l: Layer) => l.hostRequirements);
    OptionMeets(c.updateRemoteUserUID, Map(ls, M.UpdateRemoteUserUIDOf));
    OptionMeets(c.init, Map(ls, M.InitOf));
    OptionMeets(c.privileged, Map(ls, M.PrivilegedOf));
    OptionMeets(c.overrideCommand, Map(ls, M.OverrideCommandOf));
    OptionMeets(c.hostRequirements, Map(ls, M.HostRequirementsOf));
  }

  lemma MapsMerged(c: Values, resolve: string -> string, layers: seq<Layer>, m: Values)
    requires layers != [] && m == M.Merged(c, resolve, layers)
    ensures
      && MapIs(m.containerEnv, c.containerEnv, Map(layers, (l: Layer) => l.containerEnv), resolve)
      && MapIs(m.remoteEnv, c.remoteEnv, Map(layers, (l: Layer) => l.remoteEnv), resolve)
  {
    var ls := M.SubLayers(resolve, layers);
    FilledIs(resolve);
    MapMeets(c.containerEnv, Map(layers, (l: Layer) => l.containerEnv), Map(ls, M.ContainerEnvOf), resolve);
    MapMeets(c.remoteEnv, Map(layers, (l: Layer) => l.remoteEnv), Map(ls, M.RemoteEnvOf), resolve);
  }

  function FilledAll(resolve: string -> string, ss: seq<string>): seq<string> {
    seq(|ss|, i requires 0 <= i < |ss| => Filled(resolve, ss[i]))
  }

  function FilledMounts(resolve: string -> string, ms: seq<Mount>): seq<Mount> {
    seq(|ms|, i requires 0 <= i < |ms| => FilledMount(resolve, ms[i]))
  }

  lemma FilledAllIs(resolve: string -> string, ss: seq<string>)
    ensures M.SubAll(resolve, ss) == FilledAll(resolve, ss)
  {
    FilledIs(resolve);
  }

  lemma FilledMountsIs(resolve: string -> string, ms: seq<Mount>)
    ensures Map(ms, m => M.SubMount(resolve, m)) == FilledMounts(resolve, ms)
  {
    forall k | 0 <= k < |ms| ensures M.SubMount(resolve, ms[k]) == FilledMount(resolve, ms[k]) { FilledMountIs(resolve, ms[k]); }
  }

  /** A union over the column of lists the accessor reads. */
  lemma UnionMerged(ls: seq<Layer>, get: Layer -> seq<string>, user: seq<string>, column: seq<seq<string>>)
    requires |column| == |ls| && forall i :: 0 <= i < |ls| ==> get(ls[i]) == column[i]
    ensures UnionIs(M.MergedSet(ls, get, user), Chained(column, user))
  {
    assert Map(ls, get) == column;
    ChainedIsFlat(column, user);
    UnionMeets(Chained(column, user));
  }

  lemma CapAddMerged(c: Values, resolve: string -> string, layers: seq<Layer>, m: Values)
    requires layers != [] && m == M.Merged(c, resolve, layers)
    ensures UnionIs(m.capAdd, Chained(Map(layers, (l: Layer) => FilledAll(resolve, l.capAdd)), c.capAdd))
  {
    forall i | 0 <= i < |layers| ensures M.SubAll(resolve, layers[i].capAdd) == FilledAll(resolve, layers[i].capAdd) { FilledAllIs(resolve, layers[i].capAdd); }
    UnionMerged(M.SubLayers(resolve, layers), M.CapAddOf, c.capAdd, Map(layers, (l: Layer) => FilledAll(resolve, l.capAdd)));
  }

  lemma SecurityOptMerged(c: Values, resolve: string -> string, layers: seq<Layer>, m: Values)
    requires layers != [] && m == M.Merged(c, resolve, layers)
    ensures UnionIs(m.securityOpt, Chained(Map(layers, (l: Layer) => FilledAll(resolve, l.securityOpt)), c.securityOpt))
  {
    forall i | 0 <= i < |layers| ensures M.SubAll(resolve, layers[i].securityOpt) == FilledAll(resolve, layers[i].securityOpt) {
      FilledAllIs(resolve, layers[i].securityOpt);
    }
    UnionMerged(M.SubLayers(resolve, layers), M.SecurityOptOf, c.securityOpt, Map(layers, (l: Layer) => FilledAll(resolve, l.securityOpt)));
  }

  lemma MountsMergedFrom(ls: seq<Layer>, user: seq<Mount>, column: seq<seq<Mount>>)
    requires |column| == |ls| && forall i :: 0 <= i < |ls| ==> ls[i].mounts == column[i]
    ensures MountsAre(M.MergedMounts(ls, user), Chained(column, user))
  {
    assert Map(ls, M.MountsOf) == column;
    ChainedIsFlat(column, user);
    MountsMeet(Chained(column, user));
  }

  lemma MountsMerged(c: Values, resolve: string -> string, layers: seq<Layer>, m: Values)
    requires layers != [] && m == M.Merged(c, resolve, layers)
    ensures MountsAre(m.mounts, Chained(Map(layers, (l: Layer) => FilledMounts(resolve, l.mounts)), c.mounts))
  {
    var ls := M.SubLayers(resolve, layers);
    var column := Map(layers, (l: Layer) => FilledMounts(resolve, l.mounts));
    forall i | 0 <= i < |layers| ensures ls[i].mounts == column[i] { FilledMountsIs(resolve, layers[i].mounts); }
    MountsMergedFrom(ls, c.mounts, column);
  }

  lemma EntrypointsMerged(c: Values, resolve: string -> string, layers: seq<Layer>, m: Values)
    requires layers != [] && m == M.Merged(c, resolve, layers)
    ensures NonEmptyTexts(m.entrypoints, Map(layers, (l: Layer) => Filled(resolve, l.entrypoint)))
  {
    FilledIs(resolve);
    var column := Map(layers, (l: Layer) => Filled(resolve, l.entrypoint));
    assert Map(M.SubLayers(resolve, layers), M.EntrypointOf) == column;
    var at := TextsMeet(column);
  }

  /** The hooks of one phase, given where the layers keep them. */
  lemma HooksMerged(layers: seq<Layer>, resolve: string -> string, phase: Phase, user: seq<Hook>, column: seq<Hook>)
    requires |column| == |layers| && forall i :: 0 <= i < |layers| ==> column[i] == FilledHook(resolve, At(layers[i].hooks, phase))
    ensures HooksAre(M.Hooked(M.SubLayers(resolve, layers), phase, user), user, column)
  {
    var ls := M.SubLayers(resolve, layers);
    forall i | 0 <= i < |layers| ensures Map(ls, M.HookOf(phase))[i] == column[i] { FilledHookIs(resolve, At(layers[i].hooks, phase)); }
    assert Map(ls, M.HookOf(phase)) == column;
    var at := HooksMeet(column);
  }

  function OnCreates(resolve: string -> string, layers: seq<Layer>): seq<Hook> {
    Map(layers, (l: Layer) => FilledHook(resolve, l.hooks.onCreate))
  }

  function UpdateContents(resolve: string -> string, layers: seq<Layer>): seq<Hook> {
    Map(layers, (l: Layer) => FilledHook(resolve, l.hooks.updateContent))
  }

  function PostCreates(resolve: string -> string, layers: seq<Layer>): seq<Hook> {
    Map(layers, (l: Layer) => FilledHook(resolve, l.hooks.postCreate))
  }

  function PostStarts(resolve: string -> string, layers: seq<Layer>): seq<Hook> {
    Map(layers, (l: Layer) => FilledHook(resolve, l.hooks.postStart))
  }

  function PostAttachs(resolve: string -> string, layers: seq<Layer>): seq<Hook> {
    Map(layers, (l: Layer) => FilledHook(resolve, l.hooks.postAttach))
  }

  lemma OnCreateMerged(resolve: string -> string, layers: seq<Layer>, user: seq<Hook>)
    ensures HooksAre(M.Hooked(M.SubLayers(resolve, layers), OnCreate, user), user, OnCreates(resolve, layers))
  {
    HooksMerged(layers, resolve, OnCreate, user, OnCreates(resolve, layers));
  }

  lemma UpdateContentMerged(resolve: string -> string, layers: seq<Layer>, user: seq<Hook>)
    ensures HooksAre(M.Hooked(M.SubLayers(resolve, layers), UpdateContent, user), user, UpdateContents(resolve, layers))
  {
    HooksMerged(layers, resolve, UpdateContent, user, UpdateContents(resolve, layers));
  }

  lemma PostCreateMerged(resolve: string -> string, layers: seq<Layer>, user: seq<Hook>)
    ensures HooksAre(M.Hooked(M.SubLayers(resolve, layers), PostCreate, user), user, PostCreates(resolve, layers))
  {
    HooksMerged(layers, resolve, PostCreate, user, PostCreates(resolve, layers));
  }

  lemma PostStartMerged(resolve: string -> string, layers: seq<Layer>, user: seq<Hook>)
    ensures HooksAre(M.Hooked(M.SubLayers(resolve, layers), PostStart, user), user, PostStarts(resolve, layers))
  {
    HooksMerged(layers, resolve, PostStart, user, PostStarts(resolve, layers));
  }

  lemma PostAttachMerged(resolve: string -> string, layers: seq<Layer>, user: seq<Hook>)
    ensures HooksAre(M.Hooked(M.SubLayers(resolve, layers), PostAttach, user), user, PostAttachs(resolve, layers))
  {
    HooksMerged(layers, resolve, PostAttach, user, PostAttachs(resolve, layers));
  }

  lemma LifecycleMerged(c: Values, resolve: string -> string, layers: seq<Layer>, m: Values)
    requires layers != [] && m == M.Merged(c, resolve, layers)
    ensures
      && HooksAre(m.lifecycle.onCreate, c.lifecycle.onCreate, OnCreates(resolve, layers))
      && HooksAre(m.lifecycle.updateContent, c.lifecycle.updateContent, UpdateContents(resolve, layers))
      && HooksAre(m.lifecycle.postCreate, c.lifecycle.postCreate, PostCreates(resolve, layers))
      && HooksAre(m.lifecycle.postStart, c.lifecycle.postStart, PostStarts(resolve, layers))
      && HooksAre(m.lifecycle.postAttach, c.lifecycle.postAttach, PostAttachs(resolve, layers))
  {
    OnCreateMerged(resolve, layers, c.lifecycle.onCreate);
    UpdateContentMerged(resolve, layers, c.lifecycle.updateContent);
    PostCreateMerged(resolve, layers, c.lifecycle.postCreate);
    PostStartMerged(resolve, layers, c.lifecycle.postStart);
    PostAttachMerged(resolve, layers, c.lifecycle.postAttach);
  }

  /** What a merge of these layers into c leaves in every field. */
  ghost predicate FieldsAre(c: Values, resolve: string -> string, layers: seq<Layer>, m: Values) {
    && TextIs(m.remoteUser, c.remoteUser, Map(layers, (l: Layer) => Filled(resolve, l.remoteUser)))
    && TextIs(m.containerUser, c.containerUser, Map(layers, (l: Layer) => Filled(resolve, l.containerUser)))
    && TextIs(m.userEnvProbe, c.userEnvProbe, Map(layers, (l: Layer) => l.userEnvProbe))
    && TextIs(m.waitFor, c.waitFor, Map(layers, (l: Layer) => l.waitFor))
    && TextIs(m.shutdownAction, c.shutdownAction, Map(layers, (l: Layer) => l.shutdownAction))
    && OptionIs(m.updateRemoteUserUID, c.updateRemoteUserUID, Map(layers, (l: Layer) => l.updateRemoteUserUID))
    && OptionIs(m.init, c.init, Map(layers, (l: Layer) => l.init))
    && OptionIs(m.privileged, c.privileged, Map(layers, (l: Layer) => l.privileged))
    && OptionIs(m.overrideCommand, c.overrideCommand, Map(layers, (l: Layer) => l.overrideCommand))
    && OptionIs(m.hostRequirements, c.hostRequirements, Map(layers, (l: Layer) => l.hostRequirements))
    && MapIs(m.containerEnv, c.containerEnv, Map(layers, (l: Layer) => l.containerEnv), resolve)
    && MapIs(m.remoteEnv, c.remoteEnv, Map(layers, (l: Layer) => l.remoteEnv), resolve)
    && MountsAre(m.mounts, Chained(Map(layers, (l: Layer) => FilledMounts(resolve, l.mounts)), c.mounts))
    && UnionIs(m.capAdd, Chained(Map(layers, (l: Layer) => FilledAll(resolve, l.capAdd)), c.capAdd))
    && UnionIs(m.securityOpt, Chained(Map(layers, (l: Layer) => FilledAll(resolve, l.securityOpt)), c.securityOpt))
    && NonEmptyTexts(m.entrypoints, Map(layers, (l: Layer) => Filled(resolve, l.entrypoint)))
    && HooksAre(m.lifecycle.onCreate, c.lifecycle.onCreate, OnCreates(resolve, layers))
    && HooksAre(m.lifecycle.updateContent, c.lifecycle.updateContent, UpdateContents(resolve, layers))
    && HooksAre(m.lifecycle.postCreate, c.lifecycle.postCreate, PostCreates(resolve, layers))
    && HooksAre(m.lifecycle.postStart, c.lifecycle.postStart, PostStarts(resolve, layers))
    && HooksAre(m.lifecycle.postAttach, c.lifecycle.postAttach, PostAttachs(resolve, layers))
  }

  /** A merge leaves in every field what its layers' own fields of that name call for, and without layers leaves the configuration alone. */
  lemma MergedFields(c: Values, resolve: string -> string, layers: seq<Layer>)
    ensures if layers == [] then M.Merged(c, resolve, layers) == c else FieldsAre(c, resolve, layers, M.Merged(c, resolve, layers))
  {
    if layers != [] {
      var m := M.Merged(c, resolve, layers);
      TextsMerged(c, resolve, layers, m);
      OptionsMerged(c, resolve, layers, m);
      MapsMerged(c, resolve, layers, m);
      CapAddMerged(c, resolve, layers, m);
      SecurityOptMerged(c, resolve, layers, m);
      MountsMerged(c, resolve, layers, m);
      EntrypointsMerged(c, resolve, layers, m);
      LifecycleMerged(c, resolve, layers, m);
    }
  }

  lemma HooksLeft(out: seq<Hook>, user: seq<Hook>, column: seq<Hook>)
    requires HooksAre(out, user, column)
    ensures |out| > 0 <==> |user| > 0 || exists i :: 0 <= i < |column| && RunsSomething(column[i])
  {
    var at: seq<nat>, ours: seq<Hook> :| Picks(column, at, ours) && out == ours + user &&
      forall i: nat :: i < |column| ==> (i in at <==> RunsSomething(column[i]));
    if |ours| > 0 { assert at[0] in at && RunsSomething(column[at[0]]); }
    if i :| 0 <= i < |column| && RunsSomething(column[i]) { assert i in at; }
  }

  lemma FilledRuns(resolve: string -> string, h: Hook)
    ensures RunsSomething(FilledHook(resolve, h)) <==> RunsSomething(h)
  {
    var f := FilledHook(resolve, h);
    assert f.parallel.Keys == h.parallel.Keys;
    if h.parallel != map[] { var k :| k in h.parallel; assert k in f.parallel; }
    if f.parallel != map[] { var k :| k in f.parallel; assert k in h.parallel; }
  }

  /** The text the user or a layer sets, else the default. */
  ghost predicate DefaultedText(out: string, user: string, column: seq<string>, default: string) {
    if user == "" && forall i :: 0 <= i < |column| ==> column[i] == "" then out == default else TextIs(out, user, column)
  }

  ghost predicate DefaultedOption<T>(out: Option<T>, user: Option<T>, column: seq<Option<T>>, default: T) {
    if user.None? && forall i :: 0 <= i < |column| ==> column[i].None? then out == Some(default) else OptionIs(out, user, column)
  }

  lemma DefaultText(m: string, user: string, column: seq<string>, default: string)
    requires TextIs(m, user, column)
    ensures DefaultedText(if m != "" then m else default, user, column, default)
  {}

  lemma DefaultOption<T>(m: Option<T>, user: Option<T>, column: seq<Option<T>>, default: T)
    requires OptionIs(m, user, column)
    ensures DefaultedOption(if m.Some? then m else Some(default), user, column, default)
  {}

  /** The merged fields that have defaults. */
  lemma BeforeDefaults(c: Values, resolve: string -> string, layers: seq<Layer>, m: Values)
    requires m == M.Merged(c, resolve, layers)
    ensures OptionIs(m.overrideCommand, c.overrideCommand, Map(layers, (l: Layer) => l.overrideCommand))
    ensures TextIs(m.userEnvProbe, c.userEnvProbe, Map(layers, (l: Layer) => l.userEnvProbe))
    ensures TextIs(m.waitFor, c.waitFor, Map(layers, (l: Layer) => l.waitFor))
  {
    if layers != [] {
      OptionsMerged(c, resolve, layers, m);
      TextsMerged(c, resolve, layers, m);
    }
  }

  /**
    What nothing set gets its default at the end: overrideCommand is true, the
    probe is a login interactive shell, and Up waits for updateContent when the
    user or some layer gives that phase something to run, else for postCreate.
   */
  lemma DefaultsLast(c: Values, resolve: string -> string, layers: seq<Layer>)
    ensures var e := M.Finalized(M.Merged(c, resolve, layers));
      && DefaultedOption(e.overrideCommand, c.overrideCommand, Map(layers, (l: Layer) => l.overrideCommand), true)
      && DefaultedText(e.userEnvProbe, c.userEnvProbe, Map(layers, (l: Layer) => l.userEnvProbe), "loginInteractiveShell")
      && DefaultedText(e.waitFor, c.waitFor, Map(layers, (l: Layer) => l.waitFor),
           if |c.lifecycle.updateContent| > 0 || (exists l :: l in layers && RunsSomething(l.hooks.updateContent)) then "updateContent" else "postCreate")
  {
    var m := M.Merged(c, resolve, layers);
    BeforeDefaults(c, resolve, layers, m);
    LateLeft(c, resolve, layers, m);
    FinalOverride(m, c.overrideCommand, Map(layers, (l: Layer) => l.overrideCommand));
    FinalProbe(m, c.userEnvProbe, Map(layers, (l: Layer) => l.userEnvProbe));
    FinalWait(m, c.waitFor, Map(layers, (l: Layer) => l.waitFor));
  }

  lemma FinalOverride(m: Values, user: Option<bool>, column: seq<Option<bool>>)
    requires OptionIs(m.overrideCommand, user, column)
    ensures DefaultedOption(M.Finalized(m).overrideCommand, user, column, true)
  {
    DefaultOption(m.overrideCommand, user, column, true);
  }

  lemma FinalProbe(m: Values, user: string, column: seq<string>)
    requires TextIs(m.userEnvProbe, user, column)
    ensures DefaultedText(M.Finalized(m).userEnvProbe, user, column, "loginInteractiveShell")
  {
    DefaultText(m.userEnvProbe, user, column, "loginInteractiveShell");
  }

  lemma FinalWait(m: Values, user: string, column: seq<string>)
    requires TextIs(m.waitFor, user, column)
    ensures DefaultedText(M.Finalized(m).waitFor, user, column, if |m.lifecycle.updateContent| > 0 then "updateContent" else "postCreate")
  {
    DefaultText(m.waitFor, user, column, if |m.lifecycle.updateContent| > 0 then "updateContent" else "postCreate");
  }

  lemma LateLeft(c: Values, resolve: string -> string, layers: seq<Layer>, m: Values)
    requires m == M.Merged(c, resolve, layers)
    ensures |m.lifecycle.updateContent| > 0 <==> |c.lifecycle.updateContent| > 0 || exists l :: l in layers && RunsSomething(l.hooks.updateContent)
  {
    if layers != [] {
      LifecycleMerged(c, resolve, layers, m);
      UpdateContentLeft(c, resolve, layers, m);
    }
  }

  lemma UpdateContentLeft(c: Values, resolve: string -> string, layers: seq<Layer>, m: Values)
    requires HooksAre(m.lifecycle.updateContent, c.lifecycle.updateContent, UpdateContents(resolve, layers))
    ensures |m.lifecycle.updateContent| > 0 <==> |c.lifecycle.updateContent| > 0 || exists l :: l in layers && RunsSomething(l.hooks.updateContent)
  {
    var column := UpdateContents(resolve, layers);
    HooksLeft(m.lifecycle.updateContent, c.lifecycle.updateContent, column);
    forall i | 0 <= i < |layers| ensures RunsSomething(column[i]) <==> RunsSomething(layers[i].hooks.updateContent) {
      FilledRuns(resolve, layers[i].hooks.updateContent);
    }
    if l :| l in layers && RunsSomething(l.hooks.updateContent) {
      var i :| 0 <= i < |layers| && layers[i] == l;
      assert RunsSomething(column[i]);
    }
  }
}
