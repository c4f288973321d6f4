/**
  Laws of the metadata merge: layers may be merged in one go or chain by chain,
  and when merging them again changes nothing. (config/merge_metadata.go:3-114)
 */
module MergeLaws {
  import opened Prelude
  import opened MergeLists
  import opened Metadata
  import opened MountLists
  import opened HookLists
  import opened MetadataMerge

  // ---- one chain or two ----

  lemma TextChain(a: seq<Layer>, b: seq<Layer>, get: Layer -> string, user: string)
    ensures MergedText(a + b, get, user) == MergedText(a, get, MergedText(b, get, user))
  {
    MapConcat(a, b, get);
    LastTextConcat(Map(a, get), Map(b, get));
  }

  lemma OptionChain<T>(a: seq<Layer>, b: seq<Layer>, get: Layer -> Option<T>, user: Option<T>)
    ensures MergedOption(a + b, get, user) == MergedOption(a, get, MergedOption(b, get, user))
  {
    MapConcat(a, b, get);
    LastSomeConcat(Map(a, get), Map(b, get));
  }

  lemma MapChain(a: seq<Layer>, b: seq<Layer>, get: Layer -> map<string, string>, user: map<string, string>)
    ensures MergedMap(a + b, get, user) == MergedMap(a, get, MergedMap(b, get, user))
  {
    MapConcat(a, b, get);
    OverlayConcat(Map(a, get), Map(b, get));
    OverlayAssociates(Overlay(Map(a, get)), Overlay(Map(b, get)), user);
  }

  lemma SetChain(a: seq<Layer>, b: seq<Layer>, get: Layer -> seq<string>, user: seq<string>)
    ensures MergedSet(a + b, get, user) == MergedSet(a, get, MergedSet(b, get, user))
  {
    MapConcat(a, b, get);
    FlatConcat(Map(a, get), Map(b, get));
    DedupConcat(Flat(Map(a, get)), Flat(Map(b, get)) + user);
    assert Flat(Map(a, get)) + Flat(Map(b, get)) + user == Flat(Map(a, get)) + (Flat(Map(b, get)) + user);
  }

  lemma MountsChain(a: seq<Layer>, b: seq<Layer>, user: seq<Mount>)
    ensures MergedMounts(a + b, user) == MergedMounts(a, MergedMounts(b, user))
  {
    MapConcat(a, b, MountsOf);
    FlatConcat(Map(a, MountsOf), Map(b, MountsOf));
    MountsConcat(Flat(Map(a, MountsOf)), Flat(Map(b, MountsOf)) + user);
    assert Flat(Map(a, MountsOf)) + Flat(Map(b, MountsOf)) + user == Flat(Map(a, MountsOf)) + (Flat(Map(b, MountsOf)) + user);
  }

  lemma HookChain(a: seq<Layer>, b: seq<Layer>, phase: Phase, user: seq<Hook>)
    ensures Hooked(a + b, phase, user) == Hooked(a, phase, Hooked(b, phase, user))
  {
    MapConcat(a, b, HookOf(phase));
    ConfiguredInSteps(Map(a, HookOf(phase)), Map(b, HookOf(phase)), user);
  }

  lemma ConfiguredInSteps(a: seq<Hook>, b: seq<Hook>, user: seq<Hook>)
    ensures Configured(a + b) + user == Configured(a) + (Configured(b) + user)
  {
    ConfiguredConcat(a, b);
  }

  lemma HooksChain(a: seq<Layer>, b: seq<Layer>, user: PerPhase<seq<Hook>>)
    ensures MergedHooks(a + b, user) == MergedHooks(a, MergedHooks(b, user))
  {
    HookChain(a, b, OnCreate, user.onCreate);
    HookChain(a, b, UpdateContent, user.updateContent);
    HookChain(a, b, PostCreate, user.postCreate);
    HookChain(a, b, PostStart, user.postStart);
    HookChain(a, b, PostAttach, user.postAttach);
  }

  lemma {:induction false} EntrypointsConcat(a: seq<string>, b: seq<string>)
    ensures Entrypoints(a + b) == Entrypoints(a) + Entrypoints(b)
  {
    if b == [] { assert a + b == a; }
    else {
      assert (a + b)[..|a + b| - 1] == a + b[..|b| - 1];
      EntrypointsConcat(a, b[..|b| - 1]);
    }
  }

  lemma TextsChain(a: seq<Layer>, b: seq<Layer>, c: Values)
    ensures var w, s := Folded(c, a + b), Folded(Folded(c, b), a);
      w.remoteUser == s.remoteUser && w.containerUser == s.containerUser && w.userEnvProbe == s.userEnvProbe && w.waitFor == s.waitFor && w.shutdownAction == s.shutdownAction
  {
    TextChain(a, b, RemoteUserOf, c.remoteUser);
    TextChain(a, b, ContainerUserOf, c.containerUser);
    TextChain(a, b, UserEnvProbeOf, c.userEnvProbe);
    TextChain(a, b, WaitForOf, c.waitFor);
    TextChain(a, b, ShutdownActionOf, c.shutdownAction);
  }

  lemma OptionsChain(a: seq<Layer>, b: seq<Layer>, c: Values)
    ensures var w, s := Folded(c, a + b), Folded(Folded(c, b), a);
      w.updateRemoteUserUID == s.updateRemoteUserUID && w.init == s.init && w.privileged == s.privileged && w.overrideCommand == s.overrideCommand && w.hostRequirements == s.hostRequirements
  {
    OptionChain(a, b, UpdateRemoteUserUIDOf, c.updateRemoteUserUID);
    OptionChain(a, b, InitOf, c.init);
    OptionChain(a, b, PrivilegedOf, c.privileged);
    OptionChain(a, b, OverrideCommandOf, c.overrideCommand);
    OptionChain(a, b, HostRequirementsOf, c.hostRequirements);
  }

  lemma CollectionsChain(a: seq<Layer>, b: seq<Layer>, c: Values)
    ensures var w, s := Folded(c, a + b), Folded(Folded(c, b), a);
      w.containerEnv == s.containerEnv && w.remoteEnv == s.remoteEnv && w.capAdd == s.capAdd && w.securityOpt == s.securityOpt && w.mounts == s.mounts && w.lifecycle == s.lifecycle
  {
    MapChain(a, b, ContainerEnvOf, c.containerEnv);
    MapChain(a, b, RemoteEnvOf, c.remoteEnv);
    SetChain(a, b, CapAddOf, c.capAdd);
    SetChain(a, b, SecurityOptOf, c.securityOpt);
    MountsChain(a, b, c.mounts);
    HooksChain(a, b, c.lifecycle);
  }

  /** Equal but for the entrypoints. */
  ghost predicate SameButEntrypoints(x: Values, y: Values) {
    x == y.(entrypoints := x.entrypoints)
  }

  lemma FoldedChain(a: seq<Layer>, b: seq<Layer>, c: Values)
    ensures SameButEntrypoints(Folded(c, a + b), Folded(Folded(c, b), a))
  {
    TextsChain(a, b, c);
    OptionsChain(a, b, c);
    CollectionsChain(a, b, c);
  }

  /** The entrypoints a chain of layers declares once its variables are resolved. */
  function DeclaredEntrypoints(resolve: string -> string, layers: seq<Layer>): seq<string> {
    Entrypoints(Map(SubLayers(resolve, layers), EntrypointOf))
  }

  /**
    Merging a chain at once is merging its tail and then its head, in every
    field but the entrypoints; those agree exactly when the tail declares none
    or there is no head.
   */
  lemma MergeInSteps(c: Values, resolve: string -> string, a: seq<Layer>, b: seq<Layer>)
    ensures var whole, steps := Merged(c, resolve, a + b), Merged(Merged(c, resolve, b), resolve, a);
      && SameButEntrypoints(whole, steps)
      && (whole.entrypoints == steps.entrypoints <==> a == [] || DeclaredEntrypoints(resolve, b) == [])
  {
    var sa, sb := SubLayers(resolve, a), SubLayers(resolve, b);
    assert SubLayers(resolve, a + b) == sa + sb;
    if a == [] {
      assert a + b == b;
    } else if b == [] {
      assert a + b == a;
    } else {
      FoldedChain(sa, sb, c);
      MapConcat(sa, sb, EntrypointOf);
      EntrypointsConcat(Map(sa, EntrypointOf), Map(sb, EntrypointOf));
    }
  }

  // ---- merging again ----

  /** Some layer declares a hook. */
  ghost predicate DeclaresHook(layers: seq<Layer>, phase: Phase) {
    exists i :: 0 <= i < |layers| && !At(layers[i].hooks, phase).IsEmpty()
  }

  lemma {:induction false} ConfiguredNone(hs: seq<Hook>)
    ensures Configured(hs) == [] <==> forall i :: 0 <= i < |hs| ==> hs[i].IsEmpty()
  {
    if hs != [] {
      var n := |hs| - 1;
      ConfiguredNone(hs[..n]);
      assert forall i :: 0 <= i < n ==> hs[..n][i] == hs[i];
      if forall i :: 0 <= i < |hs| ==> hs[i].IsEmpty() {
        forall i | 0 <= i < n ensures hs[..n][i].IsEmpty() {}
      }
    }
  }

  lemma SubHookEmpty(resolve: string -> string, h: Hook)
    ensures SubHook(resolve, h).IsEmpty() <==> h.IsEmpty()
  {
    var p := SubHook(resolve, h).parallel;
    assert p.Keys == h.parallel.Keys;
    assert h.parallel == map[] <==> h.parallel.Keys == {};
    assert p == map[] <==> p.Keys == {};
  }

  lemma HooksTwice(resolve: string -> string, layers: seq<Layer>, phase: Phase, user: seq<Hook>)
    ensures var ls := SubLayers(resolve, layers);
      Hooked(ls, phase, Hooked(ls, phase, user)) == Hooked(ls, phase, user) <==> !DeclaresHook(layers, phase)
  {
    var ls := SubLayers(resolve, layers);
    var hs := Map(ls, HookOf(phase));
    ConfiguredNone(hs);
    forall i | 0 <= i < |layers| ensures hs[i].IsEmpty() <==> At(layers[i].hooks, phase).IsEmpty() {
      SubHookEmpty(resolve, At(layers[i].hooks, phase));
    }
    var h := Configured(hs);
    if h != [] { assert |h + (h + user)| != |h + user|; } else { assert h + (h + user) == h + user; }
  }

  lemma TextTwice(ls: seq<Layer>, get: Layer -> string, user: string)
    ensures MergedText(ls, get, MergedText(ls, get, user)) == MergedText(ls, get, user)
  {}

  lemma SetTwice(ls: seq<Layer>, get: Layer -> seq<string>, user: seq<string>)
    ensures MergedSet(ls, get, MergedSet(ls, get, user)) == MergedSet(ls, get, user)
  {
    DedupTwice(Flat(Map(ls, get)), user);
  }

  lemma MapTwice(ls: seq<Layer>, get: Layer -> map<string, string>, user: map<string, string>)
    ensures MergedMap(ls, get, MergedMap(ls, get, user)) == MergedMap(ls, get, user)
  {}

  /** Equal but for mounts and hooks. */
  ghost predicate SameButMountsAndHooks(x: Values, y: Values) {
    x == y.(mounts := x.mounts, lifecycle := x.lifecycle)
  }

  lemma FoldedTwice(c: Values, ls: seq<Layer>)
    ensures SameButMountsAndHooks(Folded(Folded(c, ls), ls), Folded(c, ls))
  {
    SetTwice(ls, CapAddOf, c.capAdd);
    SetTwice(ls, SecurityOptOf, c.securityOpt);
    MapTwice(ls, ContainerEnvOf, c.containerEnv);
    MapTwice(ls, RemoteEnvOf, c.remoteEnv);
    TextTwice(ls, RemoteUserOf, c.remoteUser);
    TextTwice(ls, ContainerUserOf, c.containerUser);
    TextTwice(ls, UserEnvProbeOf, c.userEnvProbe);
    TextTwice(ls, WaitForOf, c.waitFor);
    TextTwice(ls, ShutdownActionOf, c.shutdownAction);
  }

  /** Every mount the layers add has a target once variables are resolved. */
  ghost predicate MountsTargeted(resolve: string -> string, layers: seq<Layer>) {
    AllTargeted(Flat(Map(SubLayers(resolve, layers), MountsOf)))
  }

  ghost predicate NoneDeclaresHook(layers: seq<Layer>) {
    forall phase :: !DeclaresHook(layers, phase)
  }

  lemma PhaseMerged(ls: seq<Layer>, user: PerPhase<seq<Hook>>, phase: Phase)
    ensures At(MergedHooks(ls, user), phase) == Hooked(ls, phase, At(user, phase))
  {}

  lemma PhaseTwice(resolve: string -> string, layers: seq<Layer>, user: PerPhase<seq<Hook>>, phase: Phase)
    ensures var ls := SubLayers(resolve, layers);
      At(MergedHooks(ls, MergedHooks(ls, user)), phase) == At(MergedHooks(ls, user), phase) <==> !DeclaresHook(layers, phase)
  {
    var ls := SubLayers(resolve, layers);
    PhaseMerged(ls, user, phase);
    PhaseMerged(ls, MergedHooks(ls, user), phase);
    HooksTwice(resolve, layers, phase, At(user, phase));
  }

  lemma SamePhases<T>(p: PerPhase<T>, q: PerPhase<T>)
    ensures p == q <==> forall phase :: At(p, phase) == At(q, phase)
  {
    if forall phase :: At(p, phase) == At(q, phase) { PhasesEqual(p, q); }
  }

  lemma AllHooksTwice(resolve: string -> string, layers: seq<Layer>, user: PerPhase<seq<Hook>>)
    ensures var ls := SubLayers(resolve, layers);
      MergedHooks(ls, MergedHooks(ls, user)) == MergedHooks(ls, user) <==> NoneDeclaresHook(layers)
  {
    var once := MergedHooks(SubLayers(resolve, layers), user);
    var twice := MergedHooks(SubLayers(resolve, layers), once);
    SamePhases(twice, once);
    forall phase ensures At(twice, phase) == At(once, phase) <==> !DeclaresHook(layers, phase) { PhaseTwice(resolve, layers, user, phase); }
  }

  /** Merging the same layers twice is merging them once, except that hooks and mounts without a target are added again. */
  lemma MergeTwice(c: Values, resolve: string -> string, layers: seq<Layer>)
    ensures var once := Merged(c, resolve, layers);
      var twice := Merged(once, resolve, layers);
      && SameButMountsAndHooks(twice, once)
      && (twice == once <==> layers == [] || (MountsTargeted(resolve, layers) && NoneDeclaresHook(layers)))
  {
    if layers != [] {
      var ls := SubLayers(resolve, layers);
      FoldedTwice(c, ls);
      MountsTwice(Flat(Map(ls, MountsOf)), c.mounts);
      AllHooksTwice(resolve, layers, c.lifecycle);
    }
  }

  /** A layer with one hook: merged twice, the hook runs twice. */
  lemma HookAddedAgain(c: Values, resolve: string -> string)
    requires c.lifecycle.onCreate == []
    ensures var layer := EmptyLayer.(hooks := NoHooks.(onCreate := Hook(Some(Command("setup", [])), map[])));
      |Merged(Merged(c, resolve, [layer]), resolve, [layer]).lifecycle.onCreate| == 2
  {
    var layer := EmptyLayer.(hooks := NoHooks.(onCreate := Hook(Some(Command("setup", [])), map[])));
    var hs := Map(SubLayers(resolve, [layer]), HookOf(OnCreate));
    assert hs[..0] == [] && |hs| == 1;
    assert |Configured(hs)| == 1;
  }
}
