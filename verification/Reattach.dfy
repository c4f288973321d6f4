/**
  Rebuilding the merged configuration from the label a build wrote, against
  the full fetch-and-build path. (feature/metadata.go:63-113, 200-240,
  up.go:1571-1600, up_compose_reattach.go:366-385)
 */
module Reattach {
  import opened Prelude
  import opened MergeLists
  import opened Metadata
  import opened MountLists
  import opened HookLists
  import opened MetadataMerge
  import opened MergeLaws
  import opened MetadataLabel

  // ---- the label of a build ----

  /** A feature of a build plan: the base image has it, or this build installs it. */
  datatype Planned = Planned(alreadyInstalled: bool, resolvedRef: string, metadata: Layer)

  /** The layers this build installs, in order. */
  function Installed(fs: seq<Planned>): seq<Layer> {
    if fs == [] then []
    else Installed(fs[..|fs| - 1]) + if fs[|fs| - 1].alreadyInstalled then [] else [fs[|fs| - 1].metadata]
  }

  /** The label's record of an installed feature: its pin, and its dependencies even when there are none. */
  function Stamp(f: Planned): Layer {
    f.metadata.(resolvedRef := f.resolvedRef, dependsOn := if f.metadata.dependsOn.None? then Some(map[]) else f.metadata.dependsOn)
  }

  function Stamped(fs: seq<Planned>): seq<Layer> {
    if fs == [] then []
    else Stamped(fs[..|fs| - 1]) + if fs[|fs| - 1].alreadyInstalled then [] else [Stamp(fs[|fs| - 1])]
  }

  /** The trailing entry: the users the configuration asked for. */
  function Trailer(c: Values): Layer {
    EmptyLayer.(remoteUser := c.remoteUser, containerUser := c.containerUser)
  }

  const Encode: Layer -> Entry := (l: Layer) => EncodeEntry(l)

  const Normalize: Layer -> Layer := (l: Layer) => NormalLayer(l)

  function Label(c: Values, base: seq<Layer>, fs: seq<Planned>): seq<Entry> {
    Map(base + Stamped(fs) + [Trailer(c)], Encode)
  }

  /** buildMetadataLabel. */
  method BuildLabel(c: Values, base: seq<Layer>, fs: seq<Planned>) returns (entries: seq<Entry>)
    ensures entries == Label(c, base, fs)
  {
    entries := [];
    for i := 0 to |base|
      invariant entries == Map(base[..i], Encode)
    {
      entries := entries + [EncodeEntry(base[i])];
    }
    for i := 0 to |fs|
      invariant entries == Map(base + Stamped(fs[..i]), Encode)
    {
      assert fs[..i + 1][..i] == fs[..i];
      if fs[i].alreadyInstalled { continue; }
      entries := entries + [EncodeEntry(Stamp(fs[i]))];
    }
    assert fs[..|fs|] == fs;
    entries := entries + [EncodeEntry(Trailer(c))];
  }

  /** The layers of a label; None when an entry does not decode. */
  function Parsed(csv: string -> Mount, entries: seq<Entry>): Option<seq<Layer>> {
    AllOf(e => DecodeEntry(csv, e), entries)
  }

  /** Every element decoded, or none. */
  function AllOf(decode: Entry -> Option<Layer>, entries: seq<Entry>): Option<seq<Layer>> {
    if entries == [] then Some([])
    else
      var n := |entries| - 1;
      var rest, last := AllOf(decode, entries[..n]), decode(entries[n]);
      if rest.None? || last.None? then None else Some(rest.value + [last.value])
  }

  /** An image's label: none, not JSON of either form, the one object of old images, or an array of entries. */
  datatype LabelText = NoLabel | Garbled | Single(id: string, version: string, resolvedRef: string) | Array(entries: seq<Entry>)

  function ParsedLabel(csv: string -> Mount, text: LabelText): Option<seq<Layer>> {
    match text
    case NoLabel => Some([])
    case Garbled => None
    case Single(id, version, resolvedRef) => Some([EmptyLayer.(id := id, version := version, resolvedRef := resolvedRef)])
    case Array(entries) => Parsed(csv, entries)
  }

  /** ParseMetadataLabel. */
  method ParseLabel(csv: string -> Mount, text: LabelText) returns (r: Option<seq<Layer>>)
    ensures r == ParsedLabel(csv, text)
  {
    match text {
      case NoLabel => return Some([]);
      case Garbled => return None;
      case Single(id, version, resolvedRef) => return Some([EmptyLayer.(id := id, version := version, resolvedRef := resolvedRef)]);
      case Array(entries) => r := ParseEntries(csv, entries);
    }
  }

  method ParseEntries(csv: string -> Mount, entries: seq<Entry>) returns (r: Option<seq<Layer>>)
    ensures r == Parsed(csv, entries)
  {
    var out: seq<Layer> := [];
    for i := 0 to |entries|
      invariant Parsed(csv, entries[..i]) == Some(out)
    {
      assert entries[..i + 1][..i] == entries[..i];
      var l := DecodeEntry(csv, entries[i]);
      if l.None? {
        OneFails(e => DecodeEntry(csv, e), entries, i);
        return None;
      }
      out := out + [l.value];
    }
    assert entries[..|entries|] == entries;
    return Some(out);
  }

  lemma {:induction false} OneFails(decode: Entry -> Option<Layer>, entries: seq<Entry>, i: nat)
    requires i < |entries| && decode(entries[i]).None?
    ensures AllOf(decode, entries).None?
    decreases |entries|
  {
    var n := |entries| - 1;
    if i < n { OneFails(decode, entries[..n], i); }
  }

  /** A label parses exactly when each of its entries decodes. */
  lemma {:induction false} AllOfIff(decode: Entry -> Option<Layer>, entries: seq<Entry>)
    ensures AllOf(decode, entries).Some? <==> forall i :: 0 <= i < |entries| ==> decode(entries[i]).Some?
  {
    if entries != [] {
      var n := |entries| - 1;
      AllOfIff(decode, entries[..n]);
      assert forall i :: 0 <= i < n ==> entries[..n][i] == entries[i];
      if AllOf(decode, entries[..n]).None? {
        var i :| 0 <= i < n && decode(entries[..n][i]).None?;
        assert decode(entries[i]).None?;
      }
    }
  }

  /** decodeMounts, element by element. */
  method DecodeMounts(csv: string -> Mount, items: seq<Json.Json>) returns (mounts: seq<Mount>)
    ensures mounts == MountsFrom(csv, items)
  {
    mounts := [];
    for i := 0 to |items|
      invariant mounts == MountsFrom(csv, items[..i])
    {
      assert items[..i + 1][..i] == items[..i];
      var m := MountFrom(csv, items[i]);
      if m.Some? { mounts := mounts + [m.value]; }
    }
    assert items[..|items|] == items;
  }

  lemma MapSnoc<S, T>(s: seq<S>, f: S -> T)
    requires s != []
    ensures Map(s, f) == Map(s[..|s| - 1], f) + [f(s[|s| - 1])]
  {}

  lemma ParsedSnoc(csv: string -> Mount, es: seq<Entry>, e: Entry, ls: seq<Layer>, l: Layer)
    requires Parsed(csv, es) == Some(ls) && DecodeEntry(csv, e) == Some(l)
    ensures Parsed(csv, es + [e]) == Some(ls + [l])
  {
    assert (es + [e])[..|es|] == es;
  }

  lemma {:induction false} LabelBack(csv: string -> Mount, ls: seq<Layer>)
    ensures Parsed(csv, Map(ls, Encode)) == Some(Map(ls, Normalize))
  {
    if ls != [] {
      var n := |ls| - 1;
      LabelBack(csv, ls[..n]);
      assert DecodeEntry(csv, Encode(ls[n])) == Some(Normalize(ls[n])) by { EntryRoundTrip(csv, ls[n]); }
      ParsedSnoc(csv, Map(ls[..n], Encode), Encode(ls[n]), Map(ls[..n], Normalize), Normalize(ls[n]));
      MapSnoc(ls, Encode);
      MapSnoc(ls, Normalize);
    }
  }

  /** Every label a build writes parses, to the layers it was given in normal form. */
  lemma LabelParses(csv: string -> Mount, c: Values, base: seq<Layer>, fs: seq<Planned>)
    ensures Parsed(csv, Label(c, base, fs)) == Some(Map(base + Stamped(fs) + [Trailer(c)], Normalize))
  {
    LabelBack(csv, base + Stamped(fs) + [Trailer(c)]);
  }

  // ---- layers that add nothing ----

  /** What z sets, c already sets. */
  ghost predicate Inert(c: Values, z: Layer) {
    z == EmptyLayer.(remoteUser := z.remoteUser, containerUser := z.containerUser) &&
    (z.remoteUser != "" ==> c.remoteUser != "") && (z.containerUser != "" ==> c.containerUser != "")
  }

  lemma TextInert(ls: seq<Layer>, z: Layer, get: Layer -> string, user: string)
    requires get(z) != "" ==> user != ""
    ensures MergedText(ls + [z], get, user) == MergedText(ls, get, user)
  {
    assert Map(ls + [z], get)[..|ls|] == Map(ls, get);
  }

  lemma OptionInert<T>(ls: seq<Layer>, z: Layer, get: Layer -> Option<T>, user: Option<T>)
    requires get(z) == None
    ensures MergedOption(ls + [z], get, user) == MergedOption(ls, get, user)
  {
    assert Map(ls + [z], get)[..|ls|] == Map(ls, get);
  }

  lemma MapInert(ls: seq<Layer>, z: Layer, get: Layer -> map<string, string>, user: map<string, string>)
    requires get(z) == map[]
    ensures MergedMap(ls + [z], get, user) == MergedMap(ls, get, user)
  {
    var m: map<string, string> := map[];
    assert Map(ls + [z], get)[..|ls|] == Map(ls, get);
    assert Overlay(Map(ls, get)) + m == Overlay(Map(ls, get));
  }

  lemma SetInert(ls: seq<Layer>, z: Layer, get: Layer -> seq<string>, user: seq<string>)
    requires get(z) == []
    ensures MergedSet(ls + [z], get, user) == MergedSet(ls, get, user)
  {
    assert Map(ls + [z], get)[..|ls|] == Map(ls, get);
    assert Flat(Map(ls, get)) + [] == Flat(Map(ls, get));
  }

  lemma RestInert(ls: seq<Layer>, z: Layer, c: Values)
    requires z.mounts == [] && z.entrypoint == ""
    ensures MergedMounts(ls + [z], c.mounts) == MergedMounts(ls, c.mounts)
    ensures Entrypoints(Map(ls + [z], EntrypointOf)) == Entrypoints(Map(ls, EntrypointOf))
  {
    assert Map(ls + [z], MountsOf)[..|ls|] == Map(ls, MountsOf) && Map(ls + [z], MountsOf)[|ls|] == [];
    assert Flat(Map(ls + [z], MountsOf)) == Flat(Map(ls, MountsOf)) + [] == Flat(Map(ls, MountsOf));
    assert Map(ls + [z], EntrypointOf)[..|ls|] == Map(ls, EntrypointOf) && Map(ls + [z], EntrypointOf)[|ls|] == "";
    assert Entrypoints(Map(ls + [z], EntrypointOf)) == Entrypoints(Map(ls, EntrypointOf)) + [];
  }

  lemma HookInert(ls: seq<Layer>, z: Layer, phase: Phase, user: seq<Hook>)
    requires z.hooks == NoHooks
    ensures Hooked(ls + [z], phase, user) == Hooked(ls, phase, user)
  {
    assert Map(ls + [z], HookOf(phase))[..|ls|] == Map(ls, HookOf(phase));
  }

  lemma HooksInert(ls: seq<Layer>, z: Layer, user: PerPhase<seq<Hook>>)
    requires z.hooks == NoHooks
    ensures MergedHooks(ls + [z], user) == MergedHooks(ls, user)
  {
    HookInert(ls, z, OnCreate, user.onCreate);
    HookInert(ls, z, UpdateContent, user.updateContent);
    HookInert(ls, z, PostCreate, user.postCreate);
    HookInert(ls, z, PostStart, user.postStart);
    HookInert(ls, z, PostAttach, user.postAttach);
  }

  lemma FoldedInert(c: Values, ls: seq<Layer>, z: Layer)
    requires Inert(c, z)
    ensures Folded(c, ls + [z]) == Folded(c, ls)
  {
    TextInert(ls, z, RemoteUserOf, c.remoteUser);
    TextInert(ls, z, ContainerUserOf, c.containerUser);
    TextInert(ls, z, UserEnvProbeOf, c.userEnvProbe);
    TextInert(ls, z, WaitForOf, c.waitFor);
    TextInert(ls, z, ShutdownActionOf, c.shutdownAction);
    OptionInert(ls, z, UpdateRemoteUserUIDOf, c.updateRemoteUserUID);
    OptionInert(ls, z, InitOf, c.init);
    OptionInert(ls, z, PrivilegedOf, c.privileged);
    OptionInert(ls, z, OverrideCommandOf, c.overrideCommand);
    OptionInert(ls, z, HostRequirementsOf, c.hostRequirements);
    MapInert(ls, z, ContainerEnvOf, c.containerEnv);
    MapInert(ls, z, RemoteEnvOf, c.remoteEnv);
    SetInert(ls, z, CapAddOf, c.capAdd);
    SetInert(ls, z, SecurityOptOf, c.securityOpt);
    RestInert(ls, z, c);
    HooksInert(ls, z, c.lifecycle);
  }

  /** Declared features that were not fetched contribute empty layers. */
  function Blanks(n: nat): seq<Layer> { seq(n, _ => EmptyLayer) }

  /** A last layer that never matters does not matter any number of times. */
  lemma {:induction false} IgnoredRepeats<R(!new)>(fold: seq<Layer> -> R, z: Layer, ls: seq<Layer>, n: nat)
    requires forall xs :: fold(xs + [z]) == fold(xs)
    ensures fold(ls + seq(n, _ => z)) == fold(ls)
  {
    if n == 0 {
      assert ls + seq(0, _ => z) == ls;
    } else {
      IgnoredRepeats(fold, z, ls, n - 1);
      assert ls + seq(n, _ => z) == ls + seq(n - 1, _ => z) + [z];
    }
  }

  lemma FoldedBlanks(c: Values, ls: seq<Layer>, resolve: string -> string, n: nat)
    ensures Folded(c, ls + SubLayers(resolve, Blanks(n))) == Folded(c, ls)
  {
    var z := SubLayer(resolve, EmptyLayer);
    var fold := (xs: seq<Layer>) => Folded(c, xs);
    BlankSub(c, resolve);
    forall xs ensures fold(xs + [z]) == fold(xs) { FoldedInert(c, xs, z); }
    IgnoredRepeats(fold, z, ls, n);
    assert SubLayers(resolve, Blanks(n)) == seq(n, _ => z);
  }

  lemma BlankSub(c: Values, resolve: string -> string)
    ensures Inert(c, SubLayer(resolve, EmptyLayer))
  {
    NoHookSub(resolve);
    var m: map<string, string> := map[];
    assert SubMap(resolve, m) == m && SubAll(resolve, []) == [] && Map([], (m: Mount) => SubMount(resolve, m)) == [];
  }

  lemma NoHookSub(resolve: string -> string)
    ensures SubHook(resolve, NoHook) == NoHook
  {}

  /** The trailing entry repeats what the configuration already says. */
  lemma TrailerInert(c: Values, resolve: string -> string)
    ensures Inert(c, SubLayer(resolve, NormalLayer(Trailer(c))))
  {
    NoHookSub(resolve);
    assert NormalHook(NoHook) == NoHook;
    assert NormalLayer(Trailer(c)) == Trailer(c);
    var m: map<string, string> := map[];
    assert SubMap(resolve, m) == m && SubAll(resolve, []) == [] && Map([], (m: Mount) => SubMount(resolve, m)) == [];
  }

  // ---- layers that differ in mounts and hooks only ----

  /** The same layer to every merged field but mounts and hooks. */
  ghost predicate Twins(x: Layer, y: Layer) {
    x == y.(mounts := x.mounts, hooks := x.hooks, resolvedRef := x.resolvedRef, dependsOn := x.dependsOn)
  }

  ghost predicate AllTwins(xs: seq<Layer>, ys: seq<Layer>) {
    |xs| == |ys| && forall i :: 0 <= i < |xs| ==> Twins(xs[i], ys[i])
  }

  lemma TextTwins(xs: seq<Layer>, ys: seq<Layer>)
    requires AllTwins(xs, ys)
    ensures Map(xs, RemoteUserOf) == Map(ys, RemoteUserOf) && Map(xs, ContainerUserOf) == Map(ys, ContainerUserOf)
    ensures Map(xs, UserEnvProbeOf) == Map(ys, UserEnvProbeOf) && Map(xs, WaitForOf) == Map(ys, WaitForOf)
    ensures Map(xs, ShutdownActionOf) == Map(ys, ShutdownActionOf) && Map(xs, EntrypointOf) == Map(ys, EntrypointOf)
  {}

  lemma OptionTwins(xs: seq<Layer>, ys: seq<Layer>)
    requires AllTwins(xs, ys)
    ensures Map(xs, UpdateRemoteUserUIDOf) == Map(ys, UpdateRemoteUserUIDOf) && Map(xs, InitOf) == Map(ys, InitOf)
    ensures Map(xs, PrivilegedOf) == Map(ys, PrivilegedOf) && Map(xs, OverrideCommandOf) == Map(ys, OverrideCommandOf)
    ensures Map(xs, HostRequirementsOf) == Map(ys, HostRequirementsOf)
  {}

  lemma CollectionTwins(xs: seq<Layer>, ys: seq<Layer>)
    requires AllTwins(xs, ys)
    ensures Map(xs, ContainerEnvOf) == Map(ys, ContainerEnvOf) && Map(xs, RemoteEnvOf) == Map(ys, RemoteEnvOf)
    ensures Map(xs, CapAddOf) == Map(ys, CapAddOf) && Map(xs, SecurityOptOf) == Map(ys, SecurityOptOf)
  {}

  lemma FoldedTwins(c: Values, xs: seq<Layer>, ys: seq<Layer>)
    requires AllTwins(xs, ys)
    ensures SameButMountsAndHooks(Folded(c, xs), Folded(c, ys))
  {
    TextTwins(xs, ys);
    OptionTwins(xs, ys);
    CollectionTwins(xs, ys);
  }

  // ---- when hooks survive ----

  lemma SubCommandNormal(resolve: string -> string, c: Command)
    ensures SubCommand(resolve, NormalCommand(c)) == SubCommand(resolve, c) <==> NormalCommand(c) == c
  {
    assert |SubAll(resolve, c.exec)| == |c.exec| && |SubAll(resolve, NormalCommand(c).exec)| == |NormalCommand(c).exec|;
  }

  lemma SubHookNormal(resolve: string -> string, h: Hook)
    ensures SubHook(resolve, NormalHook(h)) == SubHook(resolve, h) <==> NormalHook(h) == h
  {
    var n := NormalHook(h);
    if SubHook(resolve, n) == SubHook(resolve, h) {
      assert n.parallel.Keys == SubHook(resolve, n).parallel.Keys == SubHook(resolve, h).parallel.Keys == h.parallel.Keys;
      if h.single.Some? { SubCommandNormal(resolve, h.single.value); }
      forall k | k in h.parallel ensures n.parallel[k] == h.parallel[k] {
        assert SubHook(resolve, n).parallel[k] == SubHook(resolve, h).parallel[k];
        SubCommandNormal(resolve, h.parallel[k]);
      }
      assert n.parallel == h.parallel;
    }
  }

  lemma NormalEmpty(h: Hook)
    requires h.IsEmpty()
    ensures NormalHook(h) == h
  {
    assert NormalHook(h).parallel == map[];
  }

  ghost predicate HooksNormal(hs: seq<Hook>) {
    forall i :: 0 <= i < |hs| ==> NormalHook(hs[i]) == hs[i]
  }

  function SubHooks(resolve: string -> string, hs: seq<Hook>): seq<Hook> {
    Map(hs, h => SubHook(resolve, h))
  }

  function NormalAll(hs: seq<Hook>): seq<Hook> {
    Map(hs, h => NormalHook(h))
  }

  lemma {:induction false} FewerHooks(resolve: string -> string, hs: seq<Hook>)
    ensures |Configured(SubHooks(resolve, NormalAll(hs)))| <= |Configured(SubHooks(resolve, hs))|
  {
    if hs != [] {
      var n := |hs| - 1;
      FewerHooks(resolve, hs[..n]);
      HooksSnoc(resolve, hs);
      SubHookEmpty(resolve, hs[n]);
      SubHookEmpty(resolve, NormalHook(hs[n]));
      if hs[n].IsEmpty() { NormalEmpty(hs[n]); }
    }
  }

  lemma HooksSnoc(resolve: string -> string, hs: seq<Hook>)
    requires hs != []
    ensures var n := |hs| - 1;
      && SubHooks(resolve, hs)[..n] == SubHooks(resolve, hs[..n]) && SubHooks(resolve, hs)[n] == SubHook(resolve, hs[n])
      && SubHooks(resolve, NormalAll(hs))[..n] == SubHooks(resolve, NormalAll(hs[..n])) && SubHooks(resolve, NormalAll(hs))[n] == SubHook(resolve, NormalHook(hs[n]))
  {}

  function Kept(h: Hook): seq<Hook> { if h.IsEmpty() then [] else [h] }

  lemma KeptEqual(a: seq<Hook>, b: seq<Hook>, x: Hook, y: Hook)
    requires |a| <= |b| && (y.IsEmpty() ==> x.IsEmpty())
    ensures a + Kept(x) == b + Kept(y) <==> a == b && Kept(x) == Kept(y)
  {
    var s, t := a + Kept(x), b + Kept(y);
    assert s[..|a|] == a && s[|a|..] == Kept(x) && t[..|b|] == b && t[|b|..] == Kept(y);
  }

  lemma ConfiguredSnoc(hs: seq<Hook>)
    requires hs != []
    ensures Configured(hs) == Configured(hs[..|hs| - 1]) + Kept(hs[|hs| - 1])
  {}

  lemma KeptNormal(resolve: string -> string, h: Hook)
    ensures var x, y := SubHook(resolve, NormalHook(h)), SubHook(resolve, h);
      (y.IsEmpty() ==> x.IsEmpty()) && (Kept(x) == Kept(y) <==> NormalHook(h) == h)
  {
    SubHookEmpty(resolve, h);
    SubHookEmpty(resolve, NormalHook(h));
    SubHookNormal(resolve, h);
    if h.IsEmpty() { NormalEmpty(h); }
    var x, y := SubHook(resolve, NormalHook(h)), SubHook(resolve, h);
    if Kept(x) == Kept(y) && !y.IsEmpty() { assert Kept(x)[0] == Kept(y)[0]; }
  }

  lemma HooksGrow(resolve: string -> string, hs: seq<Hook>)
    requires hs != []
    ensures var n := |hs| - 1;
      && Configured(SubHooks(resolve, hs)) == Configured(SubHooks(resolve, hs[..n])) + Kept(SubHook(resolve, hs[n]))
      && Configured(SubHooks(resolve, NormalAll(hs))) == Configured(SubHooks(resolve, NormalAll(hs[..n]))) + Kept(SubHook(resolve, NormalHook(hs[n])))
  {
    HooksSnoc(resolve, hs);
    ConfiguredSnoc(SubHooks(resolve, hs));
    ConfiguredSnoc(SubHooks(resolve, NormalAll(hs)));
  }

  /** The hooks read back are those written exactly when each was in normal form. */
  lemma {:induction false} HooksSurvive(resolve: string -> string, hs: seq<Hook>)
    ensures Configured(SubHooks(resolve, NormalAll(hs))) == Configured(SubHooks(resolve, hs)) <==> HooksNormal(hs)
  {
    if hs != [] {
      var n := |hs| - 1;
      HooksSurvive(resolve, hs[..n]);
      FewerHooks(resolve, hs[..n]);
      HooksGrow(resolve, hs);
      KeptNormal(resolve, hs[n]);
      KeptEqual(Configured(SubHooks(resolve, NormalAll(hs[..n]))), Configured(SubHooks(resolve, hs[..n])), SubHook(resolve, NormalHook(hs[n])), SubHook(resolve, hs[n]));
      NormalSnoc(hs);
    }
  }

  lemma NormalSnoc(hs: seq<Hook>)
    requires hs != []
    ensures HooksNormal(hs) <==> HooksNormal(hs[..|hs| - 1]) && NormalHook(hs[|hs| - 1]) == hs[|hs| - 1]
  {}

  // ---- when mounts survive ----

  lemma SubBlank(resolve: string -> string, m: Mount)
    requires Blank(m)
    ensures SubMount(resolve, m).target == ""
  {}

  function SubMounts(resolve: string -> string, ms: seq<Mount>): seq<Mount> {
    Map(ms, m => SubMount(resolve, m))
  }

  ghost predicate NoBlank(ms: seq<Mount>) {
    forall i :: 0 <= i < |ms| ==> !Blank(ms[i])
  }

  lemma {:induction false} NormalNoBlank(ms: seq<Mount>)
    ensures NormalMounts(ms) == ms <==> NoBlank(ms)
    ensures |NormalMounts(ms)| <= |ms|
  {
    if ms != [] {
      var n := |ms| - 1;
      NormalNoBlank(ms[..n]);
      assert ms == ms[..n] + [ms[n]];
      assert NoBlank(ms) <==> NoBlank(ms[..n]) && !Blank(ms[n]);
    }
  }

  /** Dropping a blank mount drops one without a target. */
  lemma {:induction false} BlankCounted(resolve: string -> string, ms: seq<Mount>)
    ensures Untargeted(SubMounts(resolve, NormalMounts(ms))) <= Untargeted(SubMounts(resolve, ms))
    ensures !NoBlank(ms) ==> Untargeted(SubMounts(resolve, NormalMounts(ms))) < Untargeted(SubMounts(resolve, ms))
  {
    if ms != [] {
      var n := |ms| - 1;
      BlankCounted(resolve, ms[..n]);
      var last := SubMounts(resolve, [ms[n]]);
      assert SubMounts(resolve, ms) == SubMounts(resolve, ms[..n]) + last;
      UntargetedConcat(SubMounts(resolve, ms[..n]), last);
      assert last[0] == SubMount(resolve, ms[n]) && last[1..] == [];
      if !Blank(ms[n]) {
        assert SubMounts(resolve, NormalMounts(ms)) == SubMounts(resolve, NormalMounts(ms[..n])) + last;
        UntargetedConcat(SubMounts(resolve, NormalMounts(ms[..n])), last);
        assert !NoBlank(ms) ==> !NoBlank(ms[..n]);
      } else {
        SubBlank(resolve, ms[n]);
        assert NormalMounts(ms) == NormalMounts(ms[..n]) + [] == NormalMounts(ms[..n]);
      }
    }
  }

  lemma MountsSurvive(resolve: string -> string, ms: seq<Mount>, user: seq<Mount>)
    ensures LastPerTarget(SubMounts(resolve, NormalMounts(ms)) + user) == LastPerTarget(SubMounts(resolve, ms) + user) <==> NoBlank(ms)
  {
    NormalNoBlank(ms);
    BlankCounted(resolve, ms);
    var a, b := SubMounts(resolve, NormalMounts(ms)), SubMounts(resolve, ms);
    UntargetedStay(a + user);
    UntargetedStay(b + user);
    UntargetedConcat(a, user);
    UntargetedConcat(b, user);
  }

  lemma {:induction false} MountsSubstituted(resolve: string -> string, ls: seq<Layer>)
    ensures Flat(Map(SubLayers(resolve, ls), MountsOf)) == SubMounts(resolve, Flat(Map(ls, MountsOf)))
  {
    if ls != [] {
      var n := |ls| - 1;
      MountsSubstituted(resolve, ls[..n]);
      assert Map(SubLayers(resolve, ls), MountsOf)[..n] == Map(SubLayers(resolve, ls[..n]), MountsOf);
      assert Map(ls, MountsOf)[..n] == Map(ls[..n], MountsOf);
    }
  }

  lemma {:induction false} NormalMountsConcat(a: seq<Mount>, b: seq<Mount>)
    ensures NormalMounts(a + b) == NormalMounts(a) + NormalMounts(b)
  {
    if b == [] { assert a + b == a; }
    else {
      assert (a + b)[..|a + b| - 1] == a + b[..|b| - 1];
      NormalMountsConcat(a, b[..|b| - 1]);
    }
  }

  lemma {:induction false} MountsNormalized(ls: seq<Layer>)
    ensures Flat(Map(Map(ls, Normalize), MountsOf)) == NormalMounts(Flat(Map(ls, MountsOf)))
  {
    if ls != [] {
      var n := |ls| - 1;
      MountsNormalized(ls[..n]);
      assert Map(Map(ls, Normalize), MountsOf)[..n] == Map(Map(ls[..n], Normalize), MountsOf);
      assert Map(ls, MountsOf)[..n] == Map(ls[..n], MountsOf);
      NormalMountsConcat(Flat(Map(ls[..n], MountsOf)), ls[n].mounts);
    }
  }

  // ---- normal form, layer by layer ----

  ghost predicate AllNormal(ls: seq<Layer>) {
    forall i :: 0 <= i < |ls| ==> InNormalForm(ls[i])
  }

  ghost predicate AllNoBlank(ls: seq<Layer>) {
    forall i :: 0 <= i < |ls| ==> NoBlank(ls[i].mounts)
  }

  lemma NoBlankConcat(a: seq<Mount>, b: seq<Mount>)
    ensures NoBlank(a + b) <==> NoBlank(a) && NoBlank(b)
  {
    var s := a + b;
    if NoBlank(s) {
      forall i | 0 <= i < |a| ensures !Blank(a[i]) { assert s[i] == a[i]; }
      forall i | 0 <= i < |b| ensures !Blank(b[i]) { assert s[|a| + i] == b[i]; }
    }
  }

  lemma {:induction false} NoBlankFlat(ls: seq<Layer>)
    ensures NoBlank(Flat(Map(ls, MountsOf))) <==> AllNoBlank(ls)
  {
    if ls != [] {
      var n := |ls| - 1;
      NoBlankFlat(ls[..n]);
      assert Map(ls, MountsOf)[..n] == Map(ls[..n], MountsOf);
      NoBlankConcat(Flat(Map(ls[..n], MountsOf)), ls[n].mounts);
      assert AllNoBlank(ls) <==> AllNoBlank(ls[..n]) && NoBlank(ls[n].mounts);
    }
  }

  ghost predicate PhasesNormal(ls: seq<Layer>) {
    forall phase :: HooksNormal(Map(ls, HookOf(phase)))
  }

  lemma NormalFormIs(l: Layer)
    ensures InNormalForm(l) <==> NoBlank(l.mounts) && forall phase :: NormalHook(At(l.hooks, phase)) == At(l.hooks, phase)
  {
    NormalNoBlank(l.mounts);
    SamePhases(NormalHooks(l.hooks), l.hooks);
    forall phase ensures At(NormalHooks(l.hooks), phase) == NormalHook(At(l.hooks, phase)) { NormalAt(l.hooks, phase); }
  }

  lemma AllNormalIs(ls: seq<Layer>)
    ensures AllNormal(ls) <==> AllNoBlank(ls) && PhasesNormal(ls)
  {
    forall i | 0 <= i < |ls|
      ensures InNormalForm(ls[i]) <==> NoBlank(ls[i].mounts) && forall phase :: NormalHook(At(ls[i].hooks, phase)) == At(ls[i].hooks, phase)
    {
      NormalFormIs(ls[i]);
    }
    if AllNormal(ls) {
      forall phase ensures HooksNormal(Map(ls, HookOf(phase))) {
        forall i | 0 <= i < |ls| ensures NormalHook(Map(ls, HookOf(phase))[i]) == Map(ls, HookOf(phase))[i] {}
      }
    }
    if PhasesNormal(ls) {
      forall i, phase | 0 <= i < |ls| ensures NormalHook(At(ls[i].hooks, phase)) == At(ls[i].hooks, phase) {
        assert HooksNormal(Map(ls, HookOf(phase))) && Map(ls, HookOf(phase))[i] == At(ls[i].hooks, phase);
      }
    }
  }

  // ---- reattaching ----

  lemma {:induction false} StampedTwins(fs: seq<Planned>)
    ensures |Stamped(fs)| == |Installed(fs)|
    ensures forall i :: 0 <= i < |Stamped(fs)| ==>
      Stamped(fs)[i] == Installed(fs)[i].(resolvedRef := Stamped(fs)[i].resolvedRef, dependsOn := Stamped(fs)[i].dependsOn)
  {
    if fs != [] { StampedTwins(fs[..|fs| - 1]); }
  }

  /** What the label holds of the chain, but for pins and dependencies. */
  ghost predicate Relabelled(chain: seq<Layer>, written: seq<Layer>) {
    |written| == |chain| && forall i :: 0 <= i < |chain| ==>
      written[i] == chain[i].(resolvedRef := written[i].resolvedRef, dependsOn := written[i].dependsOn)
  }

  lemma WrittenChain(base: seq<Layer>, fs: seq<Planned>)
    ensures Relabelled(base + Installed(fs), base + Stamped(fs))
  {
    StampedTwins(fs);
  }

  lemma ReadTwins(resolve: string -> string, chain: seq<Layer>, written: seq<Layer>)
    requires Relabelled(chain, written)
    ensures AllTwins(SubLayers(resolve, Map(written, Normalize)), SubLayers(resolve, chain))
  {
    var xs, ys := SubLayers(resolve, Map(written, Normalize)), SubLayers(resolve, chain);
    forall i | 0 <= i < |xs| ensures Twins(xs[i], ys[i]) {
      assert xs[i] == SubLayer(resolve, NormalLayer(written[i])) && ys[i] == SubLayer(resolve, chain[i]);
    }
  }

  lemma MountsAgree(resolve: string -> string, chain: seq<Layer>, written: seq<Layer>, user: seq<Mount>)
    requires Relabelled(chain, written)
    ensures MergedMounts(SubLayers(resolve, Map(written, Normalize)), user) == MergedMounts(SubLayers(resolve, chain), user) <==> AllNoBlank(chain)
  {
    assert Map(written, MountsOf) == Map(chain, MountsOf);
    MountsSubstituted(resolve, Map(written, Normalize));
    MountsNormalized(written);
    MountsSubstituted(resolve, chain);
    MountsSurvive(resolve, Flat(Map(chain, MountsOf)), user);
    NoBlankFlat(chain);
  }

  lemma HookAgrees(resolve: string -> string, chain: seq<Layer>, written: seq<Layer>, phase: Phase, user: seq<Hook>)
    requires Relabelled(chain, written)
    ensures Hooked(SubLayers(resolve, Map(written, Normalize)), phase, user) == Hooked(SubLayers(resolve, chain), phase, user) <==> HooksNormal(Map(chain, HookOf(phase)))
  {
    var hs := Map(chain, HookOf(phase));
    HookColumn(resolve, chain, written, phase);
    HooksSurvive(resolve, hs);
    var a, b := Configured(SubHooks(resolve, NormalAll(hs))), Configured(SubHooks(resolve, hs));
    if a + user == b + user {
      assert |a| == |b|;
      assert (a + user)[..|a|] == a && (b + user)[..|b|] == b;
    }
  }

  lemma HookColumn(resolve: string -> string, chain: seq<Layer>, written: seq<Layer>, phase: Phase)
    requires Relabelled(chain, written)
    ensures Map(SubLayers(resolve, Map(written, Normalize)), HookOf(phase)) == SubHooks(resolve, NormalAll(Map(chain, HookOf(phase))))
    ensures Map(SubLayers(resolve, chain), HookOf(phase)) == SubHooks(resolve, Map(chain, HookOf(phase)))
  {
    forall i | 0 <= i < |chain| ensures At(SubLayer(resolve, NormalLayer(written[i])).hooks, phase) == SubHook(resolve, NormalHook(At(chain[i].hooks, phase))) {
      NormalAt(written[i].hooks, phase);
    }
  }

  lemma HooksAgree(resolve: string -> string, chain: seq<Layer>, written: seq<Layer>, user: PerPhase<seq<Hook>>)
    requires Relabelled(chain, written)
    ensures MergedHooks(SubLayers(resolve, Map(written, Normalize)), user) == MergedHooks(SubLayers(resolve, chain), user) <==> PhasesNormal(chain)
  {
    var a, b := MergedHooks(SubLayers(resolve, Map(written, Normalize)), user), MergedHooks(SubLayers(resolve, chain), user);
    SamePhases(a, b);
    forall phase ensures At(a, phase) == At(b, phase) <==> HooksNormal(Map(chain, HookOf(phase))) {
      PhaseMerged(SubLayers(resolve, Map(written, Normalize)), user, phase);
      PhaseMerged(SubLayers(resolve, chain), user, phase);
      HookAgrees(resolve, chain, written, phase, At(user, phase));
    }
  }

  /** Folding what the label returns agrees with folding the chain itself exactly when every layer is in normal form. */
  lemma FoldsAgree(c: Values, resolve: string -> string, chain: seq<Layer>, written: seq<Layer>)
    requires Relabelled(chain, written)
    ensures var x, y := Folded(c, SubLayers(resolve, Map(written, Normalize))), Folded(c, SubLayers(resolve, chain));
      SameButMountsAndHooks(x, y) && (x.mounts == y.mounts && x.lifecycle == y.lifecycle <==> AllNormal(chain))
  {
    ReadTwins(resolve, chain, written);
    FoldedTwins(c, SubLayers(resolve, Map(written, Normalize)), SubLayers(resolve, chain));
    MountsAgree(resolve, chain, written, c.mounts);
    HooksAgree(resolve, chain, written, c.lifecycle);
    AllNormalIs(chain);
  }

  /** applyMetadataMerge on the full path: the base image's layers, then the features this build installed. */
  function FullPath(c: Values, resolve: string -> string, base: seq<Layer>, fs: seq<Planned>): Values {
    Finalized(Merged(c, resolve, base + Installed(fs)))
  }

  /** applyMetadataMerge on reattach: the image's label, then a layer for each of the n declared features, none of them fetched. */
  function FromLabel(c: Values, resolve: string -> string, layers: seq<Layer>, n: nat): Values {
    Finalized(Merged(c, resolve, layers + Blanks(n)))
  }

  lemma TailIgnored(c: Values, resolve: string -> string, written: seq<Layer>, n: nat)
    ensures var layers := Map(written + [Trailer(c)], Normalize);
      Merged(c, resolve, layers + Blanks(n)) == Folded(c, SubLayers(resolve, Map(written, Normalize)))
  {
    var layers := Map(written + [Trailer(c)], Normalize);
    var read := SubLayers(resolve, Map(written, Normalize));
    var z := SubLayer(resolve, NormalLayer(Trailer(c)));
    assert layers == Map(written, Normalize) + [NormalLayer(Trailer(c))];
    assert SubLayers(resolve, layers) == read + [z];
    assert SubLayers(resolve, layers + Blanks(n)) == read + [z] + SubLayers(resolve, Blanks(n));
    FoldedBlanks(c, read + [z], resolve, n);
    TrailerInert(c, resolve);
    FoldedInert(c, read, z);
  }

  /** With something to install: the label the build wrote reads as the full path merged exactly when each layer of the chain is in normal form. */
  lemma BuiltAgrees(csv: string -> Mount, built: Values, c: Values, resolve: string -> string, base: seq<Layer>, fs: seq<Planned>, n: nat)
    requires Installed(fs) != [] && built.remoteUser == c.remoteUser && built.containerUser == c.containerUser
    ensures Parsed(csv, Label(built, base, fs)).Some?
    ensures FromLabel(c, resolve, Parsed(csv, Label(built, base, fs)).value, n) == FullPath(c, resolve, base, fs) <==> AllNormal(base + Installed(fs))
  {
    var chain, written := base + Installed(fs), base + Stamped(fs);
    LabelParses(csv, built, base, fs);
    assert Trailer(built) == Trailer(c);
    TailIgnored(c, resolve, written, n);
    WrittenChain(base, fs);
    FoldsAgree(c, resolve, chain, written);
  }

  // ---- both paths, from the base image's label ----

  /** layerFeatures reads the base label; one it cannot parse counts as none. */
  function BaseLayers(csv: string -> Mount, text: LabelText): seq<Layer> {
    if ParsedLabel(csv, text).Some? then ParsedLabel(csv, text).value else []
  }

  /** The label of the image the container runs: a build's own, or the base image's when there was nothing to install. */
  function ImageLabel(csv: string -> Mount, text: LabelText, built: Values, fs: seq<Planned>): LabelText {
    if Installed(fs) == [] then text else Array(Label(built, BaseLayers(csv, text), fs))
  }

  /** reattachCompose: the merged configuration, or an error when the image's label does not parse. */
  function Reattached(layers: Option<seq<Layer>>, c: Values, resolve: string -> string, n: nat): Option<Values> {
    if layers.None? then None else Some(FromLabel(c, resolve, layers.value, n))
  }

  /** The features of a plan: only a label that lists features has any taken from the base image, and none come of none. */
  ghost predicate PlanFits(csv: string -> Mount, text: LabelText, fs: seq<Planned>, n: nat) {
    (BaseLayers(csv, text) == [] ==> forall i :: 0 <= i < |fs| ==> !fs[i].alreadyInstalled) && (fs == [] ==> n == 0)
  }

  lemma {:induction false} AllInstalled(fs: seq<Planned>)
    requires forall i :: 0 <= i < |fs| ==> !fs[i].alreadyInstalled
    ensures |Installed(fs)| == |fs|
  {
    if fs != [] { AllInstalled(fs[..|fs| - 1]); }
  }

  lemma UnbuiltSame(c: Values, resolve: string -> string, layers: seq<Layer>, n: nat)
    requires layers == [] ==> n == 0
    ensures Merged(c, resolve, layers + Blanks(n)) == Merged(c, resolve, layers)
  {
    if layers == [] {
      assert layers + Blanks(n) == [];
    } else {
      assert SubLayers(resolve, layers + Blanks(n)) == SubLayers(resolve, layers) + SubLayers(resolve, Blanks(n));
      FoldedBlanks(c, SubLayers(resolve, layers), resolve, n);
    }
  }

  /** With nothing to install, both paths read the base image's own label. */
  lemma UnbuiltAgrees(csv: string -> Mount, text: LabelText, c: Values, resolve: string -> string, fs: seq<Planned>, n: nat)
    requires Installed(fs) == [] && PlanFits(csv, text, fs, n)
    ensures Reattached(ParsedLabel(csv, text), c, resolve, n) == Some(FullPath(c, resolve, BaseLayers(csv, text), fs)) <==> ParsedLabel(csv, text).Some?
  {
    var layers := BaseLayers(csv, text);
    assert layers + Installed(fs) == layers;
    if layers == [] { AllInstalled(fs); }
    UnbuiltSame(c, resolve, layers, n);
  }

  lemma ReadsAs(layers: Option<seq<Layer>>, c: Values, resolve: string -> string, n: nat, full: Values, same: bool)
    requires layers.Some? && (FromLabel(c, resolve, layers.value, n) == full) == same
    ensures (Reattached(layers, c, resolve, n) == Some(full)) == same
  {}

  /** What the two paths must share to agree: the layers written are in normal form, or the label both read parses. */
  ghost predicate Readable(csv: string -> Mount, text: LabelText, fs: seq<Planned>) {
    if Installed(fs) == [] then ParsedLabel(csv, text).Some? else AllNormal(BaseLayers(csv, text) + Installed(fs))
  }

  /**
    For every base image label, every configuration with the users the label was
    written for and every list of features: reattach reads the configuration the
    full path merged exactly when each layer it wrote is in normal form or, with
    nothing to install, exactly when the base image's label parses.
   */
  lemma ReattachAgrees(csv: string -> Mount, text: LabelText, built: Values, c: Values, resolve: string -> string, fs: seq<Planned>, n: nat)
    requires built.remoteUser == c.remoteUser && built.containerUser == c.containerUser && PlanFits(csv, text, fs, n)
    ensures (Reattached(ParsedLabel(csv, ImageLabel(csv, text, built, fs)), c, resolve, n) == Some(FullPath(c, resolve, BaseLayers(csv, text), fs)))
      == Readable(csv, text, fs)
  {
    if Installed(fs) == [] {
      UnbuiltAgrees(csv, text, c, resolve, fs, n);
    } else {
      BuiltReads(csv, built, c, resolve, BaseLayers(csv, text), fs, n);
      BuiltImage(csv, text, built, fs);
    }
  }

  lemma BuiltImage(csv: string -> Mount, text: LabelText, built: Values, fs: seq<Planned>)
    requires Installed(fs) != []
    ensures ParsedLabel(csv, ImageLabel(csv, text, built, fs)) == Parsed(csv, Label(built, BaseLayers(csv, text), fs))
  {}

  lemma BuiltReads(csv: string -> Mount, built: Values, c: Values, resolve: string -> string, base: seq<Layer>, fs: seq<Planned>, n: nat)
    requires Installed(fs) != [] && built.remoteUser == c.remoteUser && built.containerUser == c.containerUser
    ensures (Reattached(Parsed(csv, Label(built, base, fs)), c, resolve, n) == Some(FullPath(c, resolve, base, fs))) == AllNormal(base + Installed(fs))
  {
    BuiltAgrees(csv, built, c, resolve, base, fs, n);
    ReadsAs(Parsed(csv, Label(built, base, fs)), c, resolve, n, FullPath(c, resolve, base, fs), AllNormal(base + Installed(fs)));
  }

  /** A base image whose label does not parse: the full path goes on without it, reattach gives up. */
  lemma GarbledLabelRefused(csv: string -> Mount, c: Values, resolve: string -> string)
    ensures FullPath(c, resolve, BaseLayers(csv, Garbled), []) == Finalized(c) && Reattached(ParsedLabel(csv, ImageLabel(csv, Garbled, c, [])), c, resolve, 0).None?
  {}

  /** A label may spell a hook as the empty string; rebuilt into a new label that hook is gone, and the two paths run different lists. */
  lemma EmptyCommandLost(csv: string -> Mount, c: Values, resolve: string -> string, f: Planned)
    requires !f.alreadyInstalled && f.metadata == EmptyLayer.(hooks := NoHooks.(postCreate := Hook(Some(Command("", [])), map[])))
    ensures Parsed(csv, Label(c, [], [f])).Some?
    ensures FromLabel(c, resolve, Parsed(csv, Label(c, [], [f])).value, 1) != FullPath(c, resolve, [], [f])
  {
    assert [f][..0] == [] && Installed([f]) == [f.metadata];
    assert ([] + Installed([f]))[0] == f.metadata && !InNormalForm(f.metadata);
    BuiltAgrees(csv, c, c, resolve, [], [f], 1);
  }
}
