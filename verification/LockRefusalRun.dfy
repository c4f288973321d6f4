/**
  An upgrade call that succeeds and a next default call that fails over a local
  path, turn by turn. (up.go:462-484, 495-500, 1432-1509)
 */
module LockRefusalRun {
  import opened Prelude
  import Ordering
  import opened FeatureModel
  import opened Locking
  import opened Expansion
  import opened Layering
  import opened LockProtocol
  import opened LockLater

  // ---- turns ----

  lemma {:induction false} AllHeld(env: Env, fs: seq<Feature>, f: Feature, keys: seq<string>, k: nat, out: seq<Feature>)
    requires k <= |keys| && forall i :: 0 <= i < |keys| ==> keys[i] in f.metadata.Dependencies()
    requires forall key :: key in f.metadata.Dependencies() ==> Requested(fs, key, f.metadata.Dependencies()[key])
    ensures Missing(env, fs, f, keys, k, out) == Some(out)
    decreases |keys| - k
  {
    if k < |keys| { AllHeld(env, fs, f, keys, k + 1, out); }
  }

  /** The entry at hand can be finished as f', and is no duplicate. */
  ghost predicate Finishes(env: Env, s: State, f': Feature) {
    && !Done(s) && !Carried(s.features[s.i]) && Finalizes(env, s.features[s.i], f')
    && (f'.alreadyInstalled || !Duplicate(s.features[..s.i], f')) && f'.alreadyInstalled == s.features[s.i].alreadyInstalled
  }

  lemma StepFinishes(env: Env, s: State, f': Feature)
    requires Finishes(env, s, f')
    ensures Step(env, s) == Grow(env, s, f')
  {}

  lemma NothingMissing(env: Env, fs: seq<Feature>, f: Feature)
    requires forall key :: key in f.metadata.Dependencies() ==> Requested(fs, key, f.metadata.Dependencies()[key])
    ensures Dependencies(env, fs, f) == Some([])
  {
    var keys := Ordering.SortedKeys(f.metadata.Dependencies().Keys);
    assert forall i :: 0 <= i < |keys| ==> keys[i] in Elements(keys);
    AllHeld(env, fs, f, keys, 0, []);
  }

  lemma Keeps(env: Env, s: State, f': Feature)
    requires Finishes(env, s, f')
    requires forall key :: key in f'.metadata.Dependencies() ==> Requested(s.features[s.i := f'], key, f'.metadata.Dependencies()[key])
    ensures Step(env, s) == Running(s.i + 1, s.features[s.i := f'], s.aliases)
  {
    StepFinishes(env, s, f');
    NothingMissing(env, s.features[s.i := f'], f');
    assert s.features[s.i := f'] + [] == s.features[s.i := f'];
  }

  lemma AsksFor(env: Env, s: State, f': Feature, key: string)
    requires Finishes(env, s, f') && f'.metadata.Dependencies().Keys == {key} && !Classify(key).Local?
    requires !Requested(s.features[s.i := f'], key, f'.metadata.Dependencies()[key])
    ensures Step(env, s) == Running(s.i + 1, s.features[s.i := f'] + [Unfetched(key, f'.metadata.Dependencies()[key])], s.aliases)
  {
    var all, fs := f'.metadata.Dependencies(), s.features[s.i := f'];
    var keys := Ordering.SortedKeys(all.Keys);
    NoDupCard(keys);
    assert forall i :: 0 <= i < |keys| ==> keys[i] in Elements(keys);
    assert keys == [key];
    var dep := Unfetched(key, all[key]);
    assert Missing(env, fs, f', keys, 0, []) == Missing(env, fs, f', keys, 1, [] + [dep]) == Some([] + [dep]);
  }

  lemma Drops(env: Env, s: State, f': Feature)
    requires !Done(s) && !Carried(s.features[s.i]) && Finalizes(env, s.features[s.i], f')
    requires !s.features[s.i].alreadyInstalled && Duplicate(s.features[..s.i], f')
    ensures Step(env, s) == Running(s.i, s.features[..s.i] + s.features[s.i + 1..], s.aliases + [f'])
  {}

  // ---- the plot ----

  /**
    Entries as declared and in final form: a local feature under two spellings, a
    library that depends on the second, fetched, carried by the base image or
    fetched again, and an application that asks for the library.
   */
  datatype Cast = Cast(twin0: Feature, lib0: Feature, path0: Feature, app0: Feature, twin: Feature, lib: Feature, alias: Feature, app: Feature,
    carrier: Feature, again: Feature, path: string, library: string, plain: Options, wanted: Options)
  {
    function Again0(): Feature { Unfetched(library, wanted) }
  }

  /** f0 is fetched and becomes f. */
  ghost predicate Becomes(env: Env, f0: Feature, f: Feature) {
    !f0.alreadyInstalled && f0.dir == "" && Finalizes(env, f0, f) && !f.alreadyInstalled && f.ref == f0.ref
  }

  /** The two spellings: the path is asked for as declared, and dropped after its twin. */
  ghost predicate Spelled(env: Env, c: Cast) {
    && Becomes(env, c.twin0, c.twin) && Becomes(env, c.path0, c.alias)
    && c.twin.metadata.Dependencies() == map[] && Duplicate([c.twin], c.alias)
    && c.path0.ref == c.path && SameOptions(c.path0, c.plain) && c.twin.ref != c.path && c.twin.ref != c.library
  }

  ghost predicate AppAsks(env: Env, c: Cast) {
    && Becomes(env, c.app0, c.app) && c.app.metadata.Dependencies() == map[c.library := c.wanted] && !Classify(c.library).Local?
    && c.app.ref != c.path && c.app.ref != c.library && c.app.resolvedRef != c.twin.resolvedRef && c.app.resolvedRef != c.lib.resolvedRef
  }

  ghost predicate LibNames(f: Feature, c: Cast) {
    f.ref == c.library && c.library != c.path && f.metadata.Dependencies() == map[c.path := c.plain] && f.resolvedRef == c.lib.resolvedRef && f.resolvedRef != c.twin.resolvedRef
  }

  /** Fetched, the library answers the application's request. */
  ghost predicate FirstPlot(env: Env, c: Cast) {
    Spelled(env, c) && AppAsks(env, c) && Becomes(env, c.lib0, c.lib) && LibNames(c.lib, c) && SameOptions(c.lib, c.wanted)
  }

  /** Carried, it does not; fetched again it is no duplicate, and may not name the path. */
  ghost predicate NextPlot(env: Env, c: Cast) {
    && Spelled(env, c) && AppAsks(env, c) && LibNames(c.carrier, c) && LibNames(c.again, c)
    && c.carrier.alreadyInstalled && Finalizes(env, c.carrier, c.carrier) && !SameOptions(c.carrier, c.wanted)
    && Becomes(env, c.Again0(), c.again) && c.again.options != c.carrier.options
    && Classify(c.path).Local? && !env.localAllowed(c.again.kind, c.path)
  }

  lemma TwinTurn(env: Env, c: Cast, rest: seq<Feature>)
    requires Spelled(env, c)
    ensures Step(env, Running(0, [c.twin0] + rest, [])) == Running(1, [c.twin] + rest, [])
  {
    var fs := [c.twin0] + rest;
    assert fs[0 := c.twin] == [c.twin] + rest;
    Keeps(env, Running(0, fs, []), c.twin);
  }

  /** The library, fetched or carried, finds the path requested. */
  lemma LibTurn(env: Env, c: Cast, lib0: Feature, lib: Feature)
    requires Spelled(env, c) && LibNames(lib, c) && Finishes(env, Running(1, [c.twin, lib0, c.path0, c.app0], []), lib)
    ensures Step(env, Running(1, [c.twin, lib0, c.path0, c.app0], [])) == Running(2, [c.twin, lib, c.path0, c.app0], [])
  {
    var fs := [c.twin, lib0, c.path0, c.app0];
    var gs := fs[1 := lib];
    assert gs == [c.twin, lib, c.path0, c.app0] && gs[2].ref == c.path && Requested(gs, c.path, c.plain);
    Keeps(env, Running(1, fs, []), lib);
  }

  /** The second spelling of the path is dropped. */
  lemma AliasTurn(env: Env, c: Cast, lib: Feature)
    requires Spelled(env, c)
    ensures Step(env, Running(2, [c.twin, lib, c.path0, c.app0], [])) == Running(2, [c.twin, lib, c.app0], [c.alias])
  {
    var fs := [c.twin, lib, c.path0, c.app0];
    DuplicatePrefix([c.twin], fs[..2], c.alias);
    assert fs[..2] + fs[3..] == [c.twin, lib, c.app0] && [] + [c.alias] == [c.alias];
    Drops(env, Running(2, fs, []), c.alias);
  }

  /** The application finds the library with the options it asks for. */
  lemma AppTurn(env: Env, c: Cast)
    requires FirstPlot(env, c)
    ensures Step(env, Running(2, [c.twin, c.lib, c.app0], [c.alias])) == Running(3, [c.twin, c.lib, c.app], [c.alias])
  {
    var fs := [c.twin, c.lib, c.app0];
    var gs := fs[2 := c.app];
    assert gs == [c.twin, c.lib, c.app] && gs[1].ref == c.library && Requested(gs, c.library, c.wanted);
    Keeps(env, Running(2, fs, [c.alias]), c.app);
  }

  lemma NotHeld(twin: Feature, carrier: Feature, app: Feature, key: string, opts: Options)
    requires twin.ref != key && app.ref != key && (carrier.ref != key || !SameOptions(carrier, opts))
    ensures !Requested([twin, carrier, app], key, opts)
  {}

  /** Three entries of other content, or other options, are no twins. */
  lemma NoTwin(twin: Feature, carrier: Feature, app: Feature, f: Feature)
    requires twin.resolvedRef != f.resolvedRef && app.resolvedRef != f.resolvedRef && (carrier.resolvedRef != f.resolvedRef || carrier.options != f.options)
    ensures !Duplicate([twin, carrier, app], f)
  {}

  lemma AppFinishes(env: Env, c: Cast, lib: Feature)
    requires AppAsks(env, c) && lib.resolvedRef == c.lib.resolvedRef
    ensures Finishes(env, Running(2, [c.twin, lib, c.app0], [c.alias]), c.app)
  {
    assert [c.twin, lib, c.app0][..2] == [c.twin, lib];
  }

  /** Its options not merged, the application asks for the carried one anew. */
  lemma AnewTurn(env: Env, c: Cast)
    requires NextPlot(env, c)
    ensures Step(env, Running(2, [c.twin, c.carrier, c.app0], [c.alias])) == Running(3, [c.twin, c.carrier, c.app, c.Again0()], [c.alias])
  {
    AppFinishes(env, c, c.carrier);
    NotHeld(c.twin, c.carrier, c.app, c.library, c.wanted);
    Appends(env, c);
  }

  lemma Appends(env: Env, c: Cast)
    requires Finishes(env, Running(2, [c.twin, c.carrier, c.app0], [c.alias]), c.app)
    requires c.app.metadata.Dependencies() == map[c.library := c.wanted] && !Classify(c.library).Local? && !Requested([c.twin, c.carrier, c.app], c.library, c.wanted)
    ensures Step(env, Running(2, [c.twin, c.carrier, c.app0], [c.alias])) == Running(3, [c.twin, c.carrier, c.app, c.Again0()], [c.alias])
  {
    var fs, gs := [c.twin, c.carrier, c.app0], [c.twin, c.carrier, c.app];
    assert fs[2 := c.app] == gs;
    AsksFor(env, Running(2, fs, [c.alias]), c.app, c.library);
    assert gs + [c.Again0()] == [c.twin, c.carrier, c.app, c.Again0()];
  }

  lemma PathGone(c: Cast)
    requires c.twin.ref != c.path && c.carrier.ref != c.path && c.app.ref != c.path && c.again.ref != c.path
    ensures !Requested([c.twin, c.carrier, c.app, c.again], c.path, c.plain)
  {}

  /** Fetched now, it names a path that is no longer listed. */
  lemma RefusingTurn(env: Env, c: Cast)
    requires NextPlot(env, c)
    ensures Refuses(env, Running(3, [c.twin, c.carrier, c.app, c.Again0()], [c.alias]))
  {
    PathGone(c);
    assert RefusedKey(env, [c.twin, c.carrier, c.app, c.again], c.again, c.path);
    NoTwin(c.twin, c.carrier, c.app, c.again);
    RefusesThere(env, c);
  }

  lemma RefusesThere(env: Env, c: Cast)
    requires Becomes(env, c.Again0(), c.again) && NamesRefused(env, [c.twin, c.carrier, c.app, c.again], c.again) && !Duplicate([c.twin, c.carrier, c.app], c.again)
    ensures Refuses(env, Running(3, [c.twin, c.carrier, c.app, c.Again0()], [c.alias]))
  {
    var fs := [c.twin, c.carrier, c.app, c.Again0()];
    assert fs[3 := c.again] == [c.twin, c.carrier, c.app, c.again] && fs[..3] == [c.twin, c.carrier, c.app];
    FinalOnce(env, Running(3, fs, [c.alias]), c.again);
  }

  lemma FourTurns(env: Env, s: State, a: State, b: State, c: State, d: State)
    requires !Done(s) && a == Step(env, s) && !Done(a) && b == Step(env, a) && !Done(b) && c == Step(env, b) && !Done(c) && d == Step(env, c)
    ensures Iterate(env, s, 4) == d
  {
    assert Iterate(env, c, 1) == Iterate(env, d, 0);
    assert Iterate(env, b, 2) == Iterate(env, c, 1);
    assert Iterate(env, a, 3) == Iterate(env, b, 2);
  }

  lemma CarrierFinishes(env: Env, c: Cast)
    requires c.carrier.alreadyInstalled && Finalizes(env, c.carrier, c.carrier)
    ensures Finishes(env, Running(1, [c.twin, c.carrier, c.path0, c.app0], []), c.carrier)
  {}

  lemma FirstRuns(env: Env, c: Cast)
    requires FirstPlot(env, c)
    ensures Iterate(env, Start([c.twin0, c.lib0, c.path0, c.app0]), 4) == Running(3, [c.twin, c.lib, c.app], [c.alias])
  {
    var rest := [c.lib0, c.path0, c.app0];
    TwinTurn(env, c, rest);
    assert [c.twin0, c.lib0, c.path0, c.app0] == [c.twin0] + rest && [c.twin] + rest == [c.twin, c.lib0, c.path0, c.app0];
    LibTurn(env, c, c.lib0, c.lib);
    AliasTurn(env, c, c.lib);
    AppTurn(env, c);
    FourTurns(env, Running(0, [c.twin0, c.lib0, c.path0, c.app0], []), Running(1, [c.twin, c.lib0, c.path0, c.app0], []),
      Running(2, [c.twin, c.lib, c.path0, c.app0], []), Running(2, [c.twin, c.lib, c.app0], [c.alias]), Running(3, [c.twin, c.lib, c.app], [c.alias]));
  }

  lemma NextRuns(env: Env, c: Cast)
    requires Spelled(env, c) && c.carrier.alreadyInstalled && Finalizes(env, c.carrier, c.carrier) && LibNames(c.carrier, c)
    requires Step(env, Running(2, [c.twin, c.carrier, c.app0], [c.alias])) == Running(3, [c.twin, c.carrier, c.app, c.Again0()], [c.alias])
    ensures Iterate(env, Start([c.twin0, c.carrier, c.path0, c.app0]), 4) == Running(3, [c.twin, c.carrier, c.app, c.Again0()], [c.alias])
  {
    var rest := [c.carrier, c.path0, c.app0];
    TwinTurn(env, c, rest);
    assert [c.twin0, c.carrier, c.path0, c.app0] == [c.twin0] + rest && [c.twin] + rest == [c.twin, c.carrier, c.path0, c.app0];
    CarrierFinishes(env, c);
    LibTurn(env, c, c.carrier, c.carrier);
    AliasTurn(env, c, c.carrier);
    FourTurns(env, Running(0, [c.twin0, c.carrier, c.path0, c.app0], []), Running(1, [c.twin, c.carrier, c.path0, c.app0], []),
      Running(2, [c.twin, c.carrier, c.path0, c.app0], []), Running(2, [c.twin, c.carrier, c.app0], [c.alias]), Running(3, [c.twin, c.carrier, c.app, c.Again0()], [c.alias]));
  }

  /** Whenever the plot holds, the next call comes to refuse the path. */
  lemma NextRefuses(env: Env, c: Cast)
    requires NextPlot(env, c)
    ensures Refuses(env, Iterate(env, Start([c.twin0, c.carrier, c.path0, c.app0]), 4))
  {
    AnewTurn(env, c);
    NextRuns(env, c);
    RefusingTurn(env, c);
  }

  // ---- an input: one local directory under two spellings, and two published features ----

  const TWIN := "././x"
  const PATH := "./x"
  const LIB := "p"
  const APP := "c"
  const LIB_DIGEST := "p@1"
  const APP_DIGEST := "c@2"

  const NOTHING: Options := map[]
  const FAST: Options := map["v" := Text("1")]
  const DEEP: Options := map["w" := Text("d")]

  const PathArtifact := Fetched("/x", "/x", Metadata("x", "1", "", map[], [], Some(map[])))

  /** Takes v and w, defaulting to "1" and "d", and depends on the local path. */
  const LibArtifact := Fetched("/p", LIB_DIGEST, Metadata("p", "1", "",
    map["v" := OptionDecl("string", Some(Text("1")), []), "w" := OptionDecl("string", Some(Text("d")), [])], [], Some(map[PATH := NOTHING])))

  const AppArtifact := Fetched("/c", APP_DIGEST, Metadata("c", "1", "", map[], [], Some(map[LIB := DEEP])))

  /** What the base image's label records of the library: no options. */
  const LibLabel := Metadata("p", "1", LIB_DIGEST, map[], [], Some(map[PATH := NOTHING]))

  function Store(ref: string, kind: SourceKind): Option<Fetched> {
    match kind
    case Local => if ref == "x" then Some(PathArtifact) else None
    case OCI =>
      if ref == LIB || ref == LIB_DIGEST then Some(LibArtifact)
      else if ref == APP || ref == APP_DIGEST then Some(AppArtifact)
      else None
    case HTTPS => None
  }

  function Repository(ref: string): Option<string> {
    if ref == LIB || ref == LIB_DIGEST then Some(LIB) else if ref == APP || ref == APP_DIGEST then Some(APP) else None
  }

  function LocalPath(ref: string): string { if ref == TWIN || ref == PATH then "x" else ref }

  /** Only a local feature may depend on a local path. */
  predicate LocalAllowed(kind: SourceKind, key: string) { kind.Local? }

  function Registry(lock: Lock): Env { Env(Store, Repository, LocalPath, LocalAllowed, lock) }

  predicate Matches(entry: Metadata, f: Feature) { entry.id == "p" && f.ref == LIB }

  const LABELS := [LibLabel]

  const DECLARED := [Unfetched(TWIN, NOTHING), Unfetched(LIB, FAST), Unfetched(PATH, NOTHING), Unfetched(APP, NOTHING)]

  const UPGRADE := Lock(Upgrade, None)

  lemma Spellings()
    ensures Classify(TWIN).Local? && Classify(PATH).Local? && Classify(LIB).OCI? && Classify(APP).OCI? && Classify(LIB_DIGEST).OCI? && Classify(APP_DIGEST).OCI?
    ensures Integrity(OCI, LIB_DIGEST) == "1" && Integrity(OCI, APP_DIGEST) == "2"
    ensures LIB + "@" + "1" == LIB_DIGEST && APP + "@" + "2" == APP_DIGEST
    ensures NoDup([TWIN, PATH, LIB, APP, LIB_DIGEST, APP_DIGEST])
  {
    assert TWIN[0] == '.' && TWIN[1] == '/' && PATH[0] == '.' && PATH[1] == '/';
    assert LIB[0] == 'p' && APP[0] == 'c' && LIB_DIGEST[0] == 'p' && APP_DIGEST[0] == 'c';
    assert LIB_DIGEST[..2] == "p@" && APP_DIGEST[..2] == "c@";
    assert LastIndex("p@", '@') == 1 && LastIndex("c@", '@') == 1;
    assert LIB_DIGEST[2..] == "1" && APP_DIGEST[2..] == "2";
  }

  const Both: Options := map["v" := Text("1"), "w" := Text("d")]

  lemma Merges()
    ensures MergedOptions(map[], NOTHING) == Some(NOTHING) && MergedOptions(map[], DEEP) == Some(DEEP) && DEEP != FAST
  {
    assert Defaults(map[]) + NOTHING == NOTHING && Defaults(map[]) + DEEP == DEEP;
    assert "v" != "w" by { assert "v"[0] != "w"[0]; }
    assert "w" !in FAST && "w" in DEEP;
  }

  lemma LibMerges()
    ensures MergedOptions(LibArtifact.metadata.options, FAST) == Some(Both) && MergedOptions(LibArtifact.metadata.options, DEEP) == Some(Both) && FAST != Both
  {
    assert "v" != "w" by { assert "v"[0] != "w"[0]; }
    assert Defaults(LibArtifact.metadata.options) == Both;
    assert Both + FAST == Both && Both + DEEP == Both && "w" in Both && "w" !in FAST;
  }

  /** The library taken from the base image: its options stay as asked for. */
  const Carrier := Unfetched(LIB, FAST).(alreadyInstalled := true, metadata := LibLabel, resolvedRef := LIB_DIGEST)

  const Players := Cast(
    Unfetched(TWIN, NOTHING), Unfetched(LIB, FAST), Unfetched(PATH, NOTHING), Unfetched(APP, NOTHING),
    Install(Unfetched(TWIN, NOTHING), PathArtifact, NOTHING), Install(Unfetched(LIB, FAST), LibArtifact, Both),
    Install(Unfetched(PATH, NOTHING), PathArtifact, NOTHING), Install(Unfetched(APP, NOTHING), AppArtifact, NOTHING),
    Carrier, Install(Unfetched(LIB, DEEP), LibArtifact, Both), PATH, LIB, NOTHING, DEEP)

  /** A call in which each reference is served its artifact, pinned or not. */
  ghost predicate Serves(env: Env) {
    forall f: Feature :: f.ref in {TWIN, PATH, LIB, APP} && f.kind == Classify(f.ref) ==>
      Fetch(env, f) == Some(if f.ref == LIB then LibArtifact else if f.ref == APP then AppArtifact else PathArtifact)
  }

  lemma SpellsOut(env: Env)
    requires Serves(env)
    ensures Spelled(env, Players)
  {
    Spellings();
    Merges();
    assert Duplicate([Players.twin], Players.alias) by { assert [Players.twin][0].resolvedRef == Players.alias.resolvedRef; }
  }

  lemma AppAsksIt(env: Env)
    requires Serves(env)
    ensures AppAsks(env, Players)
  {
    Spellings();
    Merges();
    assert "/x"[0] != APP_DIGEST[0];
  }

  lemma NamesIt()
    ensures LibNames(Players.lib, Players) && LibNames(Players.carrier, Players) && LibNames(Players.again, Players)
  {
    Spellings();
    assert "/x"[0] != LIB_DIGEST[0];
  }

  lemma FirstPlotted(env: Env)
    requires Serves(env)
    ensures FirstPlot(env, Players)
  {
    Spellings();
    LibMerges();
    SpellsOut(env);
    AppAsksIt(env);
    NamesIt();
  }

  lemma NextPlotted(env: Env)
    requires Serves(env) && env.localAllowed == LocalAllowed
    ensures NextPlot(env, Players)
  {
    Spellings();
    Merges();
    LibMerges();
    SpellsOut(env);
    AppAsksIt(env);
    NamesIt();
  }

  // ---- put together ----

  const LISTED := [Players.twin, Players.lib, Players.app]
  const DROPPED := [Players.alias]

  lemma Addressed(lock: Lock)
    ensures ContentAddressed(Registry(lock))
  {
    assert "/x"[0] != LIB_DIGEST[0] && "/x"[0] != APP_DIGEST[0] && LIB_DIGEST[0] != APP_DIGEST[0];
  }

  ghost predicate DigestServed(env: Env, ref: string, digest: string, got: Fetched) {
    && env.repository(ref).Some? && ArtifactOf(env, ref) == Some(got) && got.resolvedRef == digest
    && env.repository(ref).value + "@" + Integrity(OCI, digest) == digest && env.store(digest, OCI) == Some(got)
  }

  lemma LibServed(lock: Lock, ref: string)
    requires ref == LIB || ref == LIB_DIGEST
    ensures DigestServed(Registry(lock), ref, LIB_DIGEST, LibArtifact)
  {
    Spellings();
  }

  lemma AppServed(lock: Lock, ref: string)
    requires ref == APP || ref == APP_DIGEST
    ensures DigestServed(Registry(lock), ref, APP_DIGEST, AppArtifact)
  {
    Spellings();
  }

  lemma Digests(lock: Lock)
    ensures DigestsServed(Registry(lock))
  {
    var env := Registry(lock);
    forall ref | Classify(ref).OCI? && ArtifactOf(env, ref).Some?
      ensures exists digest, got :: DigestServed(env, ref, digest, got)
    {
      if ref == LIB || ref == LIB_DIGEST { LibServed(lock, ref); } else { AppServed(lock, ref); }
    }
  }

  lemma Resolves(lock: Lock)
    ensures forall ref :: ArtifactOf(Registry(lock), ref).Some? ==> ArtifactOf(Registry(lock), ref).value.resolvedRef != ""
  {}

  lemma GoodWorld(lock: Lock)
    ensures World(Registry(lock), Matches, LABELS, DECLARED)
  {
    Addressed(lock);
    Digests(lock);
    Labelled(lock);
    Resolves(lock);
  }

  lemma Labelled(lock: Lock)
    ensures LabelsTell(Registry(lock), Matches, LABELS, DECLARED) && AllRaw(DECLARED)
  {
    Spellings();
  }

  lemma UpgradeServes()
    ensures Serves(Registry(UPGRADE))
  {
    Spellings();
  }

  /** The default call's lockfile is the one the upgrade call wrote. */
  ghost const NEXT := Lock(Default, Some(NextLockfile(UPGRADE, LISTED + DROPPED)))

  lemma UpgradeRun()
    ensures Call(Registry(UPGRADE), Matches, LABELS, DECLARED, 4, LISTED, DROPPED)
  {
    UpgradeServes();
    FirstPlotted(Registry(UPGRADE));
    FirstRuns(Registry(UPGRADE), Players);
    UpgradeMarksNone(UPGRADE, Matches, LABELS, DECLARED);
    assert DECLARED == [Players.twin0, Players.lib0, Players.path0, Players.app0];
  }

  lemma NextLocks()
    ensures Locks(Registry(UPGRADE), Registry(NEXT), RefsOf(LISTED + DROPPED))
    ensures {TWIN, PATH, LIB, APP} <= RefsOf(LISTED + DROPPED)
  {
    GoodWorld(UPGRADE);
    UpgradeRun();
    LocksIs(Registry(UPGRADE), Registry(NEXT), Matches, LABELS, DECLARED, 4, LISTED, DROPPED);
    var all := LISTED + DROPPED;
    assert all[0].ref == TWIN && all[1].ref == LIB && all[2].ref == APP && all[3].ref == PATH;
  }

  lemma NextServes()
    ensures Serves(Registry(NEXT))
  {
    var env, env' := Registry(UPGRADE), Registry(NEXT);
    Digests(UPGRADE);
    UpgradeServes();
    NextLocks();
    forall f: Feature | f.ref in {TWIN, PATH, LIB, APP} && f.kind == Classify(f.ref) ensures Fetch(env', f) == Fetch(env, f) {
      assert ArtifactOf(env, f.ref) == Fetch(env, f);
      FetchPinned(env, env', RefsOf(LISTED + DROPPED), f);
    }
  }

  lemma LibAccepted()
    ensures AcceptsBaked(NEXT, Unfetched(LIB, FAST), LibLabel)
  {
    var env := Registry(UPGRADE);
    Spellings();
    Digests(UPGRADE);
    NextLocks();
    assert ArtifactOf(env, LIB) == Some(LibArtifact);
    FetchPinned(env, Registry(NEXT), RefsOf(LISTED + DROPPED), Unfetched(LIB, FAST));
  }

  lemma OthersUnmarked(lock: Lock)
    ensures forall k :: 0 <= k < 4 && k != 1 ==> Marked(lock, Matches, LABELS, DECLARED[k]) == DECLARED[k]
  {
    Spellings();
    assert Baked(lock, Matches, LABELS[1..], DECLARED[3]).None?;
  }

  lemma LibMarked(lock: Lock)
    requires AcceptsBaked(lock, Unfetched(LIB, FAST), LibLabel)
    ensures Marked(lock, Matches, LABELS, DECLARED[1]) == Players.carrier
  {
    Spellings();
    assert Baked(lock, Matches, LABELS, DECLARED[1]) == Some(LibLabel);
  }

  lemma NextMarks()
    ensures MarkedAll(NEXT, Matches, LABELS, DECLARED) == [Players.twin0, Players.carrier, Players.path0, Players.app0]
  {
    LibAccepted();
    OthersUnmarked(NEXT);
    LibMarked(NEXT);
  }

  /**
    An upgrade call that ends well, and a default call after it that reads the
    lockfile just written and fails: taken from the base image, the library no
    longer answers the application's request for it, and the path it names was
    dropped as a duplicate before it is fetched.
   */
  lemma UpgradeThenRefused()
    ensures World(Registry(UPGRADE), Matches, LABELS, DECLARED) && FromScratch(UPGRADE)
    ensures Call(Registry(UPGRADE), Matches, LABELS, DECLARED, 4, LISTED, DROPPED)
    ensures NEXT.mode.Default? && NEXT.existing == Some(NextLockfile(UPGRADE, LISTED + DROPPED))
    ensures Fails(Registry(NEXT), Start(MarkedAll(NEXT, Matches, LABELS, DECLARED)))
    ensures !Reproduces(Registry(NEXT), Matches, LABELS, DECLARED, RefsOf(LISTED + DROPPED))
  {
    GoodWorld(UPGRADE);
    UpgradeRun();
    NextServes();
    NextMarks();
    NextPlotted(Registry(NEXT));
    NextRefuses(Registry(NEXT), Players);
    LaterRuns(Registry(UPGRADE), Registry(NEXT), Matches, LABELS, DECLARED, 4, LISTED, DROPPED);
  }
}
