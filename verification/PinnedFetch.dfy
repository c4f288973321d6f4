/**
  What the lockfile lets into a call and what a call puts into it, told on
  references and digests: a locked feature is fetched at its digest and checked
  against it, a built-in one stands in only with that digest, and every entry
  written says what its artifact resolved to.
  (up.go:413-484, 1424-1509; lockfile.go:61-120; feature/lockfile.go:143-201)
 */
module PinnedFetch {
  import opened Prelude
  import opened Ordering
  import opened FeatureModel
  import opened Locking
  import opened Expansion

  /** An artifact's digest: for OCI what follows the last at sign of what it resolved to, else all of it. */
  ghost predicate HasDigest(kind: SourceKind, resolved: string, digest: string) {
    if kind == OCI && '@' in resolved then '@' !in digest && exists repository: string :: resolved == repository + "@" + digest
    else digest == resolved
  }

  /** The lockfile this call honours holds the reference, with this digest. */
  ghost predicate PinnedTo(l: Lock, f: Feature, digest: string) {
    && l.mode != Upgrade && f.kind != Local && l.existing.Some? && f.ref in l.existing.value
    && l.existing.value[f.ref].integrity == digest
  }

  ghost predicate IsPinned(l: Lock, f: Feature) {
    exists digest :: PinnedTo(l, f, digest)
  }

  lemma PinIs(l: Lock, f: Feature)
    ensures Pin(l, f).Some? <==> IsPinned(l, f)
    ensures Pin(l, f).Some? ==> Pin(l, f).value == l.existing.value[f.ref] && forall digest :: PinnedTo(l, f, digest) <==> digest == Pin(l, f).value.integrity
  {
    if Pin(l, f).Some? { assert PinnedTo(l, f, Pin(l, f).value.integrity); }
  }

  lemma DigestIs(kind: SourceKind, resolved: string, digest: string)
    ensures HasDigest(kind, resolved, digest) <==> Integrity(kind, resolved) == digest
  {
    if kind == OCI && '@' in resolved {
      var at := LastIndex(resolved, '@');
      assert resolved == resolved[..at] + "@" + resolved[at + 1..];
      if '@' !in digest && exists repository: string :: resolved == repository + "@" + digest {
        var repository: string :| resolved == repository + "@" + digest;
        DigestAfter(resolved, repository, digest);
      }
    }
  }

  lemma DigestAfter(resolved: string, repository: string, digest: string)
    requires resolved == repository + "@" + digest && '@' !in digest
    ensures LastIndex(resolved, '@') == |repository| && resolved[|repository| + 1..] == digest
  {
    assert resolved[|repository|] == '@';
    forall k | |repository| < k < |resolved| ensures resolved[k] != '@' { assert resolved[k] == digest[k - |repository| - 1]; }
  }

  // ---- fetching ----

  /** What a locked feature is fetched by: its repository at the digest for OCI, its reference for a URL. */
  ghost predicate StoredAt(env: Env, f: Feature, digest: string, got: Fetched) {
    if f.kind == OCI then env.repository(f.ref).Some? && env.store(env.repository(f.ref).value + "@" + digest, OCI) == Some(got)
    else env.store(f.ref, f.kind) == Some(got)
  }

  /** got is what the store has for f: at the locked digest and bearing it when f is locked, else under its reference or local path. */
  ghost predicate Serves(env: Env, f: Feature, got: Fetched) {
    && (forall digest :: PinnedTo(env.lock, f, digest) ==>
          HasDigest(f.kind, got.resolvedRef, digest) && StoredAt(env, f, digest, got))
    && (!IsPinned(env.lock, f) ==> env.store(match f.kind case Local => env.localPath(f.ref) case _ => f.ref, f.kind) == Some(got))
  }

  /** Under a pin, fetching is asking the store and comparing digests. */
  lemma FetchUnderPin(env: Env, f: Feature, got: Fetched)
    requires Pin(env.lock, f).Some?
    ensures var pin := Pin(env.lock, f).value;
      Fetch(env, f) == Some(got) <==>
        && Integrity(f.kind, got.resolvedRef) == pin.integrity
        && PinnedRef(env, f, pin).Some? && env.store(PinnedRef(env, f, pin).value, f.kind) == Some(got)
  {}

  lemma PinnedRefStores(env: Env, f: Feature, pin: Locked, got: Fetched)
    ensures StoredAt(env, f, pin.integrity, got) <==> PinnedRef(env, f, pin).Some? && env.store(PinnedRef(env, f, pin).value, f.kind) == Some(got)
  {}

  lemma FetchPinnedServes(env: Env, f: Feature, digest: string, got: Fetched)
    requires PinnedTo(env.lock, f, digest)
    ensures Fetch(env, f) == Some(got) <==> HasDigest(f.kind, got.resolvedRef, digest) && StoredAt(env, f, digest, got)
  {
    PinIs(env.lock, f);
    FetchUnderPin(env, f, got);
    PinnedRefStores(env, f, Pin(env.lock, f).value, got);
    DigestIs(f.kind, got.resolvedRef, digest);
  }

  lemma FetchServes(env: Env, f: Feature, got: Fetched)
    ensures Fetch(env, f) == Some(got) <==> Serves(env, f, got)
  {
    PinIs(env.lock, f);
    if digest :| PinnedTo(env.lock, f, digest) {
      FetchPinnedServes(env, f, digest, got);
    }
  }

  ghost predicate Awaits(s: State) {
    s.Running? && s.i < |s.features| && !s.features[s.i].alreadyInstalled && s.features[s.i].dir == ""
  }

  /** f with an artifact's content and the options it is installed with. */
  ghost predicate InstalledFrom(f: Feature, got: Fetched, g: Feature) {
    && g.ref == f.ref && g.kind == f.kind && !g.alreadyInstalled && !g.unset
    && g.dir == got.dir && g.resolvedRef == got.resolvedRef && g.metadata == got.metadata
    && Some(g.options) == MergedOptions(got.metadata.options, f.options)
  }

  ghost predicate SameArtifact(a: Feature, b: Feature) {
    a.resolvedRef == b.resolvedRef != "" && !a.unset && a.options == b.options
  }

  /** The turn dropped g because an entry already final has its content and options. */
  ghost predicate DropsAlias(s: State, t: State, g: Feature)
    requires s.Running? && s.i < |s.features| && t.Running?
  {
    && t.i == s.i && t.aliases == s.aliases + [g] && t.features == s.features[..s.i] + s.features[s.i + 1..]
    && exists k :: 0 <= k < s.i && SameArtifact(s.features[k], g)
  }

  /** The turn kept g in place, as the first of its content and options. */
  ghost predicate Keeps(s: State, t: State, g: Feature)
    requires s.Running? && s.i < |s.features| && t.Running?
  {
    && t.i == s.i + 1 && t.aliases == s.aliases && s.features[s.i := g] <= t.features
    && forall k :: 0 <= k < s.i ==> !SameArtifact(s.features[k], g)
  }

  lemma DuplicateIs(earlier: seq<Feature>, g: Feature)
    requires !g.unset
    ensures Duplicate(earlier, g) <==> exists k :: 0 <= k < |earlier| && SameArtifact(earlier[k], g)
  {
    if k :| 0 <= k < |earlier| && earlier[k].resolvedRef != "" && earlier[k].resolvedRef == g.resolvedRef && earlier[k].unset == g.unset && earlier[k].options == g.options {
      assert SameArtifact(earlier[k], g);
    }
  }

  /** A turn on an unfetched entry installs what the store has for it, and nothing else: it fails when there is no such artifact, or when its options are refused. */
  lemma FetchTurn(env: Env, s: State)
    requires Awaits(s)
    ensures var f, t := s.features[s.i], Step(env, s);
      && ((forall got :: !Serves(env, f, got)) ==> t == Failed(f.ref))
      && (forall got :: Serves(env, f, got) && MergedOptions(got.metadata.options, f.options).None? ==> t == Failed(f.ref))
      && (t.Running? ==> exists got, g :: Serves(env, f, got) && InstalledFrom(f, got, g) && (Keeps(s, t, g) || DropsAlias(s, t, g)))
  {
    var f, t := s.features[s.i], Step(env, s);
    forall got ensures Fetch(env, f) == Some(got) <==> Serves(env, f, got) { FetchServes(env, f, got); }
    if t.Running? {
      var got := Fetch(env, f).value;
      var g := Install(f, got, MergedOptions(got.metadata.options, f.options).value);
      TurnKeeps(env, s, g, t);
      assert Serves(env, f, got) && InstalledFrom(f, got, g);
    }
  }

  lemma TurnKeeps(env: Env, s: State, g: Feature, t: State)
    requires Awaits(s) && !g.unset && t.Running?
    requires t == if Duplicate(s.features[..s.i], g) then Running(s.i, s.features[..s.i] + s.features[s.i + 1..], s.aliases + [g]) else Grow(env, s, g)
    ensures Keeps(s, t, g) || DropsAlias(s, t, g)
  {
    DuplicateIs(s.features[..s.i], g);
    if Duplicate(s.features[..s.i], g) {
      var k :| 0 <= k < s.i && SameArtifact(s.features[..s.i][k], g);
      assert SameArtifact(s.features[k], g);
    } else {
      forall k | 0 <= k < s.i ensures !SameArtifact(s.features[k], g) { assert s.features[..s.i][k] == s.features[k]; }
    }
  }

  lemma OnlyServed(env: Env, f: Feature, digest: string, got: Fetched, other: Fetched)
    requires PinnedTo(env.lock, f, digest) && !HasDigest(f.kind, got.resolvedRef, digest)
    requires StoredAt(env, f, digest, other) ==> other == got
    ensures !Serves(env, f, other)
  {}

  /** What a built-in feature depends on: what its label entry says, or, when that says nothing, what the artifact says that the image carries. */
  ghost predicate BuiltInNeeds(env: Env, f: Feature, deps: map<string, Options>) {
    match f.metadata.dependsOn
    case Some(d) => deps == d
    case None =>
      exists got: Fetched :: env.store(if f.kind == OCI && |f.resolvedRef| > 0 then f.resolvedRef else f.ref, f.kind) == Some(got) &&
        deps == match got.metadata.dependsOn case Some(d) => d case None => map[]
  }

  lemma BuiltInIs(env: Env, f: Feature, deps: map<string, Options>)
    ensures BakedDependsOn(env, f) == Some(deps) <==> BuiltInNeeds(env, f, deps)
  {}

  /** A turn on a built-in entry fetches nothing to install: it fails when no one knows what the entry depends on, and else records that in place. */
  lemma BuiltInTurn(env: Env, s: State)
    requires s.Running? && s.i < |s.features| && s.features[s.i].alreadyInstalled
    ensures var f, t := s.features[s.i], Step(env, s);
      && ((forall deps :: !BuiltInNeeds(env, f, deps)) ==> t == Failed(f.ref))
      && (t.Running? ==> exists deps :: BuiltInNeeds(env, f, deps) && NotesNeeds(s, t, deps))
  {
    var f, t := s.features[s.i], Step(env, s);
    forall deps ensures BakedDependsOn(env, f) == Some(deps) <==> BuiltInNeeds(env, f, deps) { BuiltInIs(env, f, deps); }
    if t.Running? { assert BuiltInNeeds(env, f, BakedDependsOn(env, f).value) && NotesNeeds(s, t, BakedDependsOn(env, f).value); }
  }

  /** The entry at the scan position stays, with these dependencies. */
  ghost predicate NotesNeeds(s: State, t: State, deps: map<string, Options>)
    requires s.Running? && s.i < |s.features| && t.Running?
  {
    var f := s.features[s.i];
    t.i == s.i + 1 && t.aliases == s.aliases && s.features[s.i := f.(metadata := f.metadata.(dependsOn := Some(deps)))] <= t.features
  }

  /** A locked feature whose artifact has another digest stops the call. */
  lemma OtherDigestFails(env: Env, s: State, digest: string, got: Fetched)
    requires Awaits(s) && PinnedTo(env.lock, s.features[s.i], digest) && !HasDigest(s.features[s.i].kind, got.resolvedRef, digest)
    requires StoredAt(env, s.features[s.i], digest, got)
    ensures Step(env, s) == Failed(s.features[s.i].ref)
  {
    var f := s.features[s.i];
    forall other ensures !Serves(env, f, other) { OnlyServed(env, f, digest, got, other); }
    FetchTurn(env, s);
  }

  // ---- what holds all along ----

  ghost predicate Bears(l: Lock, f: Feature) {
    forall digest :: PinnedTo(l, f, digest) ==> HasDigest(f.kind, f.resolvedRef, digest)
  }

  /** Every entry scanned, fetched or built in, and every one dropped bears the digest it is locked to; so does every built-in one to come. */
  ghost predicate AllBear(l: Lock, s: State) {
    s.Running? ==>
      && s.i <= |s.features|
      && (forall k :: 0 <= k < |s.features| && (k < s.i || s.features[k].alreadyInstalled) ==> Bears(l, s.features[k]))
      && (forall k :: 0 <= k < |s.aliases| ==> Bears(l, s.aliases[k]))
  }

  lemma InstalledBears(env: Env, f: Feature, got: Fetched, g: Feature)
    requires Serves(env, f, got) && InstalledFrom(f, got, g)
    ensures Bears(env.lock, g)
  {
    forall digest | PinnedTo(env.lock, g, digest) ensures HasDigest(g.kind, g.resolvedRef, digest) { assert PinnedTo(env.lock, f, digest); }
  }

  lemma FinalBears(env: Env, f: Feature, g: Feature)
    requires Fresh(f) && Finalizes(env, f, g) && (f.alreadyInstalled ==> Bears(env.lock, f))
    ensures Bears(env.lock, g)
  {
    if f.alreadyInstalled {
      forall digest | PinnedTo(env.lock, g, digest) ensures HasDigest(g.kind, g.resolvedRef, digest) { assert PinnedTo(env.lock, f, digest); }
    } else {
      FetchServes(env, f, Fetch(env, f).value);
      InstalledBears(env, f, Fetch(env, f).value, g);
    }
  }

  lemma GrewBears(l: Lock, s: State, t: State, g: Feature, deps: seq<Feature>)
    requires s.Running? && AllBear(l, s) && Grew(s, t, g, deps) && Bears(l, g)
    ensures AllBear(l, t)
  {
    forall m | 0 <= m < |deps| ensures !deps[m].alreadyInstalled { RequestFresh(g, deps[m]); }
    forall k | 0 <= k < |t.features| && (k < t.i || t.features[k].alreadyInstalled) ensures Bears(l, t.features[k]) {
      assert k < |s.features|;
      assert t.features[k] == if k == s.i then g else s.features[k];
    }
  }

  lemma DroppedBears(l: Lock, s: State, t: State, g: Feature)
    requires s.Running? && AllBear(l, s) && Dropped(s, t, g) && Bears(l, g)
    ensures AllBear(l, t)
  {
    forall k | 0 <= k < |t.features| && (k < t.i || t.features[k].alreadyInstalled) ensures Bears(l, t.features[k]) {
      assert t.features[k] == s.features[if k < s.i then k else k + 1];
    }
  }

  lemma StepBears(env: Env, s: State)
    requires Inv(s) && AllBear(env.lock, s) && !Done(s)
    ensures AllBear(env.lock, Step(env, s))
  {
    var t := Step(env, s);
    if t.Running? {
      var g, deps, kept := StepIs(env, s, t);
      FinalBears(env, s.features[s.i], g);
      if kept { GrewBears(env.lock, s, t, g, deps); } else { DroppedBears(env.lock, s, t, g); }
    }
  }

  lemma {:induction false} TurnsBear(worlds: seq<Env>, l: Lock, s: State)
    requires Inv(s) && AllBear(l, s) && forall k :: 0 <= k < |worlds| ==> worlds[k].lock == l
    ensures AllBear(l, IterateIn(worlds, s))
    decreases |worlds|
  {
    if worlds != [] && !Done(s) {
      StepInv(worlds[0], s);
      StepBears(worlds[0], s);
      TurnsBear(worlds[1..], l, Step(worlds[0], s));
    }
  }

  lemma {:induction false} IterateBears(env: Env, s: State, n: nat)
    requires Inv(s) && AllBear(env.lock, s)
    ensures AllBear(env.lock, Iterate(env, s, n))
    decreases n
  {
    if n > 0 && !Done(s) {
      StepInv(env, s);
      StepBears(env, s);
      IterateBears(env, Step(env, s), n - 1);
    }
  }

  // ---- what the base image has built in ----

  /** The image's own copy b may stand in for fetching f. */
  ghost predicate Takes(l: Lock, matches: (Metadata, Feature) -> bool, b: Metadata, f: Feature) {
    && f.kind == OCI && matches(b, f)
    && match l.mode
       case Disabled => true
       case Upgrade => false
       case _ => b.resolvedRef != "" && forall digest :: PinnedTo(l, f, digest) ==> HasDigest(f.kind, b.resolvedRef, digest)
  }

  lemma TakesIs(l: Lock, matches: (Metadata, Feature) -> bool, b: Metadata, f: Feature)
    ensures Takes(l, matches, b, f) <==> f.kind.OCI? && matches(b, f) && AcceptsBaked(l, f, b)
  {
    PinIs(l, f);
    if Pin(l, f).Some? { DigestIs(f.kind, b.resolvedRef, Pin(l, f).value.integrity); }
  }

  ghost predicate FirstTaken(l: Lock, matches: (Metadata, Feature) -> bool, baked: seq<Metadata>, f: Feature, k: nat) {
    k < |baked| && Takes(l, matches, baked[k], f) && forall j :: 0 <= j < k ==> !Takes(l, matches, baked[j], f)
  }

  lemma {:induction false} BakedIs(l: Lock, matches: (Metadata, Feature) -> bool, baked: seq<Metadata>, f: Feature)
    ensures var b := Baked(l, matches, baked, f);
      && (b.None? <==> forall k :: 0 <= k < |baked| ==> !Takes(l, matches, baked[k], f))
      && (b.Some? ==> exists k: nat :: FirstTaken(l, matches, baked, f, k) && baked[k] == b.value)
  {
    if f.kind.OCI? && baked != [] {
      TakesIs(l, matches, baked[0], f);
      var b := Baked(l, matches, baked, f);
      if Takes(l, matches, baked[0], f) {
        assert FirstTaken(l, matches, baked, f, 0);
      } else {
        BakedIs(l, matches, baked[1..], f);
        forall k | 0 < k < |baked| ensures baked[k] == baked[1..][k - 1] {}
        if b.Some? {
          var k: nat :| FirstTaken(l, matches, baked[1..], f, k) && baked[1..][k] == b.value;
          LaterTaken(l, matches, baked, f, k);
        } else {
          forall k | 0 <= k < |baked| ensures !Takes(l, matches, baked[k], f) { if k > 0 { assert !Takes(l, matches, baked[1..][k - 1], f); } }
        }
      }
    }
  }

  lemma LaterTaken(l: Lock, matches: (Metadata, Feature) -> bool, baked: seq<Metadata>, f: Feature, k: nat)
    requires baked != [] && !Takes(l, matches, baked[0], f) && FirstTaken(l, matches, baked[1..], f, k)
    ensures FirstTaken(l, matches, baked, f, k + 1)
  {
    forall j | 0 <= j < k + 1 ensures !Takes(l, matches, baked[j], f) { if j > 0 { assert !Takes(l, matches, baked[1..][j - 1], f); } }
  }

  ghost predicate TakenFrom(l: Lock, matches: (Metadata, Feature) -> bool, baked: seq<Metadata>, f: Feature, k: nat, m: Feature) {
    FirstTaken(l, matches, baked, f, k) && m == f.(alreadyInstalled := true, metadata := baked[k], resolvedRef := baked[k].resolvedRef)
  }

  /** A feature is taken from the image exactly when some label entry may stand in for it, and then as the first of these says. */
  lemma MarkedIs(l: Lock, matches: (Metadata, Feature) -> bool, baked: seq<Metadata>, f: Feature)
    requires !f.alreadyInstalled
    ensures var m := Marked(l, matches, baked, f);
      && (m.alreadyInstalled <==> exists k :: 0 <= k < |baked| && Takes(l, matches, baked[k], f))
      && (m.alreadyInstalled ==> exists k: nat :: TakenFrom(l, matches, baked, f, k, m))
      && (!m.alreadyInstalled ==> m == f)
  {
    BakedIs(l, matches, baked, f);
    var m, b := Marked(l, matches, baked, f), Baked(l, matches, baked, f);
    if b.Some? {
      var k: nat :| FirstTaken(l, matches, baked, f, k) && baked[k] == b.value;
      assert TakenFrom(l, matches, baked, f, k, m);
    }
  }

  lemma MarkedBears(l: Lock, matches: (Metadata, Feature) -> bool, baked: seq<Metadata>, f: Feature)
    requires !f.alreadyInstalled && (l.mode.Disabled? ==> l.existing.None?)
    ensures var m := Marked(l, matches, baked, f); m.alreadyInstalled ==> Bears(l, m)
  {
    MarkedIs(l, matches, baked, f);
    var m := Marked(l, matches, baked, f);
    if m.alreadyInstalled {
      var k: nat :| TakenFrom(l, matches, baked, f, k, m);
      forall digest | PinnedTo(l, m, digest) ensures HasDigest(m.kind, m.resolvedRef, digest) { assert PinnedTo(l, f, digest); }
    }
  }

  lemma MarkedStart(l: Lock, matches: (Metadata, Feature) -> bool, baked: seq<Metadata>, f: Feature)
    requires !f.alreadyInstalled && f.dir == "" && f.resolvedRef == "" && f.metadata == NoMetadata && (l.mode.Disabled? ==> l.existing.None?)
    ensures var m := Marked(l, matches, baked, f); Fresh(m) && (m.alreadyInstalled ==> Bears(l, m))
  {
    MarkedBears(l, matches, baked, f);
    MarkedIs(l, matches, baked, f);
  }

  /**
    Whatever a call reads and wherever references move meanwhile: every feature
    it has come to, taken from the image, fetched or dropped as a duplicate,
    bears the digest the lockfile locks its reference to.
   */
  lemma LockedDigests(l: Lock, matches: (Metadata, Feature) -> bool, baked: seq<Metadata>, fs: seq<Feature>, worlds: seq<Env>)
    requires l.mode.Disabled? ==> l.existing.None?
    requires forall k :: 0 <= k < |fs| ==> !fs[k].alreadyInstalled && fs[k].dir == "" && fs[k].resolvedRef == "" && fs[k].metadata == NoMetadata
    requires forall k :: 0 <= k < |worlds| ==> worlds[k].lock == l
    ensures AllBear(l, IterateIn(worlds, Start(MarkedAll(l, matches, baked, fs))))
  {
    var marked := MarkedAll(l, matches, baked, fs);
    forall k | 0 <= k < |fs| ensures Fresh(marked[k]) && (marked[k].alreadyInstalled ==> Bears(l, marked[k])) {
      MarkedStart(l, matches, baked, fs[k]);
    }
    StartInv(marked);
    TurnsBear(worlds, l, Start(marked));
  }

  // ---- what is requested ----

  ghost predicate Begins(r: string, p: string) { exists rest: string :: r == p + rest }

  lemma BeginsIs(r: string, p: string)
    ensures Begins(r, p) <==> p <= r
  {
    if p <= r { assert r == p + r[|p|..]; }
  }

  /** A reference is local, a URL or OCI by how it begins. */
  lemma KindIs(ref: string)
    ensures Classify(ref) == Local <==> Begins(ref, "./") || Begins(ref, "../") || Begins(ref, "/")
    ensures Classify(ref) == HTTPS <==> Begins(ref, "https://") || Begins(ref, "http://")
  {
    BeginsIs(ref, "./");
    BeginsIs(ref, "../");
    BeginsIs(ref, "/");
    BeginsIs(ref, "https://");
    BeginsIs(ref, "http://");
    if Begins(ref, "https://") || Begins(ref, "http://") { assert ref[0] == 'h'; }
    if Begins(ref, "./") || Begins(ref, "../") { assert ref[0] == '.'; }
    if Begins(ref, "/") { assert ref[0] == '/'; }
  }

  /** A request names the dependency's key and options, carries nothing yet, and is local, a URL or OCI by how the key begins. */
  lemma RequestIs(f: Feature, g: Feature)
    requires IsRequestOf(f, g)
    ensures f.metadata.dependsOn.Some? && g.ref in f.metadata.dependsOn.value && g.options == f.metadata.dependsOn.value[g.ref]
    ensures !g.unset && !g.alreadyInstalled && g.dir == "" && g.resolvedRef == "" && g.metadata == Metadata("", "", "", map[], [], None)
    ensures g.kind == Local <==> Begins(g.ref, "./") || Begins(g.ref, "../") || Begins(g.ref, "/")
    ensures g.kind == HTTPS <==> Begins(g.ref, "https://") || Begins(g.ref, "http://")
  {
    KindIs(g.ref);
  }

  // ---- what is recorded ----

  /** What an entry says of the artifact f resolved to. */
  ghost predicate EntryTells(f: Feature, e: Locked) {
    && e.version == f.metadata.version && HasDigest(f.kind, f.resolvedRef, e.integrity)
    && e.resolved == (match f.kind case OCI => f.resolvedRef case _ => f.ref)
    && (forall i, j :: 0 <= i < j < |e.dependsOn| ==> Less(e.dependsOn[i], e.dependsOn[j]))
    && (forall key :: key in e.dependsOn <==> f.metadata.dependsOn.Some? && key in f.metadata.dependsOn.value)
  }

  /** The entry for ref is that of the last feature in the list with this reference that is not local: its pin when the image has it, else what it resolved to. */
  ghost predicate RecordedAt(l: Lock, fs: seq<Feature>, ref: string, e: Locked, k: nat) {
    && k < |fs| && fs[k].ref == ref && fs[k].kind != Local && (forall j :: k < j < |fs| && fs[j].kind != Local ==> fs[j].ref != ref)
    && if fs[k].alreadyInstalled && IsPinned(l, fs[k]) then l.existing.Some? && ref in l.existing.value && e == l.existing.value[ref] else EntryTells(fs[k], e)
  }

  lemma RecordIs(l: Lock, f: Feature)
    ensures Recorded(l, f).Some? <==> f.kind != Local
    ensures f.kind != Local ==>
      if f.alreadyInstalled && IsPinned(l, f) then l.existing.Some? && f.ref in l.existing.value && Recorded(l, f).value == l.existing.value[f.ref]
      else EntryTells(f, Recorded(l, f).value)
  {
    PinIs(l, f);
    if f.kind != Local && !(f.alreadyInstalled && IsPinned(l, f)) {
      var e := EntryOf(f).value;
      DigestIs(f.kind, f.resolvedRef, e.integrity);
      KeysAscend(f.metadata.Dependencies().Keys);
    }
  }

  lemma KeysAscend(keys: set<string>)
    ensures forall i, j :: 0 <= i < j < |SortedKeys(keys)| ==> Less(SortedKeys(keys)[i], SortedKeys(keys)[j])
    ensures forall key :: key in SortedKeys(keys) <==> key in keys
  {
    var s := SortedKeys(keys);
    forall key ensures key in s <==> key in keys { assert key in Elements(s) <==> key in keys; }
    forall i, j | 0 <= i < j < |s| ensures Less(s[i], s[j]) { LessTotal(s[i], s[j]); }
  }

  /** The lockfile a call builds. */
  lemma {:induction false} NextLockfileIs(l: Lock, fs: seq<Feature>, ref: string)
    ensures var next := NextLockfile(l, fs);
      && (ref in next <==> exists k :: 0 <= k < |fs| && fs[k].ref == ref && fs[k].kind != Local)
      && (ref in next ==> exists k: nat :: RecordedAt(l, fs, ref, next[ref], k))
  {
    if fs != [] {
      var n := |fs| - 1;
      NextLockfileIs(l, fs[..n], ref);
      RecordIs(l, fs[n]);
      forall k | 0 <= k < n ensures fs[..n][k] == fs[k] {}
      var next, rest := NextLockfile(l, fs), NextLockfile(l, fs[..n]);
      if fs[n].ref == ref && fs[n].kind != Local {
        assert RecordedAt(l, fs, ref, next[ref], n);
      } else if ref in rest {
        var k: nat :| RecordedAt(l, fs[..n], ref, rest[ref], k);
        assert RecordedAt(l, fs, ref, next[ref], k);
      }
    }
  }
}
