/** Lockfile entries and the decisions one call takes from them. (lockfile.go, feature/lockfile.go) */
module Locking {
  import opened Prelude
  import opened Ordering
  import opened FeatureModel

  datatype Locked = Locked(version: string, resolved: string, integrity: string, dependsOn: seq<string>)

  type Lockfile = map<string, Locked>

  datatype Mode = Default | Frozen | Disabled | Upgrade

  /** One call's view of the lockfile; existing is None when there is no file, or the mode does not read it. */
  datatype Lock = Lock(mode: Mode, existing: Option<Lockfile>)

  datatype Fetched = Fetched(dir: string, resolvedRef: string, metadata: Metadata)

  /** loadFeatureLock: a frozen call fails before any fetch when there is no lockfile. */
  function LoadLock(mode: Mode, file: Option<Lockfile>): (r: Option<Lock>)
    ensures r.None? <==> mode.Frozen? && file.None?
    ensures r.Some? ==> r.value.mode == mode && (r.value.existing.Some? <==> file.Some? && mode != Disabled)
    ensures r.Some? && r.value.existing.Some? ==> r.value.existing == file
  {
    if mode.Disabled? then Some(Lock(mode, None))
    else if mode.Frozen? && file.None? then None
    else Some(Lock(mode, file))
  }

  function Entries(l: Lock): Lockfile {
    if l.existing.Some? then l.existing.value else map[]
  }

  function Pin(l: Lock, f: Feature): Option<Locked> {
    if l.mode.Upgrade? || f.kind.Local? || l.existing.None? || f.ref !in l.existing.value then None
    else Some(l.existing.value[f.ref])
  }

  /** The digest of an OCI repo@digest, or the resolved reference itself. */
  function Integrity(kind: SourceKind, resolvedRef: string): string {
    var at := LastIndex(resolvedRef, '@');
    if kind.OCI? && at >= 0 then resolvedRef[at + 1..] else resolvedRef
  }

  /** acceptsBaked: whether the image's own copy may stand in for fetching f. */
  predicate AcceptsBaked(l: Lock, f: Feature, baked: Metadata) {
    match l.mode
    case Disabled => true
    case Upgrade => false
    case _ =>
      baked.resolvedRef != "" &&
      (Pin(l, f).None? || Integrity(f.kind, baked.resolvedRef) == Pin(l, f).value.integrity)
  }

  /** Lock: what is recorded of an artifact; nothing for a local feature. */
  ghost function Entry(kind: SourceKind, ref: string, resolvedRef: string, version: string, deps: set<string>): Option<Locked> {
    match kind
    case OCI => Some(Locked(version, resolvedRef, Integrity(kind, resolvedRef), SortedKeys(deps)))
    case HTTPS => Some(Locked(version, ref, Integrity(kind, resolvedRef), SortedKeys(deps)))
    case Local => None
  }

  ghost function EntryOf(f: Feature): Option<Locked> {
    Entry(f.kind, f.ref, f.resolvedRef, f.metadata.version, f.metadata.Dependencies().Keys)
  }

  method LockEntry(f: Feature) returns (r: Option<Locked>)
    ensures r == EntryOf(f)
  {
    match f.kind {
      case Local => r := None;
      case _ =>
        var deps := SortStrings(f.metadata.Dependencies().Keys);
        var resolved := if f.kind.OCI? then f.resolvedRef else f.ref;
        r := Some(Locked(f.metadata.version, resolved, Integrity(f.kind, f.resolvedRef), deps));
    }
  }

  /** The entry commit records for f: its pin if the image carries it, else what it resolved to. */
  ghost function Recorded(l: Lock, f: Feature): Option<Locked> {
    if f.alreadyInstalled && Pin(l, f).Some? then Pin(l, f) else EntryOf(f)
  }

  /** The map commit builds: for each reference the entry of its last recorded feature. */
  ghost function NextLockfile(l: Lock, fs: seq<Feature>): Lockfile {
    if fs == [] then map[]
    else
      var n := |fs| - 1;
      var rest := NextLockfile(l, fs[..n]);
      if Recorded(l, fs[n]).Some? then rest[fs[n].ref := Recorded(l, fs[n]).value] else rest
  }

  datatype CommitResult = Unchanged | Written(file: Lockfile) | Mismatch(changed: seq<string>)

  /** The keys added, removed or re-pinned between two lockfiles. */
  ghost function ChangedKeys(l: Lockfile, o: Lockfile): (r: set<string>)
    ensures r == {} <==> l == o
  {
    var r := (set k | k in l && (k !in o || o[k] != l[k])) + (set k | k in o && k !in l);
    assert r == {} ==> l == o by {
      if r == {} {
        forall k | k in l ensures k in o && o[k] == l[k] { assert k !in r; }
        forall k | k in o ensures k in l { assert k !in r; }
      }
    }
    r
  }

  ghost predicate Differs(l: Lockfile, o: Lockfile, k: string) { k in l && (k !in o || o[k] != l[k]) }

  method Differing(l: Lockfile, o: Lockfile) returns (found: set<string>)
    ensures forall k :: k in found <==> Differs(l, o, k)
  {
    found := {};
    var todo := l.Keys;
    while todo != {}
      invariant todo <= l.Keys && forall k :: k in found <==> k !in todo && Differs(l, o, k)
      decreases |todo|
    {
      var k :| k in todo;
      if k !in o || o[k] != l[k] { found := found + {k}; }
      todo := todo - {k};
    }
  }

  /** Changed: the keys of l that differ in o, then those of o that l lacks, each in any order, sorted at the end. */
  method Changed(l: Lockfile, o: Lockfile) returns (changed: seq<string>)
    ensures changed == SortedKeys(ChangedKeys(l, o))
  {
    var differing := Differing(l, o);
    var found := differing;
    var todo := o.Keys;
    while todo != {}
      invariant todo <= o.Keys && forall k :: k in found <==> k in differing || (k in o && k !in todo && k !in l)
      decreases |todo|
    {
      var k :| k in todo;
      if k !in l { found := found + {k}; }
      todo := todo - {k};
    }
    assert found == ChangedKeys(l, o) by { assert forall k :: k in found <==> Differs(l, o, k) || (k in o && k !in l); }
    changed := SortStrings(found);
  }

  /** Equal: no lockfile equals only no lockfile. */
  method Equal(l: Option<Lockfile>, o: Option<Lockfile>) returns (same: bool)
    ensures same <==> l == o
  {
    if l.None? || o.None? { return l.None? && o.None?; }
    var changed := Changed(l.value, o.value);
    if ChangedKeys(l.value, o.value) != {} { SortedNonEmpty(ChangedKeys(l.value, o.value)); }
    return changed == [];
  }

  /** commit: writes in default and upgrade mode when something differs, reports in frozen mode. */
  method Commit(l: Lock, fs: seq<Feature>) returns (r: CommitResult)
    ensures l.mode.Disabled? ==> r == Unchanged
    ensures !l.mode.Disabled? ==> (r == Unchanged <==> l.existing == Some(NextLockfile(l, fs)))
    ensures !l.mode.Disabled? && r != Unchanged ==>
      r == if l.mode.Frozen? then Mismatch(SortedKeys(ChangedKeys(NextLockfile(l, fs), Entries(l)))) else Written(NextLockfile(l, fs))
  {
    if l.mode.Disabled? { return Unchanged; }
    var next: Lockfile := map[];
    for i := 0 to |fs|
      invariant next == NextLockfile(l, fs[..i])
    {
      assert fs[..i + 1][..i] == fs[..i];
      var pin := Pin(l, fs[i]);
      if fs[i].alreadyInstalled && pin.Some? {
        next := next[fs[i].ref := pin.value];
      } else {
        var entry := LockEntry(fs[i]);
        if entry.Some? { next := next[fs[i].ref := entry.value]; }
      }
    }
    assert fs[..|fs|] == fs;
    var same := Equal(Some(next), l.existing);
    if same { return Unchanged; }
    if l.mode.Frozen? {
      var changed := Changed(next, Entries(l));
      return Mismatch(changed);
    }
    return Written(next);
  }

  /** commitNoFeatures: entries left by removed features are stale, so they are dropped, or reported in frozen mode. */
  method CommitNoFeatures(mode: Mode, file: Option<Lockfile>) returns (r: CommitResult)
    ensures r == Unchanged <==> mode.Disabled? || file.None? || file.value == map[]
    ensures r != Unchanged ==> r == if mode.Frozen? then Mismatch(SortedKeys(file.value.Keys)) else Written(map[])
  {
    if mode.Disabled? || file.None? { return Unchanged; }
    r := Commit(Lock(mode, file), []);
    assert ChangedKeys(map[], file.value) == file.value.Keys;
  }
}
