/**
  The OCI feature cache: local first for digests and exact versions, online
  first for floating tags, over any history of fetches, tag moves, outages,
  failed records and lost entries. (feature/oci.go)
 */
module OciCache {
  import opened Prelude

  /** A parsed, lowercased reference. */
  datatype Ref = ByDigest(repo: string, digest: string) | ByTag(repo: string, tag: string)

  /** Which digest each tag is bound to. */
  type Registry = map<Ref, string>

  /** The extracted directory of a digest: whole, or without its install script or readable metadata. */
  datatype Extraction = Whole(content: string) | Partial

  /** The file named after a tag: a record of some reference, or something else. */
  datatype TagFile = Record(ref: Ref, digest: string) | Garbage

  /** The cache directory. */
  datatype Cache = Cache(extracted: map<string, Extraction>, tags: map<Ref, TagFile>)

  datatype Got = Got(resolvedRef: string, digest: string, content: string)

  /** What a call to the registry gets: no response, a response that cannot be used, an error response, or the artifact. */
  datatype Answer = Unreachable | Unusable | Denied | Served

  /** registryUnreachable: whatever carries no error status, a response that cannot be used included. */
  predicate TakenForOutage(a: Answer) { a.Unreachable? || a.Unusable? }

  /** How far an extraction comes: it fails beside the entry, it stops between removing what was there and the rename, or it ends. */
  datatype Extracting = Fails | Stops | Ends

  /** How one fetch turns out: the registry's answer, whether the caller gave up, whether the manifest is a feature's, how its extraction goes, whether the record is renamed into place. */
  datatype Fate = Fate(answer: Answer, cancelled: bool, isFeature: bool, extracting: Extracting, recorded: bool)

  predicate Digits(s: string) {
    s != "" && forall i :: 0 <= i < |s| ==> '0' <= s[i] <= '9'
  }

  /** isExactVersionTag: X.Y.Z in digits. */
  predicate IsExact(tag: string) {
    exists i, j :: 0 <= i < j < |tag| && tag[i] == '.' && tag[j] == '.' && Digits(tag[..i]) && Digits(tag[i + 1..j]) && Digits(tag[j + 1..])
  }

  /** Three numbers with dots between them. */
  ghost predicate IsVersion(tag: string) {
    exists x: string, y: string, z: string :: tag == x + "." + y + "." + z && Number(x) && Number(y) && Number(z)
  }

  ghost predicate Number(s: string) {
    |s| > 0 && forall c :: c in s ==> c in "0123456789"
  }

  lemma NumberIs(s: string)
    ensures Number(s) <==> Digits(s)
  {
    if Digits(s) {
      forall c | c in s ensures c in "0123456789" { var i :| 0 <= i < |s| && s[i] == c; Digit(c); }
    }
    if Number(s) {
      forall i | 0 <= i < |s| ensures '0' <= s[i] <= '9' { assert s[i] in s; Digit(s[i]); }
    }
  }

  lemma Digit(c: char)
    ensures c in "0123456789" <==> '0' <= c <= '9'
  {
    var d := "0123456789";
    if '0' <= c <= '9' { assert d[c as int - '0' as int] == c; }
  }

  lemma ExactIsVersion(tag: string)
    ensures IsExact(tag) <==> IsVersion(tag)
  {
    if i, j :| 0 <= i < j < |tag| && tag[i] == '.' && tag[j] == '.' && Digits(tag[..i]) && Digits(tag[i + 1..j]) && Digits(tag[j + 1..]) {
      NumberIs(tag[..i]);
      NumberIs(tag[i + 1..j]);
      NumberIs(tag[j + 1..]);
      assert tag == tag[..i] + "." + tag[i + 1..j] + "." + tag[j + 1..];
    }
    if x: string, y: string, z: string :| tag == x + "." + y + "." + z && Number(x) && Number(y) && Number(z) {
      VersionIsExact(tag, x, y, z);
    }
  }

  lemma VersionIsExact(tag: string, x: string, y: string, z: string)
    requires tag == x + "." + y + "." + z && Number(x) && Number(y) && Number(z)
    ensures IsExact(tag)
  {
    NumberIs(x);
    NumberIs(y);
    NumberIs(z);
    var i, j := |x|, |x| + 1 + |y|;
    assert tag[i] == '.' && tag[j] == '.' && tag[..i] == x && tag[i + 1..j] == y && tag[j + 1..] == z;
  }

  // ---- one fetch ----

  function Pinned(repo: string, digest: string): string { repo + "@" + digest }

  /** cachedOCI. */
  function CachedDigest(c: Cache, repo: string, digest: string): Option<Got> {
    if digest in c.extracted && c.extracted[digest].Whole? then Some(Got(Pinned(repo, digest), digest, c.extracted[digest].content)) else None
  }

  /** What a tag's file records of that tag. */
  function RecordOf(c: Cache, ref: Ref): Option<string> {
    if ref in c.tags && c.tags[ref].Record? && c.tags[ref].ref == ref then Some(c.tags[ref].digest) else None
  }

  /** cachedTag. */
  function CachedTag(c: Cache, ref: Ref): Option<Got> {
    if RecordOf(c, ref).Some? then CachedDigest(c, ref.repo, RecordOf(c, ref).value) else None
  }

  /** The lookup made before the registry is asked. */
  function LocalFirst(c: Cache, ref: Ref): Option<Got> {
    if ref.ByDigest? then CachedDigest(c, ref.repo, ref.digest)
    else if IsExact(ref.tag) then CachedTag(c, ref)
    else None
  }

  /** The digest the registry would serve for a reference. */
  function Names(r: Registry, ref: Ref): Option<string> {
    if ref.ByDigest? then Some(ref.digest) else if ref in r then Some(r[ref]) else None
  }

  /** extractOCI: the cached extraction, or a new one moved into place whole. */
  function Extract(c: Cache, content: string -> string, digest: string, f: Fate): (Cache, bool) {
    if CachedDigest(c, "", digest).Some? then (c, true)
    else
      match f.extracting
      case Fails => (c, false)
      case Stops => (c.(extracted := c.extracted - {digest}), false)
      case Ends => (c.(extracted := c.extracted[digest := Whole(content(digest))]), true)
  }

  /** recordTag. */
  function Renamed(c: Cache, ref: Ref, digest: string, f: Fate): Cache {
    if f.recorded then c.(tags := c.tags[ref := Record(ref, digest)]) else c
  }

  /**
    However an extraction goes, what was served before is served unchanged, what
    is served anew is the digest's content, nothing partial is ever put in place,
    and it reports success exactly when its digest is then served.
   */
  lemma ExtractionIsAtomic(c: Cache, content: string -> string, digest: string, f: Fate, repo: string, d: string)
    ensures var (c', ok) := Extract(c, content, digest, f);
      && (CachedDigest(c, repo, d).Some? ==> CachedDigest(c', repo, d) == CachedDigest(c, repo, d))
      && (CachedDigest(c, repo, d).None? && CachedDigest(c', repo, d).Some? ==> d == digest && CachedDigest(c', repo, d).value.content == content(d))
      && (d in c'.extracted && c'.extracted[d].Partial? ==> d in c.extracted && c.extracted[d].Partial?)
      && (ok <==> CachedDigest(c', repo, digest).Some?) && c'.tags == c.tags
  {}

  /** A tag's record is read back as written, survives a record that fails, and is not read under another tag's name. */
  lemma RecordIsReadBack(c: Cache, ref: Ref, digest: string, f: Fate, other: Ref)
    ensures var c' := Renamed(c, ref, digest, f);
      && RecordOf(c', ref) == (if f.recorded then Some(digest) else RecordOf(c, ref))
      && (other != ref ==> RecordOf(c', other) == RecordOf(c, other)) && c'.extracted == c.extracted
      && RecordOf(c'.(tags := c'.tags[other := Record(ref, digest)]), other) == (if other == ref then Some(digest) else None)
  {}

  datatype Result = Result(cache: Cache, got: Option<Got>, asked: bool, recorded: bool)

  /** fetchOCI. */
  function Fetch(c: Cache, content: string -> string, r: Registry, ref: Ref, f: Fate): Result {
    if LocalFirst(c, ref).Some? then Result(c, LocalFirst(c, ref), false, false)
    else if TakenForOutage(f.answer) then
      Result(c, if ref.ByTag? && !f.cancelled then CachedTag(c, ref) else None, true, false)
    else if f.answer.Denied? || Names(r, ref).None? || !f.isFeature then Result(c, None, true, false)
    else
      var digest := Names(r, ref).value;
      var (c', ok) := Extract(c, content, digest, f);
      if !ok then Result(c', None, true, false)
      else if ref.ByTag? then Result(Renamed(c', ref, digest, f), CachedDigest(c', ref.repo, digest), true, f.recorded)
      else Result(c', CachedDigest(c', ref.repo, digest), true, false)
  }

  // ---- the store ----

  /** DiskStore, with the registry it talks to given call by call. */
  class DiskStore {
    var extracted: map<string, Extraction>
    var tags: map<Ref, TagFile>

    function Value(): Cache
      reads this
    {
      Cache(extracted, tags)
    }

    constructor ()
      ensures Value() == Cache(map[], map[])
    {
      extracted, tags := map[], map[];
    }

    /** Writes beside the record, then renames over it. */
    method RecordTag(ref: Ref, digest: string, f: Fate)
      modifies this`tags
      ensures Value() == Renamed(old(Value()), ref, digest, f)
    {
      var temporary := Record(ref, digest);
      if !f.recorded { return; }
      tags := tags[ref := temporary];
    }

    /** Extracts beside the entry, checks it, removes what was there and renames. */
    method ExtractOCI(content: string -> string, repo: string, digest: string, f: Fate) returns (got: Option<Got>)
      modifies this`extracted
      ensures var (c, ok) := Extract(old(Value()), content, digest, f);
        Value() == c && got == if ok then CachedDigest(c, repo, digest) else None
    {
      got := CachedDigest(Value(), repo, digest);
      if got.Some? { return; }
      if f.extracting.Fails? { return; }
      var temporary := Whole(content(digest));
      extracted := extracted - {digest};
      if f.extracting.Stops? { return; }
      extracted := extracted[digest := temporary];
      assert extracted == old(extracted)[digest := temporary];
      got := CachedDigest(Value(), repo, digest);
    }

    method FetchOCI(content: string -> string, r: Registry, ref: Ref, f: Fate) returns (got: Option<Got>, asked: bool, recorded: bool)
      modifies this
      ensures Result(Value(), got, asked, recorded) == Fetch(old(Value()), content, r, ref, f)
    {
      asked, recorded := false, false;
      match ref {
        case ByDigest(repo, digest) =>
          got := CachedDigest(Value(), repo, digest);
          if got.Some? { return; }
        case ByTag(_, tag) =>
          if IsExact(tag) {
            got := CachedTag(Value(), ref);
            if got.Some? { return; }
          }
      }
      asked := true;
      var digest := Names(r, ref);
      if !f.answer.Served? || digest.None? {
        got := None;
        if TakenForOutage(f.answer) && ref.ByTag? && !f.cancelled { got := CachedTag(Value(), ref); }
        return;
      }
      if !f.isFeature { return None, asked, recorded; }
      got := ExtractOCI(content, ref.repo, digest.value, f);
      if got.None? { return; }
      if ref.ByTag? {
        RecordTag(ref, digest.value, f);
        recorded := f.recorded;
      }
    }
  }

  // ---- histories ----

  /** Asked(ref): the registry was contacted; Recorded(ref, bound): a record was written while the registry bound ref to bound. */
  datatype Event = Asked(ref: Ref) | Recorded(ref: Ref, bound: string)

  datatype World = World(cache: Cache, registry: Registry, log: seq<Event>)

  datatype Act =
    | Pull(ref: Ref, fate: Fate)         // a fetch
    | Move(ref: Ref, digest: string)     // the registry binds a tag
    | Unbind(ref: Ref)                   // ... or drops it
    | Evict(digest: string)              // a cache entry disappears
    | Damage(digest: string)             // ... or loses its script or metadata
    | Forget(ref: Ref)                   // a tag record disappears
    | Spoil(ref: Ref, file: TagFile)     // ... or is overwritten by what does not record the tag

  function Apply(w: World, content: string -> string, a: Act): World {
    match a
    case Pull(ref, fate) =>
      var x := Fetch(w.cache, content, w.registry, ref, fate);
      var asked := if x.asked then w.log + [Asked(ref)] else w.log;
      w.(cache := x.cache, log := if x.recorded && ref in w.registry then asked + [Recorded(ref, w.registry[ref])] else asked)
    case Move(ref, digest) => w.(registry := w.registry[ref := digest])
    case Unbind(ref) => w.(registry := w.registry - {ref})
    case Evict(digest) => w.(cache := w.cache.(extracted := w.cache.extracted - {digest}))
    case Damage(digest) => w.(cache := w.cache.(extracted := w.cache.extracted[digest := Partial]))
    case Forget(ref) => w.(cache := w.cache.(tags := w.cache.tags - {ref}))
    case Spoil(ref, file) => if file.Record? && file.ref == ref then w else w.(cache := w.cache.(tags := w.cache.tags[ref := file]))
  }

  function After(w: World, content: string -> string, acts: seq<Act>): World
    decreases |acts|
  {
    if acts == [] then w else After(Apply(w, content, acts[0]), content, acts[1..])
  }

  function Fresh(r: Registry): World { World(Cache(map[], map[]), r, []) }

  /** The last record written for a tag, read back from the log. */
  ghost function LastRecord(log: seq<Event>, ref: Ref): Option<Event> {
    if log == [] then None
    else
      var n := |log| - 1;
      if log[n].Recorded? && log[n].ref == ref then Some(log[n]) else LastRecord(log[..n], ref)
  }

  /** Every extraction is its digest's content; every tag record is the last one written, and named what the registry bound the tag to then. */
  ghost predicate Inv(w: World, content: string -> string) {
    && (forall d :: d in w.cache.extracted && w.cache.extracted[d].Whole? ==> w.cache.extracted[d].content == content(d))
    && (forall ref :: RecordOf(w.cache, ref).Some? ==> ref.ByTag? && LastRecord(w.log, ref) == Some(Recorded(ref, RecordOf(w.cache, ref).value)))
  }

  lemma LastRecordSnoc(log: seq<Event>, e: Event, ref: Ref)
    ensures LastRecord(log + [e], ref) == if e.Recorded? && e.ref == ref then Some(e) else LastRecord(log, ref)
  {
    assert (log + [e])[..|log|] == log;
  }

  lemma PullInv(w: World, content: string -> string, ref: Ref, fate: Fate)
    requires Inv(w, content)
    ensures Inv(Apply(w, content, Pull(ref, fate)), content)
  {
    var x := Fetch(w.cache, content, w.registry, ref, fate);
    var t := Apply(w, content, Pull(ref, fate));
    var asked := if x.asked then w.log + [Asked(ref)] else w.log;
    forall tag | RecordOf(t.cache, tag).Some? ensures tag.ByTag? && LastRecord(t.log, tag) == Some(Recorded(tag, RecordOf(t.cache, tag).value)) {
      if x.asked { LastRecordSnoc(w.log, Asked(ref), tag); }
      if x.recorded { LastRecordSnoc(asked, Recorded(ref, w.registry[ref]), tag); }
    }
  }

  lemma StepInv(w: World, content: string -> string, a: Act)
    requires Inv(w, content)
    ensures Inv(Apply(w, content, a), content)
  {
    if a.Pull? { PullInv(w, content, a.ref, a.fate); }
    else {
      var t := Apply(w, content, a);
      assert forall tag :: RecordOf(t.cache, tag).Some? ==> RecordOf(w.cache, tag) == RecordOf(t.cache, tag);
    }
  }

  lemma {:induction false} HistoryInv(w: World, content: string -> string, acts: seq<Act>)
    requires Inv(w, content)
    ensures Inv(After(w, content, acts), content)
    decreases |acts|
  {
    if acts != [] {
      StepInv(w, content, acts[0]);
      HistoryInv(Apply(w, content, acts[0]), content, acts[1..]);
    }
  }

  // ---- what a fetch may return ----

  /** After any history, whatever a fetch returns is the content of the digest it names; a digest reference returns its own digest. */
  lemma FetchesContent(r: Registry, content: string -> string, acts: seq<Act>, ref: Ref, fate: Fate)
    ensures var w := After(Fresh(r), content, acts);
      var x := Fetch(w.cache, content, w.registry, ref, fate);
      x.got.Some? ==>
        && x.got.value.content == content(x.got.value.digest) && x.got.value.resolvedRef == ref.repo + "@" + x.got.value.digest
        && (ref.ByDigest? ==> x.got.value.digest == ref.digest)
  {
    HistoryInv(Fresh(r), content, acts);
  }

  /** The call failed without an error status, and the caller still waits. */
  predicate FallsBack(f: Fate) { f.answer in {Unreachable, Unusable} && !f.cancelled }

  /**
    After any history, a tag yields the digest the registry binds it to now, or
    the one it bound it to when the last record was written; a floating tag
    yields the recorded one only when the call fails without an error status.
   */
  lemma TagYields(r: Registry, content: string -> string, acts: seq<Act>, ref: Ref, fate: Fate)
    requires ref.ByTag?
    ensures var w := After(Fresh(r), content, acts);
      var x := Fetch(w.cache, content, w.registry, ref, fate);
      x.got.Some? ==>
        var d := x.got.value.digest;
        || (x.asked && ref in w.registry && d == w.registry[ref])
        || (LastRecord(w.log, ref) == Some(Recorded(ref, d)) && (IsVersion(ref.tag) || (x.asked && FallsBack(fate))))
  {
    ExactIsVersion(ref.tag);
    HistoryInv(Fresh(r), content, acts);
  }

  /**
    When a floating tag is answered from its record: exactly when the call fails
    without an error status and the record's content is there. Otherwise it yields
    what the registry serves, or nothing.
   */
  lemma FloatingFollowsRegistry(r: Registry, content: string -> string, acts: seq<Act>, ref: Ref, fate: Fate)
    requires ref.ByTag? && !IsVersion(ref.tag)
    ensures var w := After(Fresh(r), content, acts);
      var x := Fetch(w.cache, content, w.registry, ref, fate);
      && x.asked
      && (FallsBack(fate) ==> x.got == CachedTag(w.cache, ref))
      && (FallsBack(fate) && x.got.Some? ==> LastRecord(w.log, ref) == Some(Recorded(ref, x.got.value.digest)))
      && (!FallsBack(fate) && x.got.Some? ==> fate.answer.Served? && ref in w.registry && x.got.value.digest == w.registry[ref])
  {
    ExactIsVersion(ref.tag);
    HistoryInv(Fresh(r), content, acts);
  }

  /**
    After any history, a registry that answers with a feature that extracts is
    followed: a digest yields its content, a floating tag that of the digest the
    tag is bound to, and an exact version that one or its record's.
   */
  lemma GoodAnswerServes(r: Registry, content: string -> string, acts: seq<Act>, ref: Ref, fate: Fate)
    requires fate.answer.Served? && fate.isFeature && fate.extracting.Ends?
    ensures var w := After(Fresh(r), content, acts);
      var got := Fetch(w.cache, content, w.registry, ref, fate).got;
      match ref
      case ByDigest(repo, d) => got == Some(Got(repo + "@" + d, d, content(d)))
      case ByTag(repo, tag) =>
        ref in w.registry ==>
          || got == Some(Got(repo + "@" + w.registry[ref], w.registry[ref], content(w.registry[ref])))
          || (IsVersion(tag) && exists d :: LastRecord(w.log, ref) == Some(Recorded(ref, d)) && got == Some(Got(repo + "@" + d, d, content(d))))
  {
    HistoryInv(Fresh(r), content, acts);
    if ref.ByTag? { ExactIsVersion(ref.tag); }
  }

  /** A response that cannot be used: the registry answers and binds the tag to something else, and the record is served all the same. */
  lemma UnusableServesRecord(content: string -> string, ref: Ref, older: string, newer: string, fate: Fate)
    requires ref.ByTag? && !IsVersion(ref.tag) && older != newer && fate.answer.Unusable? && !fate.cancelled
    ensures var acts := [Pull(ref, Fate(Served, false, true, Ends, true)), Move(ref, newer)];
      var w := After(Fresh(map[ref := older]), content, acts);
      && Names(w.registry, ref) == Some(newer) && Fetch(w.cache, content, w.registry, ref, fate).got == Some(Got(ref.repo + "@" + older, older, content(older)))
  {
    ExactIsVersion(ref.tag);
    var w0 := Fresh(map[ref := older]);
    var pull, move := Pull(ref, Fate(Served, false, true, Ends, true)), Move(ref, newer);
    assert [pull, move][1..] == [move] && [move][1..] == [];
    assert After(w0, content, [pull, move]) == After(Apply(w0, content, pull), content, [move]);
    assert After(Apply(w0, content, pull), content, [move]) == Apply(Apply(w0, content, pull), content, move);
  }

  // ---- exact versions ----

  /** The act leaves the record of ref and the content of d on disk. */
  predicate Retains(a: Act, ref: Ref, d: string) {
    (a.Evict? || a.Damage? ==> a.digest != d) && (a.Forget? || a.Spoil? ==> a.ref != ref)
  }

  ghost predicate Held(w: World, ref: Ref, d: string) {
    RecordOf(w.cache, ref) == Some(d) && d in w.cache.extracted && w.cache.extracted[d].Whole?
  }

  lemma HeldStep(w: World, content: string -> string, a: Act, ref: Ref, d: string)
    requires ref.ByTag? && IsExact(ref.tag) && Held(w, ref, d) && Retains(a, ref, d)
    ensures Held(Apply(w, content, a), ref, d)
  {}

  /** The history never asks the registry about ref. */
  ghost predicate NeverAsks(w: World, content: string -> string, acts: seq<Act>, ref: Ref)
    decreases |acts|
  {
    acts == [] ||
    ((acts[0].Pull? && acts[0].ref == ref ==> !Fetch(w.cache, content, w.registry, ref, acts[0].fate).asked) &&
     NeverAsks(Apply(w, content, acts[0]), content, acts[1..], ref))
  }

  /** Once an exact version is recorded and its content kept, it is served from disk for good, whatever the registry does. */
  lemma {:induction false} ExactStaysLocal(w: World, content: string -> string, acts: seq<Act>, ref: Ref, d: string)
    requires ref.ByTag? && IsVersion(ref.tag) && Held(w, ref, d) && forall k :: 0 <= k < |acts| ==> Retains(acts[k], ref, d)
    ensures NeverAsks(w, content, acts, ref) && Held(After(w, content, acts), ref, d)
    ensures forall fate :: var x := Fetch(After(w, content, acts).cache, content, After(w, content, acts).registry, ref, fate);
      !x.asked && x.got.Some? && x.got.value.digest == d
    decreases |acts|
  {
    ExactIsVersion(ref.tag);
    if acts != [] {
      HeldStep(w, content, acts[0], ref, d);
      ExactStaysLocal(Apply(w, content, acts[0]), content, acts[1..], ref, d);
    }
  }

  /** A fetch that reaches the registry and is recorded puts an exact version in that state. */
  lemma RecordedIsHeld(w: World, content: string -> string, ref: Ref, fate: Fate)
    requires ref.ByTag? && fate.answer.Served? && fate.isFeature && fate.extracting.Ends? && fate.recorded && ref in w.registry && LocalFirst(w.cache, ref).None?
    ensures Held(Apply(w, content, Pull(ref, fate)), ref, w.registry[ref])
  {}
}
