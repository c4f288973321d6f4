/** mergePath: remote PATH entries worked into the probed PATH. (userenvprobe.go:158-186) */
module PathMerge {
  import opened Prelude
  import opened PathText

  type Allowed = string -> bool

  function IsRootUser(u: string): bool { u == "root" || u == "0" || u == "" }

  predicate HasAt(s: string, i: nat, t: string) { i + |t| <= |s| && s[i..i + |t|] == t }

  /** The expression /sbin(/|$). */
  predicate HasSbin(e: string) {
    exists i: nat :: i <= |e| && SbinAt(e, i)
  }

  predicate SbinAt(e: string, i: nat) { HasAt(e, i, "/sbin") && (i + 5 == |e| || e[i + 5] == '/') }

  function AllowedFor(user: string): Allowed { (e: string) => IsRootUser(user) || !HasSbin(e) }

  /** slices.Index: the first position of x, or -1. */
  function IndexOf<T(==)>(s: seq<T>, x: T): (i: int)
    ensures -1 <= i < |s| && (i == -1 <==> x !in s)
    ensures i >= 0 ==> s[i] == x && forall k :: 0 <= k < i ==> s[k] != x
  {
    if s == [] then -1 else if s[0] == x then 0
    else
      var i := IndexOf(s[1..], x);
      assert i >= 0 ==> forall k :: 0 < k < i + 1 ==> s[k] == s[1..][k - 1];
      if i == -1 then -1 else i + 1
  }

  function Insert<T>(s: seq<T>, at: nat, x: T): seq<T>
    requires at <= |s|
  {
    s[..at] + [x] + s[at..]
  }

  datatype Cursor<T> = Cursor(tokens: seq<T>, at: nat)

  /** One remote entry: found, inserted at the cursor, or passed over. */
  function Step<T(==)>(c: Cursor<T>, e: T, ok: T -> bool): (r: Cursor<T>)
    requires c.at <= |c.tokens|
    ensures r.at <= |r.tokens|
  {
    var i := IndexOf(c.tokens, e);
    if i >= 0 then Cursor(c.tokens, i + 1)
    else if ok(e) then Cursor(Insert(c.tokens, c.at, e), c.at + 1)
    else c
  }

  /** The loop of mergePath over tokens, from a given cursor. */
  function Merge<T(==)>(tokens: seq<T>, at: nat, remote: seq<T>, ok: T -> bool): seq<T>
    requires at <= |tokens|
    decreases |remote|
  {
    if remote == [] then tokens
    else
      var c := Step(Cursor(tokens, at), remote[0], ok);
      Merge(c.tokens, c.at, remote[1..], ok)
  }

  lemma StepMerges<T(!new)>(c: Cursor<T>, rest: seq<T>, ok: T -> bool)
    requires c.at <= |c.tokens| && rest != []
    ensures var d := Step(c, rest[0], ok); d.at <= |d.tokens| && Merge(c.tokens, c.at, rest, ok) == Merge(d.tokens, d.at, rest[1..], ok)
  {}

  function MergePath(probed: string, remote: string, user: string): string {
    Join(Merge(Split(probed), 0, Split(remote), AllowedFor(user)))
  }

  method MergePathText(probed: string, remote: string, remoteUser: string) returns (r: string)
    ensures r == MergePath(probed, remote, remoteUser)
  {
    var tokens := Split(probed);
    var insertAt: nat := 0;
    var root := IsRootUser(remoteUser);
    var entries := Split(remote);
    ghost var ok := AllowedFor(remoteUser);
    for k := 0 to |entries|
      invariant insertAt <= |tokens|
      invariant Merge(Split(probed), 0, entries, ok) == Merge(tokens, insertAt, entries[k..], ok)
    {
      var e := entries[k];
      assert entries[k..][0] == e && entries[k..][1..] == entries[k + 1..];
      StepMerges(Cursor(tokens, insertAt), entries[k..], ok);
      ghost var next := Step(Cursor(tokens, insertAt), e, ok);
      var i := IndexOf(tokens, e);
      if i == -1 {
        if root || !HasSbin(e) {
          tokens := Insert(tokens, insertAt, e);
          insertAt := insertAt + 1;
        }
      } else {
        insertAt := i + 1;
      }
      assert next == Cursor(tokens, insertAt);
    }
    r := Join(tokens);
  }

  // ---- what is kept and what is added ----

  /** s can be read inside t in order: at lists the places. */
  ghost predicate Embeds<T(!new)>(s: seq<T>, t: seq<T>, at: seq<nat>) {
    && |at| == |s| && (forall k :: 0 <= k < |s| ==> at[k] < |t| && t[at[k]] == s[k])
    && forall j, k :: 0 <= j < k < |at| ==> at[j] < at[k]
  }

  ghost predicate Subsequence<T(!new)>(s: seq<T>, t: seq<T>) {
    exists at: seq<nat> :: Embeds(s, t, at)
  }

  lemma EmbedsInsert<T(!new)>(s: seq<T>, t: seq<T>, places: seq<nat>, at: nat, x: T) returns (places': seq<nat>)
    requires Embeds(s, t, places) && at <= |t|
    ensures Embeds(s, Insert(t, at, x), places')
  {
    places' := seq(|places|, k requires 0 <= k < |places| => if places[k] < at then places[k] else places[k] + 1);
  }

  lemma {:induction false} MergeEmbeds<T(!new)>(s: seq<T>, tokens: seq<T>, places: seq<nat>, at: nat, remote: seq<T>, ok: T -> bool)
    requires at <= |tokens| && Embeds(s, tokens, places)
    ensures Subsequence(s, Merge(tokens, at, remote, ok))
    decreases |remote|
  {
    if remote != [] {
      var i := IndexOf(tokens, remote[0]);
      if i >= 0 { MergeEmbeds(s, tokens, places, i + 1, remote[1..], ok); }
      else if ok(remote[0]) {
        var places' := EmbedsInsert(s, tokens, places, at, remote[0]);
        MergeEmbeds(s, Insert(tokens, at, remote[0]), places', at + 1, remote[1..], ok);
      } else { MergeEmbeds(s, tokens, places, at, remote[1..], ok); }
    }
  }

  /** Every probed entry stays, in its order. */
  lemma ProbedKept<T(!new)>(probed: seq<T>, remote: seq<T>, ok: T -> bool)
    ensures Subsequence(probed, Merge(probed, 0, remote, ok))
  {
    var places: seq<nat> := seq(|probed|, k requires 0 <= k < |probed| => k);
    MergeEmbeds(probed, probed, places, 0, remote, ok);
  }

  /** The remote entries that have to be added. */
  ghost function Missing<T(!new)>(tokens: seq<T>, remote: seq<T>, ok: T -> bool): set<T> {
    set e | e in remote && e !in tokens && ok(e)
  }

  lemma InsertCounts<T(!new)>(s: seq<T>, at: nat, x: T)
    requires at <= |s|
    ensures multiset(Insert(s, at, x)) == multiset(s) + multiset{x}
  {
    assert s == s[..at] + s[at..];
  }

  lemma MissingFound<T(!new)>(tokens: seq<T>, remote: seq<T>, ok: T -> bool)
    requires remote != [] && (remote[0] in tokens || !ok(remote[0]))
    ensures Missing(tokens, remote, ok) == Missing(tokens, remote[1..], ok)
  {
    assert forall x :: x in remote <==> x == remote[0] || x in remote[1..];
  }

  lemma MissingInserted<T(!new)>(tokens: seq<T>, at: nat, remote: seq<T>, ok: T -> bool)
    requires remote != [] && at <= |tokens| && remote[0] !in tokens && ok(remote[0])
    ensures var rest := Missing(Insert(tokens, at, remote[0]), remote[1..], ok);
      remote[0] !in rest && Missing(tokens, remote, ok) == rest + {remote[0]}
  {
    assert forall x :: x in remote <==> x == remote[0] || x in remote[1..];
    var t := Insert(tokens, at, remote[0]);
    assert tokens == tokens[..at] + tokens[at..];
    assert forall x :: x in t <==> x in tokens || x == remote[0];
  }

  lemma StepAdds<T(!new)>(c: Cursor<T>, remote: seq<T>, ok: T -> bool)
    requires c.at <= |c.tokens| && remote != []
    ensures var d := Step(c, remote[0], ok);
      multiset(d.tokens) + multiset(Missing(d.tokens, remote[1..], ok)) == multiset(c.tokens) + multiset(Missing(c.tokens, remote, ok))
  {
    if remote[0] in c.tokens || !ok(remote[0]) {
      MissingFound(c.tokens, remote, ok);
    } else {
      InsertCounts(c.tokens, c.at, remote[0]);
      MissingInserted(c.tokens, c.at, remote, ok);
      AddToMultiset(Missing(Insert(c.tokens, c.at, remote[0]), remote[1..], ok), remote[0]);
    }
  }

  /** Each allowed remote entry that is missing is added exactly once, and nothing else changes in number. */
  lemma {:induction false} AddedOnce<T(!new)>(tokens: seq<T>, at: nat, remote: seq<T>, ok: T -> bool)
    requires at <= |tokens|
    ensures multiset(Merge(tokens, at, remote, ok)) == multiset(tokens) + multiset(Missing(tokens, remote, ok))
    decreases |remote|
  {
    if remote == [] {
      assert Missing(tokens, remote, ok) == {};
    } else {
      var d := Step(Cursor(tokens, at), remote[0], ok);
      AddedOnce(d.tokens, d.at, remote[1..], ok);
      StepAdds(Cursor(tokens, at), remote, ok);
    }
  }

  lemma AddToMultiset<T(!new)>(s: set<T>, e: T)
    requires e !in s
    ensures multiset(s + {e}) == multiset(s) + multiset{e}
  {}

  // ---- idempotence ----

  lemma {:induction false} NothingMissing<T(!new)>(tokens: seq<T>, at: nat, remote: seq<T>, ok: T -> bool)
    requires at <= |tokens| && forall k :: 0 <= k < |remote| ==> remote[k] in tokens || !ok(remote[k])
    ensures Merge(tokens, at, remote, ok) == tokens
    decreases |remote|
  {
    if remote != [] {
      var i := IndexOf(tokens, remote[0]);
      NothingMissing(tokens, if i >= 0 then i + 1 else at, remote[1..], ok);
    }
  }

  lemma MergedTwice<T(!new)>(probed: seq<T>, remote: seq<T>, ok: T -> bool)
    ensures var m := Merge(probed, 0, remote, ok); Merge(m, 0, remote, ok) == m
  {
    var m := Merge(probed, 0, remote, ok);
    AddedOnce(probed, 0, remote, ok);
    forall k | 0 <= k < |remote| ensures remote[k] in m || !ok(remote[k]) {
      if ok(remote[k]) {
        assert remote[k] in multiset(probed) + multiset(Missing(probed, remote, ok));
        assert remote[k] in multiset(m);
      }
    }
    NothingMissing(m, 0, remote, ok);
  }

  lemma MergedTokens(probed: string, remote: string, user: string)
    ensures Split(MergePath(probed, remote, user)) == Merge(Split(probed), 0, Split(remote), AllowedFor(user))
  {
    var p, r, ok := Split(probed), Split(remote), AllowedFor(user);
    var m := Merge(p, 0, r, ok);
    AddedOnce(p, 0, r, ok);
    assert p[0] in multiset(m);
    forall i | 0 <= i < |m| ensures NoColon(m[i]) {
      assert m[i] in multiset(m);
      assert m[i] in p || m[i] in r;
    }
    SplitJoin(m);
  }

  /** Merging the same remote PATH again changes nothing. */
  lemma MergePathIdempotent(probed: string, remote: string, user: string)
    ensures MergePath(MergePath(probed, remote, user), remote, user) == MergePath(probed, remote, user)
  {
    MergedTokens(probed, remote, user);
    MergedTwice(Split(probed), Split(remote), AllowedFor(user));
  }

  // ---- which entries count ----

  /** /sbin stands between these, and ends a component. */
  ghost predicate SbinBetween(e: string, before: string, after: string) {
    e == before + "/sbin" + after && (after == "" || after[0] == '/')
  }

  /** The path has a component whose name is sbin. */
  ghost predicate InSbin(e: string) {
    exists before: string, after: string :: SbinBetween(e, before, after)
  }

  lemma SbinFound(e: string, i: nat)
    requires i <= |e| && SbinAt(e, i)
    ensures InSbin(e)
  {
    var before, after := e[..i], e[i + 5..];
    assert e == before + e[i..i + 5] + after;
    assert |after| > 0 ==> after[0] == e[i + 5];
    assert SbinBetween(e, before, after);
  }

  lemma SbinStands(e: string, before: string, after: string)
    requires SbinBetween(e, before, after)
    ensures SbinAt(e, |before|)
  {
    assert e[|before|..|before| + 5] == "/sbin" && e[|before| + 5..] == after;
    assert |before| + 5 == |e| || e[|before| + 5] == e[|before| + 5..][0];
  }

  lemma SbinIs(e: string)
    ensures HasSbin(e) <==> InSbin(e)
  {
    if i: nat :| i <= |e| && SbinAt(e, i) { SbinFound(e, i); }
    if before: string, after: string :| SbinBetween(e, before, after) { SbinStands(e, before, after); }
  }

  /**
    The merged PATH holds the probed entries and, besides, those remote ones
    that are not a system directory or whose user is root, by name, number or
    default: each once if it was missing, and no others.
   */
  lemma PathHolds(probed: string, remote: string, user: string, e: string)
    ensures var all := multiset(Split(MergePath(probed, remote, user)));
      var added := e in Split(remote) && e !in Split(probed) && (user in {"root", "0", ""} || !InSbin(e));
      all[e] == multiset(Split(probed))[e] + if added then 1 else 0
  {
    SbinIs(e);
    MergedTokens(probed, remote, user);
    AddedOnce(Split(probed), 0, Split(remote), AllowedFor(user));
  }
}
