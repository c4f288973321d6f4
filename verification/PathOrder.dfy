/**
  When mergePath lists the remote entries in declared order: the exact condition,
  for remote paths that may name an entry more than once. (userenvprobe.go:158-186)
 */
module PathOrder {
  import opened Prelude
  import opened PathMerge

  ghost predicate IsFirst<T>(s: seq<T>, x: T, i: nat) {
    i < |s| && s[i] == x && forall k :: 0 <= k < i ==> s[k] != x
  }

  /** Where x first occurs. */
  ghost function Pos<T(!new)>(s: seq<T>, x: T): (i: nat)
    requires x in s
    ensures IsFirst(s, x, i) && i == IndexOf(s, x)
  {
    IndexOf(s, x)
  }

  lemma FirstIs<T(!new)>(s: seq<T>, x: T, i: nat)
    requires IsFirst(s, x, i)
    ensures x in s && Pos(s, x) == i
  {
    assert IsFirst(s, x, Pos(s, x));
  }

  /** x and y both occur, x first. */
  ghost predicate Precedes<T(!new)>(s: seq<T>, x: T, y: T) {
    x in s && y in s && Pos(s, x) < Pos(s, y)
  }

  /** The declared entries that occur, first occur in the order in which they are first declared. */
  ghost predicate InOrder<T(!new)>(tokens: seq<T>, remote: seq<T>) {
    forall x, y :: Precedes(remote, x, y) && x in tokens && y in tokens ==> Precedes(tokens, x, y)
  }

  // ---- the loop, entry by entry ----

  /** Tokens and cursor after the first k remote entries. */
  ghost function Prefix<T(!new)>(probed: seq<T>, remote: seq<T>, ok: T -> bool, k: nat): (c: Cursor<T>)
    requires k <= |remote|
    ensures c.at <= |c.tokens|
  {
    if k == 0 then Cursor(probed, 0) else Step(Prefix(probed, remote, ok, k - 1), remote[k - 1], ok)
  }

  lemma {:induction false} PrefixMerges<T(!new)>(probed: seq<T>, remote: seq<T>, ok: T -> bool, k: nat)
    requires k <= |remote|
    ensures var c := Prefix(probed, remote, ok, k); Merge(probed, 0, remote, ok) == Merge(c.tokens, c.at, remote[k..], ok)
  {
    if k > 0 {
      PrefixMerges(probed, remote, ok, k - 1);
      StepMerges(Prefix(probed, remote, ok, k - 1), remote[k - 1..], ok);
      assert remote[k - 1..][1..] == remote[k..];
    }
  }

  lemma MergeFinds<T(!new)>(tokens: seq<T>, at: nat, rest: seq<T>, ok: T -> bool, i: nat)
    requires at <= |tokens| && rest != [] && i == IndexOf(tokens, rest[0])
    ensures i < |tokens| && Merge(tokens, at, rest, ok) == Merge(tokens, i + 1, rest[1..], ok)
  {}

  lemma MergeInserts<T(!new)>(tokens: seq<T>, at: nat, rest: seq<T>, ok: T -> bool, more: seq<T>)
    requires at <= |tokens| && rest != [] && rest[0] !in tokens && ok(rest[0]) && more == Insert(tokens, at, rest[0])
    ensures Merge(tokens, at, rest, ok) == Merge(more, at + 1, rest[1..], ok)
  {}

  lemma MergedIs<T(!new)>(probed: seq<T>, remote: seq<T>, ok: T -> bool)
    ensures Merge(probed, 0, remote, ok) == Prefix(probed, remote, ok, |remote|).tokens
  {
    PrefixMerges(probed, remote, ok, |remote|);
  }

  // ---- where entries stand ----

  /** Where entries stand after an insertion of a new one. */
  ghost predicate Shifted<T(!new)>(s: seq<T>, t: seq<T>, at: nat, e: T, x: T) {
    && (x in t <==> x == e || x in s)
    && (x == e ==> x in t && Pos(t, x) == at)
    && (x in s ==> x in t && Pos(t, x) == if Pos(s, x) < at then Pos(s, x) else Pos(s, x) + 1)
  }

  lemma InsertShifts<T(!new)>(s: seq<T>, at: nat, e: T, x: T)
    requires at <= |s| && e !in s
    ensures Shifted(s, Insert(s, at, e), at, e, x)
  {
    var t := Insert(s, at, e);
    assert |t| == |s| + 1 && t[..at] == s[..at] && t[at] == e && t[at + 1..] == s[at..];
    if x in s {
      var i := Pos(s, x);
      var i' := if i < at then i else i + 1;
      forall k | 0 <= k < i' ensures t[k] != x {
        if k < at { assert t[k] == s[k]; } else if k > at { assert t[k] == s[k - 1]; }
      }
      assert t[i'] == x;
      FirstIs(t, x, i');
    } else if x == e {
      forall k | 0 <= k < at ensures t[k] != x { assert t[k] == s[k]; }
      FirstIs(t, x, at);
    } else {
      forall k | 0 <= k < |t| ensures t[k] != x { assert t[k] == if k < at then s[k] else if k == at then e else s[k - 1]; }
    }
  }

  /** t holds x and y as s does. */
  ghost predicate SamePair<T(!new)>(s: seq<T>, t: seq<T>, x: T, y: T) {
    x in t && y in t && Precedes(t, x, y) == Precedes(s, x, y)
  }

  lemma StepKeeps<T(!new)>(c: Cursor<T>, e: T, ok: T -> bool, x: T, y: T)
    requires c.at <= |c.tokens| && x in c.tokens && y in c.tokens
    ensures SamePair(c.tokens, Step(c, e, ok).tokens, x, y)
  {
    if e !in c.tokens && ok(e) {
      InsertShifts(c.tokens, c.at, e, x);
      InsertShifts(c.tokens, c.at, e, y);
    }
  }

  lemma OneMoreKeeps<T(!new)>(s: seq<T>, probed: seq<T>, remote: seq<T>, ok: T -> bool, k: nat, x: T, y: T)
    requires k < |remote| && SamePair(s, Prefix(probed, remote, ok, k).tokens, x, y)
    ensures SamePair(s, Prefix(probed, remote, ok, k + 1).tokens, x, y)
  {
    KeepsOn(s, Prefix(probed, remote, ok, k), remote[k], ok, x, y);
  }

  lemma {:induction false} PrefixKeeps<T(!new)>(s: seq<T>, probed: seq<T>, remote: seq<T>, ok: T -> bool, j: nat, k: nat, x: T, y: T)
    requires j <= k <= |remote| && SamePair(s, Prefix(probed, remote, ok, j).tokens, x, y)
    ensures SamePair(s, Prefix(probed, remote, ok, k).tokens, x, y)
    decreases k - j
  {
    if j < k {
      OneMoreKeeps(s, probed, remote, ok, j, x, y);
      PrefixKeeps(s, probed, remote, ok, j + 1, k, x, y);
    }
  }

  /** Once two entries are there, which comes first never changes. */
  lemma RelativeOrderKept<T(!new)>(probed: seq<T>, remote: seq<T>, ok: T -> bool, j: nat, k: nat, x: T, y: T)
    requires j <= k <= |remote| && x in Prefix(probed, remote, ok, j).tokens && y in Prefix(probed, remote, ok, j).tokens
    ensures SamePair(Prefix(probed, remote, ok, j).tokens, Prefix(probed, remote, ok, k).tokens, x, y)
  {
    PrefixKeeps(Prefix(probed, remote, ok, j).tokens, probed, remote, ok, j, k, x, y);
  }

  lemma KeepsOn<T(!new)>(s: seq<T>, c: Cursor<T>, e: T, ok: T -> bool, x: T, y: T)
    requires c.at <= |c.tokens| && SamePair(s, c.tokens, x, y)
    ensures SamePair(s, Step(c, e, ok).tokens, x, y)
  {
    StepKeeps(c, e, ok, x, y);
  }

  /** Remote entries the loop acts on: already probed, or allowed. */
  ghost predicate Handled<T(!new)>(probed: seq<T>, ok: T -> bool, e: T) { e in probed || ok(e) }

  /** The last of the first k entries that is handled, or -1. */
  ghost function LastHandled<T(!new)>(probed: seq<T>, remote: seq<T>, ok: T -> bool, k: nat): (i: int)
    requires k <= |remote|
    ensures -1 <= i < k && (i >= 0 ==> Handled(probed, ok, remote[i]))
    ensures forall m :: i < m < k ==> !Handled(probed, ok, remote[m])
  {
    if k == 0 then -1 else if Handled(probed, ok, remote[k - 1]) then k - 1 else LastHandled(probed, remote, ok, k - 1)
  }

  /** The cursor stands just behind the last entry handled, and what is there was probed or handled. */
  ghost predicate CursorIs<T(!new)>(probed: seq<T>, remote: seq<T>, ok: T -> bool, k: nat, c: Cursor<T>)
    requires k <= |remote|
  {
    && c.at <= |c.tokens| && (forall x :: x in c.tokens <==> x in probed || (x in remote[..k] && ok(x)))
    && var i := LastHandled(probed, remote, ok, k);
       if i < 0 then c.at == 0 else remote[i] in c.tokens && c.at == Pos(c.tokens, remote[i]) + 1
  }

  /** What one entry does: it is there afterwards with the cursor behind it if it was there or is allowed, and else changes nothing. */
  ghost predicate Handles<T(!new)>(c: Cursor<T>, e: T, allowed: bool, t: Cursor<T>) {
    && t.at <= |t.tokens| && (forall x :: x in t.tokens <==> x in c.tokens || (x == e && allowed))
    && (if e in c.tokens || allowed then e in t.tokens && t.at == Pos(t.tokens, e) + 1 else t == c)
  }

  lemma StepHandles<T(!new)>(c: Cursor<T>, e: T, ok: T -> bool)
    requires c.at <= |c.tokens|
    ensures Handles(c, e, ok(e), Step(c, e, ok))
  {
    if e !in c.tokens && ok(e) { InsertedAt(c, e); }
  }

  lemma CursorStep<T(!new)>(probed: seq<T>, remote: seq<T>, ok: T -> bool, k: nat, c: Cursor<T>)
    requires 0 < k <= |remote| && CursorIs(probed, remote, ok, k - 1, c)
    ensures CursorIs(probed, remote, ok, k, Step(c, remote[k - 1], ok))
  {
    StepHandles(c, remote[k - 1], ok);
    HandledNext(probed, remote, ok, k, c, Step(c, remote[k - 1], ok));
  }

  lemma HandledNext<T(!new)>(probed: seq<T>, remote: seq<T>, ok: T -> bool, k: nat, c: Cursor<T>, t: Cursor<T>)
    requires 0 < k <= |remote| && CursorIs(probed, remote, ok, k - 1, c) && Handles(c, remote[k - 1], ok(remote[k - 1]), t)
    ensures CursorIs(probed, remote, ok, k, t)
  {
    assert remote[..k] == remote[..k - 1] + [remote[k - 1]];
  }

  lemma InsertedAt<T(!new)>(c: Cursor<T>, e: T)
    requires c.at <= |c.tokens| && e !in c.tokens
    ensures var t := Insert(c.tokens, c.at, e); (forall x :: x in t <==> x == e || x in c.tokens) && Pos(t, e) == c.at
  {
    forall x ensures Shifted(c.tokens, Insert(c.tokens, c.at, e), c.at, e, x) { InsertShifts(c.tokens, c.at, e, x); }
  }

  lemma {:induction false} PrefixIs<T(!new)>(probed: seq<T>, remote: seq<T>, ok: T -> bool, k: nat)
    requires k <= |remote|
    ensures CursorIs(probed, remote, ok, k, Prefix(probed, remote, ok, k))
  {
    if k > 0 {
      PrefixIs(probed, remote, ok, k - 1);
      CursorStep(probed, remote, ok, k, Prefix(probed, remote, ok, k - 1));
    }
  }

  // ---- the condition ----

  /** Position j is where an entry is added: allowed, not probed, and declared there first. */
  ghost predicate Added<T(!new)>(probed: seq<T>, remote: seq<T>, ok: T -> bool, j: nat) {
    j < |remote| && remote[j] !in remote[..j] && remote[j] !in probed && ok(remote[j])
  }

  /** Of the entries handled before position j, the last is the one first declared latest. */
  ghost predicate LatestAt<T(!new)>(probed: seq<T>, remote: seq<T>, ok: T -> bool, j: nat)
    requires j <= |remote|
  {
    forall k :: 0 <= k < j && Handled(probed, ok, remote[k]) ==> !Precedes(remote, remote[LastHandled(probed, remote, ok, j)], remote[k])
  }

  /** Wherever an entry is added, no earlier one was named again out of turn. */
  ghost predicate InTurn<T(!new)>(probed: seq<T>, remote: seq<T>, ok: T -> bool) {
    forall j: nat :: Added(probed, remote, ok, j) ==> LatestAt(probed, remote, ok, j)
  }

  lemma FirstDeclared<T(!new)>(remote: seq<T>, j: nat, x: T)
    requires j < |remote| && remote[j] !in remote[..j] && x in remote && x != remote[j]
    ensures Pos(remote, remote[j]) == j
    ensures x in remote[..j] <==> Pos(remote, x) < j
  {
    forall k | 0 <= k < j ensures remote[k] != remote[j] { assert remote[..j][k] == remote[k]; }
    FirstIs(remote, remote[j], j);
    if Pos(remote, x) < j { assert remote[..j][Pos(remote, x)] == x; }
    if x in remote[..j] {
      var k :| 0 <= k < j && remote[..j][k] == x;
      assert remote[k] == x;
    }
  }

  /** Where an added entry lands among those already there. */
  lemma LandsInOrder<T(!new)>(probed: seq<T>, remote: seq<T>, ok: T -> bool, j: nat, c: Cursor<T>, x: T)
    requires Added(probed, remote, ok, j) && CursorIs(probed, remote, ok, j, c) && LatestAt(probed, remote, ok, j) && InOrder(c.tokens, remote)
    requires x in remote && x in c.tokens && x != remote[j]
    ensures Pos(c.tokens, x) < c.at <==> Precedes(remote, x, remote[j])
  {
    FirstDeclared(remote, j, x);
    var i := LastHandled(probed, remote, ok, j);
    if x in remote[..j] {
      var k :| 0 <= k < j && remote[..j][k] == x;
      assert remote[k] == x && Handled(probed, ok, x);
      assert !Precedes(remote, remote[i], x);
      if x != remote[i] { assert Precedes(remote, x, remote[i]); }
    } else if i >= 0 {
      assert remote[..j][i] == remote[i];
      FirstDeclared(remote, j, remote[i]);
      assert Precedes(remote, remote[i], x);
    }
  }

  lemma AddedInOrder<T(!new)>(probed: seq<T>, remote: seq<T>, ok: T -> bool, j: nat, c: Cursor<T>)
    requires Added(probed, remote, ok, j) && CursorIs(probed, remote, ok, j, c) && LatestAt(probed, remote, ok, j) && InOrder(c.tokens, remote)
    ensures InOrder(Insert(c.tokens, c.at, remote[j]), remote)
  {
    var e := remote[j];
    var t := Insert(c.tokens, c.at, e);
    forall x, y | Precedes(remote, x, y) && x in t && y in t ensures Precedes(t, x, y) {
      InsertShifts(c.tokens, c.at, e, x);
      InsertShifts(c.tokens, c.at, e, y);
      if x == e { LandsInOrder(probed, remote, ok, j, c, y); }
      else if y == e { LandsInOrder(probed, remote, ok, j, c, x); }
      else { assert Precedes(c.tokens, x, y); }
    }
  }

  lemma {:induction false} OrderAchieved<T(!new)>(probed: seq<T>, remote: seq<T>, ok: T -> bool, k: nat)
    requires k <= |remote| && InOrder(probed, remote) && InTurn(probed, remote, ok)
    ensures InOrder(Prefix(probed, remote, ok, k).tokens, remote)
  {
    if k > 0 {
      var j := k - 1;
      var c := Prefix(probed, remote, ok, j);
      OrderAchieved(probed, remote, ok, j);
      PrefixIs(probed, remote, ok, j);
      if remote[j] !in c.tokens && ok(remote[j]) {
        assert Added(probed, remote, ok, j);
        AddedInOrder(probed, remote, ok, j, c);
      }
    }
  }

  // ---- the converse ----

  lemma OrderWasThere<T(!new)>(probed: seq<T>, remote: seq<T>, ok: T -> bool)
    requires InOrder(Merge(probed, 0, remote, ok), remote)
    ensures InOrder(probed, remote)
  {
    MergedIs(probed, remote, ok);
    forall x, y | Precedes(remote, x, y) && x in probed && y in probed ensures Precedes(probed, x, y) {
      RelativeOrderKept(probed, remote, ok, 0, |remote|, x, y);
    }
  }

  /** An entry added just behind l lands before x if x stands behind l. */
  lemma LandsBehind<T(!new)>(c: Cursor<T>, e: T, l: T, x: T)
    requires l in c.tokens && x in c.tokens && e !in c.tokens && c.at == Pos(c.tokens, l) + 1
    ensures var t := Insert(c.tokens, c.at, e); l in t && x in t && e in t && !(Precedes(t, l, x) && Precedes(t, x, e))
  {
    InsertShifts(c.tokens, c.at, e, l);
    InsertShifts(c.tokens, c.at, e, x);
    InsertShifts(c.tokens, c.at, e, e);
  }

  lemma AddedBehind<T(!new)>(probed: seq<T>, remote: seq<T>, ok: T -> bool, j: nat, i: nat, k: nat)
    requires Added(probed, remote, ok, j) && k < j && Handled(probed, ok, remote[k]) && i == LastHandled(probed, remote, ok, j)
    ensures var t := Prefix(probed, remote, ok, j + 1).tokens;
      && remote[i] in t && remote[k] in t && remote[j] in t
      && !(Precedes(t, remote[i], remote[k]) && Precedes(t, remote[k], remote[j]))
  {
    PrefixIs(probed, remote, ok, j);
    assert remote[..j][k] == remote[k] && remote[..j][i] == remote[i];
    LandsBehind(Prefix(probed, remote, ok, j), remote[j], remote[i], remote[k]);
  }

  lemma OutOfTurn<T(!new)>(probed: seq<T>, remote: seq<T>, ok: T -> bool, j: nat, k: nat)
    requires Added(probed, remote, ok, j) && k < j && Handled(probed, ok, remote[k])
    ensures Precedes(remote, remote[LastHandled(probed, remote, ok, j)], remote[k]) ==> !InOrder(Merge(probed, 0, remote, ok), remote)
  {
    var i := LastHandled(probed, remote, ok, j);
    AddedBehind(probed, remote, ok, j, i, k);
    MergedIs(probed, remote, ok);
    RelativeOrderKept(probed, remote, ok, j + 1, |remote|, remote[i], remote[k]);
    RelativeOrderKept(probed, remote, ok, j + 1, |remote|, remote[k], remote[j]);
    DeclaredBefore(remote, j, k);
  }

  lemma DeclaredBefore<T(!new)>(remote: seq<T>, j: nat, k: nat)
    requires k < j < |remote| && remote[j] !in remote[..j]
    ensures Precedes(remote, remote[k], remote[j])
  {
    assert remote[..j][k] == remote[k];
    FirstDeclared(remote, j, remote[k]);
  }

  lemma TurnWasKept<T(!new)>(probed: seq<T>, remote: seq<T>, ok: T -> bool)
    requires InOrder(Merge(probed, 0, remote, ok), remote)
    ensures InTurn(probed, remote, ok)
  {
    forall j: nat, k | Added(probed, remote, ok, j) && 0 <= k < j && Handled(probed, ok, remote[k])
      ensures !Precedes(remote, remote[LastHandled(probed, remote, ok, j)], remote[k])
    {
      OutOfTurn(probed, remote, ok, j, k);
    }
  }

  /**
    The merged path lists the declared entries in declared order exactly when the
    probed one did and, wherever an entry is added, the last entry handled before
    it is the one first declared latest.
   */
  lemma DeclaredOrder<T(!new)>(probed: seq<T>, remote: seq<T>, ok: T -> bool)
    ensures InOrder(Merge(probed, 0, remote, ok), remote) <==> InOrder(probed, remote) && InTurn(probed, remote, ok)
  {
    if InOrder(probed, remote) && InTurn(probed, remote, ok) {
      MergedIs(probed, remote, ok);
      OrderAchieved(probed, remote, ok, |remote|);
    }
    if InOrder(Merge(probed, 0, remote, ok), remote) {
      OrderWasThere(probed, remote, ok);
      TurnWasKept(probed, remote, ok);
    }
  }

  /** Entries declared once each are always in turn. */
  lemma DistinctInTurn<T(!new)>(probed: seq<T>, remote: seq<T>, ok: T -> bool)
    requires NoDup(remote)
    ensures InTurn(probed, remote, ok)
  {
    forall i: nat | i < |remote| ensures Pos(remote, remote[i]) == i { FirstIs(remote, remote[i], i); }
  }

  lemma RepeatedMerges<T(!new)>(a: T, b: T, c: T, p: T, ok: T -> bool)
    requires NoDup([a, b, c, p]) && ok(a) && ok(b) && ok(c)
    ensures Merge([p], 0, [a, b, a, c], ok) == [a, c, b, p]
  {
    var all := [a, b, c, p];
    assert all[0] != all[1] && all[0] != all[2] && all[0] != all[3] && all[1] != all[2] && all[1] != all[3] && all[2] != all[3];
    assert [a, b, a, c][1..] == [b, a, c] && [b, a, c][1..] == [a, c] && [a, c][1..] == [c] && [c][1..] == [];
    MergeInserts([p], 0, [a, b, a, c], ok, [a, p]);
    MergeInserts([a, p], 1, [b, a, c], ok, [a, b, p]);
    MergeFinds([a, b, p], 2, [a, c], ok, 0);
    MergeInserts([a, b, p], 1, [c], ok, [a, c, b, p]);
  }

  /** Whatever the entries: one named twice pulls the cursor back, and c lands before b, which was declared before it. */
  lemma RepeatedEntryReorders<T(!new)>(a: T, b: T, c: T, p: T, ok: T -> bool)
    requires NoDup([a, b, c, p]) && ok(a) && ok(b) && ok(c)
    ensures Merge([p], 0, [a, b, a, c], ok) == [a, c, b, p]
    ensures !InOrder([a, c, b, p], [a, b, a, c]) && InOrder([p], [a, b, a, c]) && !InTurn([p], [a, b, a, c], ok)
  {
    var r, m := [a, b, a, c], [a, c, b, p];
    var all := [a, b, c, p];
    assert all[0] != all[1] && all[0] != all[2] && all[1] != all[2];
    RepeatedMerges(a, b, c, p, ok);
    FirstIs(r, b, 1);
    FirstIs(r, c, 3);
    FirstIs(m, b, 2);
    FirstIs(m, c, 1);
    assert Precedes(r, b, c) && !Precedes(m, b, c);
    DeclaredOrder([p], r, ok);
  }
}
