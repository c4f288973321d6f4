/** The list operations the metadata merge is made of, and their laws. (config/merge_metadata.go:222-361) */
module MergeLists {
  import opened Prelude

  function Map<S, T>(s: seq<S>, f: S -> T): (r: seq<T>)
    ensures |r| == |s| && forall i :: 0 <= i < |s| ==> r[i] == f(s[i])
  {
    seq(|s|, i requires 0 <= i < |s| => f(s[i]))
  }

  lemma MapConcat<S, T>(a: seq<S>, b: seq<S>, f: S -> T)
    ensures Map(a + b, f) == Map(a, f) + Map(b, f)
  {}

  // ---- last write wins ----

  /** The last non-empty string, or "". */
  function LastText(vs: seq<string>): string {
    if vs == [] then "" else if vs[|vs| - 1] != "" then vs[|vs| - 1] else LastText(vs[..|vs| - 1])
  }

  function LastSome<T>(vs: seq<Option<T>>): Option<T> {
    if vs == [] then None else if vs[|vs| - 1].Some? then vs[|vs| - 1] else LastSome(vs[..|vs| - 1])
  }

  lemma {:induction false} LastTextConcat(a: seq<string>, b: seq<string>)
    ensures LastText(a + b) == if LastText(b) != "" then LastText(b) else LastText(a)
  {
    if b == [] { assert a + b == a; }
    else {
      assert (a + b)[..|a + b| - 1] == a + b[..|b| - 1];
      LastTextConcat(a, b[..|b| - 1]);
    }
  }

  lemma {:induction false} LastSomeConcat<T>(a: seq<Option<T>>, b: seq<Option<T>>)
    ensures LastSome(a + b) == if LastSome(b).Some? then LastSome(b) else LastSome(a)
  {
    if b == [] { assert a + b == a; }
    else {
      assert (a + b)[..|a + b| - 1] == a + b[..|b| - 1];
      LastSomeConcat(a, b[..|b| - 1]);
    }
  }

  /** What the last non-empty string is, position by position. */
  lemma {:induction false} LastTextIs(vs: seq<string>)
    ensures LastText(vs) == "" <==> forall i :: 0 <= i < |vs| ==> vs[i] == ""
    ensures LastText(vs) != "" ==> exists i :: 0 <= i < |vs| && vs[i] == LastText(vs) && forall j :: i < j < |vs| ==> vs[j] == ""
  {
    if vs != [] {
      var n := |vs| - 1;
      LastTextIs(vs[..n]);
      assert forall i :: 0 <= i < n ==> vs[..n][i] == vs[i];
      if vs[n] == "" && LastText(vs) != "" {
        var i :| 0 <= i < n && vs[..n][i] == LastText(vs) && forall j :: i < j < n ==> vs[..n][j] == "";
        assert vs[i] == LastText(vs) && forall j :: i < j < |vs| ==> vs[j] == "";
      }
    }
  }

  lemma {:induction false} LastSomeIs<T>(vs: seq<Option<T>>)
    ensures LastSome(vs).None? <==> forall i :: 0 <= i < |vs| ==> vs[i].None?
    ensures LastSome(vs).Some? ==> exists i :: 0 <= i < |vs| && vs[i] == LastSome(vs) && forall j :: i < j < |vs| ==> vs[j].None?
  {
    if vs != [] {
      var n := |vs| - 1;
      LastSomeIs(vs[..n]);
      assert forall i :: 0 <= i < n ==> vs[..n][i] == vs[i];
      if vs[n].None? && LastSome(vs).Some? {
        var i :| 0 <= i < n && vs[..n][i] == LastSome(vs) && forall j :: i < j < n ==> vs[..n][j].None?;
        assert vs[i] == LastSome(vs) && forall j :: i < j < |vs| ==> vs[j].None?;
      }
    }
  }

  /** pickString. */
  method PickText(user: string, vs: seq<string>) returns (r: string)
    ensures r == if user != "" then user else LastText(vs)
  {
    if user != "" { return user; }
    r := "";
    for i := 0 to |vs|
      invariant r == LastText(vs[..i])
    {
      assert vs[..i + 1][..i] == vs[..i];
      if vs[i] != "" { r := vs[i]; }
    }
    assert vs[..|vs|] == vs;
  }

  /** The walk for host requirements, from the last layer back. */
  method FindLast<T>(vs: seq<Option<T>>) returns (r: Option<T>)
    ensures r == LastSome(vs)
  {
    assert vs[..|vs|] == vs;
    for i := |vs| downto 0
      invariant LastSome(vs) == LastSome(vs[..i])
    {
      assert vs[..i + 1][..i] == vs[..i];
      if vs[i].Some? { return vs[i]; }
    }
    return None;
  }

  /** pickBool. */
  method PickSome<T>(user: Option<T>, vs: seq<Option<T>>) returns (r: Option<T>)
    ensures r == if user.Some? then user else LastSome(vs)
  {
    if user.Some? { return user; }
    r := None;
    for i := 0 to |vs|
      invariant r == LastSome(vs[..i])
    {
      assert vs[..i + 1][..i] == vs[..i];
      if vs[i].Some? { r := vs[i]; }
    }
    assert vs[..|vs|] == vs;
  }

  // ---- concatenation ----

  function Flat<T>(vss: seq<seq<T>>): seq<T> {
    if vss == [] then [] else Flat(vss[..|vss| - 1]) + vss[|vss| - 1]
  }

  lemma {:induction false} FlatConcat<T>(a: seq<seq<T>>, b: seq<seq<T>>)
    ensures Flat(a + b) == Flat(a) + Flat(b)
  {
    if b == [] { assert a + b == a; }
    else {
      assert (a + b)[..|a + b| - 1] == a + b[..|b| - 1];
      FlatConcat(a, b[..|b| - 1]);
    }
  }

  method Gather<T>(vss: seq<seq<T>>) returns (r: seq<T>)
    ensures r == Flat(vss)
  {
    r := [];
    for i := 0 to |vss|
      invariant r == Flat(vss[..i])
    {
      assert vss[..i + 1][..i] == vss[..i];
      r := r + vss[i];
    }
    assert vss[..|vss|] == vss;
  }

  // ---- union, first occurrence wins ----

  function Dedup(s: seq<string>): seq<string> {
    if s == [] then []
    else
      var r := Dedup(s[..|s| - 1]);
      if s[|s| - 1] in s[..|s| - 1] then r else r + [s[|s| - 1]]
  }

  /** r lists the elements of s at the positions `at`, in order. */
  ghost predicate Picks<T(!new)>(s: seq<T>, at: seq<nat>, r: seq<T>) {
    && |r| == |at| && (forall k :: 0 <= k < |at| ==> at[k] < |s| && r[k] == s[at[k]])
    && forall j, k :: 0 <= j < k < |at| ==> at[j] < at[k]
  }

  lemma PicksMore<T(!new)>(s: seq<T>, at: seq<nat>, r: seq<T>)
    requires s != [] && Picks(s[..|s| - 1], at, r)
    ensures Picks(s, at, r) && Picks(s, at + [|s| - 1], r + [s[|s| - 1]])
  {}

  ghost predicate FirstAt(s: seq<string>, i: nat) { i < |s| && s[i] !in s[..i] }

  lemma FirstAtMore(s: seq<string>, n: nat, i: nat)
    requires i < n <= |s|
    ensures FirstAt(s[..n], i) <==> FirstAt(s, i)
  {
    assert s[..n][..i] == s[..i];
  }

  /** The union keeps exactly the first occurrences, where they stand. */
  lemma {:induction false} DedupKeepsFirst(s: seq<string>) returns (at: seq<nat>)
    ensures Picks(s, at, Dedup(s)) && forall i: nat :: i < |s| ==> (i in at <==> FirstAt(s, i))
  {
    at := [];
    if s != [] {
      var n := |s| - 1;
      var before := DedupKeepsFirst(s[..n]);
      PicksMore(s, before, Dedup(s[..n]));
      at := if s[n] in s[..n] then before else before + [n];
      forall i: nat | i < |s| ensures i in at <==> FirstAt(s, i) {
        if i < n { FirstAtMore(s, n, i); }
      }
    }
  }

  lemma {:induction false} DedupIn(s: seq<string>, x: string)
    ensures x in Dedup(s) <==> x in s
  {
    if s != [] {
      var n := |s| - 1;
      DedupIn(s[..n], x);
      assert s == s[..n] + [s[n]];
    }
  }

  /** Each member once, in the order of first occurrence: what Dedup returns has no repeats. */
  lemma {:induction false} DedupNoDup(s: seq<string>)
    ensures NoDup(Dedup(s))
  {
    if s != [] {
      var n := |s| - 1;
      DedupNoDup(s[..n]);
      DedupIn(s[..n], s[n]);
    }
  }

  lemma {:induction false} DedupConcat(a: seq<string>, b: seq<string>)
    ensures Dedup(a + Dedup(b)) == Dedup(a + b)
  {
    if b != [] {
      var n := |b| - 1;
      var b', x := b[..n], b[n];
      DedupConcat(a, b');
      assert (a + b)[..|a + b| - 1] == a + b' && (a + b)[|a + b| - 1] == x;
      DedupIn(b', x);
      if x in b' {
        assert Dedup(b) == Dedup(b') && x in a + b';
      } else {
        var r := Dedup(b');
        assert Dedup(b) == r + [x];
        var t := a + (r + [x]);
        assert t[..|t| - 1] == a + r && t[|t| - 1] == x;
        assert x in a + r <==> x in a + b';
      }
    }
  }

  /** Prepending what is already there changes nothing but the order; a second time, not even that. */
  lemma {:induction false} DedupAbsorbs(a: seq<string>, b: seq<string>)
    requires forall x :: x in b ==> x in a
    ensures Dedup(a + b) == Dedup(a)
  {
    if b == [] { assert a + b == a; }
    else {
      var n := |b| - 1;
      assert (a + b)[..|a + b| - 1] == a + b[..n];
      assert b[n] in b;
      DedupAbsorbs(a, b[..n]);
    }
  }

  lemma DedupTwice(a: seq<string>, b: seq<string>)
    ensures Dedup(a + Dedup(a + b)) == Dedup(a + b)
  {
    DedupConcat(a, a + b);
    DedupMiddle(a, b);
  }

  lemma {:induction false} DedupMiddle(a: seq<string>, b: seq<string>)
    ensures Dedup(a + (a + b)) == Dedup(a + b)
  {
    if b == [] {
      assert a + b == a;
      DedupAbsorbs(a, a);
    } else {
      var n := |b| - 1;
      DedupMiddle(a, b[..n]);
      var s, t := a + (a + b), a + b;
      assert s[..|s| - 1] == a + (a + b[..n]) && t[..|t| - 1] == a + b[..n];
      assert s[|s| - 1] == b[n] == t[|t| - 1];
    }
  }

  /** unionDedup, with its seen set. */
  method UnionDedup(a: seq<string>, b: seq<string>) returns (r: seq<string>)
    ensures r == Dedup(a + b)
  {
    var s := a + b;
    var seen: set<string> := {};
    r := [];
    for i := 0 to |s|
      invariant r == Dedup(s[..i]) && forall x :: x in seen <==> x in s[..i]
    {
      assert s[..i + 1][..i] == s[..i];
      if s[i] !in seen { r := r + [s[i]]; }
      seen := seen + {s[i]};
    }
    assert s[..|s|] == s;
  }

  // ---- maps ----

  function Overlay(ms: seq<map<string, string>>): map<string, string> {
    if ms == [] then map[] else Overlay(ms[..|ms| - 1]) + ms[|ms| - 1]
  }

  /** Each key has the value of the last map that holds it. */
  lemma {:induction false} OverlayLast(ms: seq<map<string, string>>, k: string)
    ensures k in Overlay(ms) <==> exists i :: 0 <= i < |ms| && k in ms[i]
    ensures k in Overlay(ms) ==> exists i :: 0 <= i < |ms| && k in ms[i] && Overlay(ms)[k] == ms[i][k] && forall j :: i < j < |ms| ==> k !in ms[j]
  {
    if ms != [] {
      var n := |ms| - 1;
      OverlayLast(ms[..n], k);
      assert forall i :: 0 <= i < n ==> ms[..n][i] == ms[i];
      if k in Overlay(ms[..n]) && k !in ms[n] {
        var i :| 0 <= i < n && k in ms[..n][i] && Overlay(ms[..n])[k] == ms[..n][i][k] && forall j :: i < j < n ==> k !in ms[..n][j];
        assert k in ms[i] && Overlay(ms)[k] == ms[i][k] && forall j :: i < j < |ms| ==> k !in ms[j];
      }
    }
  }

  lemma {:induction false} OverlayConcat(a: seq<map<string, string>>, b: seq<map<string, string>>)
    ensures Overlay(a + b) == Overlay(a) + Overlay(b)
  {
    if b == [] { assert a + b == a; }
    else {
      var n := |b| - 1;
      OverlayConcat(a, b[..n]);
      OverlaySnoc(a + b, a + b[..n], b[n]);
      OverlayAssociates(Overlay(a), Overlay(b[..n]), b[n]);
    }
  }

  lemma OverlaySnoc(ms: seq<map<string, string>>, rest: seq<map<string, string>>, last: map<string, string>)
    requires ms == rest + [last]
    ensures Overlay(ms) == Overlay(rest) + last
  {
    assert ms[..|ms| - 1] == rest;
  }

  lemma OverlayAssociates(a: map<string, string>, b: map<string, string>, c: map<string, string>)
    ensures a + b + c == a + (b + c)
  {}

  /** mergeStringMaps, key by key in any order. */
  method MergeMaps(ms: seq<map<string, string>>, user: map<string, string>) returns (r: map<string, string>)
    ensures r == Overlay(ms) + user
  {
    r := map[];
    for i := 0 to |ms|
      invariant r == Overlay(ms[..i])
    {
      assert ms[..i + 1][..i] == ms[..i];
      r := AddAll(r, ms[i]);
    }
    assert ms[..|ms|] == ms;
    r := AddAll(r, user);
  }

  method AddAll(base: map<string, string>, over: map<string, string>) returns (r: map<string, string>)
    ensures r == base + over
  {
    r := base;
    var done: set<string> := {};
    while over.Keys - done != {}
      invariant done <= over.Keys && r == base + Restrict(over, done)
      decreases over.Keys - done
    {
      var k :| k in over.Keys - done;
      OverlayStep(base, over, done, k);
      r, done := r[k := over[k]], done + {k};
    }
    DiffEmpty(over.Keys, done);
    RestrictAll(over);
  }
}
