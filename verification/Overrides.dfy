/** Splitting a list by an ordered list of keys, as splitByOverride does with normalized ids. (feature/order.go:43-68) */
module Overrides {
  import opened Prelude

  function WithKey<T>(s: seq<T>, key: T -> string, id: string): seq<T> {
    if s == [] then []
    else WithKey(s[..|s| - 1], key, id) + if key(s[|s| - 1]) == id then [s[|s| - 1]] else []
  }

  function Picked<T>(s: seq<T>, key: T -> string, ids: seq<string>): seq<T> {
    if ids == [] then []
    else
      var n := |ids| - 1;
      Picked(s, key, ids[..n]) + if ids[n] in ids[..n] then [] else WithKey(s, key, ids[n])
  }

  function Unpicked<T>(s: seq<T>, key: T -> string, ids: seq<string>): seq<T> {
    if s == [] then []
    else
      var n := |s| - 1;
      Unpicked(s[..n], key, ids) + if key(s[n]) in ids then [] else [s[n]]
  }

  ghost predicate Taken<T>(s: seq<T>, key: T -> string, ids: seq<string>, taken: set<nat>) {
    forall i: nat :: i < |s| ==> (i in taken <==> key(s[i]) in ids)
  }

  /** One pass over the list for one key. */
  method TakeMatching<T>(s: seq<T>, key: T -> string, ghost ids: seq<string>, id: string, taken0: set<nat>)
    returns (found: seq<T>, taken: set<nat>)
    requires Taken(s, key, ids, taken0)
    ensures found == if id in ids then [] else WithKey(s, key, id)
    ensures Taken(s, key, ids + [id], taken)
  {
    found, taken := [], taken0;
    for i := 0 to |s|
      invariant found == if id in ids then [] else WithKey(s[..i], key, id)
      invariant forall j: nat :: j < |s| ==> (j in taken <==> j in taken0 || (j < i && key(s[j]) == id))
    {
      assert s[..i + 1][..i] == s[..i];
      if i !in taken && key(s[i]) == id {
        found, taken := found + [s[i]], taken + {i};
      }
    }
    assert s[..|s|] == s;
  }

  method Split<T>(s: seq<T>, key: T -> string, ids: seq<string>) returns (picked: seq<T>, rest: seq<T>)
    ensures picked == Picked(s, key, ids) && rest == Unpicked(s, key, ids)
  {
    if |ids| == 0 {
      NothingPicked(s, key);
      return [], s;
    }
    picked, rest := [], [];
    var taken: set<nat> := {};
    for k := 0 to |ids|
      invariant picked == Picked(s, key, ids[..k]) && Taken(s, key, ids[..k], taken)
    {
      var found;
      assert ids[..k + 1][..k] == ids[..k] && ids[..k + 1] == ids[..k] + [ids[k]];
      found, taken := TakeMatching(s, key, ids[..k], ids[k], taken);
      picked := picked + found;
    }
    assert ids[..|ids|] == ids;
    for i := 0 to |s|
      invariant rest == Unpicked(s[..i], key, ids)
    {
      assert s[..i + 1][..i] == s[..i];
      if i !in taken { rest := rest + [s[i]]; }
    }
    assert s[..|s|] == s;
  }

  lemma {:induction false} NothingPicked<T>(s: seq<T>, key: T -> string)
    ensures Unpicked(s, key, []) == s
  {
    if s != [] { NothingPicked(s[..|s| - 1], key); }
  }

  // ---- splitting an already ordered list changes nothing ----

  lemma {:induction false} WithKeyConcat<T>(a: seq<T>, b: seq<T>, key: T -> string, id: string)
    ensures WithKey(a + b, key, id) == WithKey(a, key, id) + WithKey(b, key, id)
  {
    if b == [] {
      assert a + b == a;
    } else {
      var n := |b| - 1;
      WithKeyConcat(a, b[..n], key, id);
      assert (a + b)[..|a + b| - 1] == a + b[..n];
    }
  }

  lemma {:induction false} UnpickedConcat<T>(a: seq<T>, b: seq<T>, key: T -> string, ids: seq<string>)
    ensures Unpicked(a + b, key, ids) == Unpicked(a, key, ids) + Unpicked(b, key, ids)
  {
    if b == [] {
      assert a + b == a;
    } else {
      var n := |b| - 1;
      UnpickedConcat(a, b[..n], key, ids);
      assert (a + b)[..|a + b| - 1] == a + b[..n];
    }
  }

  lemma {:induction false} WithKeyTwice<T>(s: seq<T>, key: T -> string, id: string, id': string)
    ensures WithKey(WithKey(s, key, id), key, id') == if id == id' then WithKey(s, key, id) else []
  {
    if s != [] {
      var n := |s| - 1;
      WithKeyTwice(s[..n], key, id, id');
      var last := if key(s[n]) == id then [s[n]] else [];
      WithKeyConcat(WithKey(s[..n], key, id), last, key, id');
    }
  }

  lemma InSnoc(ids: seq<string>, id: string)
    requires ids != []
    ensures id in ids <==> id in ids[..|ids| - 1] || id == ids[|ids| - 1]
  {}

  lemma {:induction false} WithKeyPicked<T>(s: seq<T>, key: T -> string, ids: seq<string>, id: string)
    ensures WithKey(Picked(s, key, ids), key, id) == if id in ids then WithKey(s, key, id) else []
  {
    if ids != [] {
      var n := |ids| - 1;
      var head, last := ids[..n], ids[n];
      WithKeyPicked(s, key, head, id);
      InSnoc(ids, id);
      if last !in head {
        WithKeyConcat(Picked(s, key, head), WithKey(s, key, last), key, id);
        WithKeyTwice(s, key, last, id);
      } else {
        assert Picked(s, key, ids) == Picked(s, key, head);
      }
    }
  }

  lemma {:induction false} KeysOutside<T(!new)>(t: seq<T>, key: T -> string, ids: seq<string>)
    requires forall x :: x in t ==> key(x) !in ids
    ensures Unpicked(t, key, ids) == t
    ensures forall id :: id in ids ==> WithKey(t, key, id) == []
  {
    if t != [] {
      assert t[|t| - 1] in t;
      KeysOutside(t[..|t| - 1], key, ids);
    }
  }

  lemma {:induction false} KeysInside<T(!new)>(t: seq<T>, key: T -> string, ids: seq<string>)
    requires forall x :: x in t ==> key(x) in ids
    ensures Unpicked(t, key, ids) == []
  {
    if t != [] {
      assert t[|t| - 1] in t;
      KeysInside(t[..|t| - 1], key, ids);
    }
  }

  lemma {:induction false} UnpickedKeys<T(!new)>(s: seq<T>, key: T -> string, ids: seq<string>)
    ensures forall x :: x in Unpicked(s, key, ids) ==> x in s && key(x) !in ids
  {
    if s != [] { UnpickedKeys(s[..|s| - 1], key, ids); }
  }

  lemma {:induction false} WithKeyKeys<T(!new)>(s: seq<T>, key: T -> string, id: string)
    ensures forall x :: x in WithKey(s, key, id) ==> x in s && key(x) == id
  {
    if s != [] { WithKeyKeys(s[..|s| - 1], key, id); }
  }

  lemma {:induction false} PickedKeys<T(!new)>(s: seq<T>, key: T -> string, ids: seq<string>)
    ensures forall x :: x in Picked(s, key, ids) ==> x in s && key(x) in ids
  {
    if ids != [] {
      PickedKeys(s, key, ids[..|ids| - 1]);
      WithKeyKeys(s, key, ids[|ids| - 1]);
    }
  }

  lemma {:induction false} PickedSame<T>(s: seq<T>, t: seq<T>, key: T -> string, ids: seq<string>)
    requires forall id :: id in ids ==> WithKey(s, key, id) == WithKey(t, key, id)
    ensures Picked(s, key, ids) == Picked(t, key, ids)
  {
    if ids != [] {
      var n := |ids| - 1;
      assert ids[n] in ids;
      PickedSame(s, t, key, ids[..n]);
    }
  }

  /** Splitting the picked part followed by anything unpicked gives the two parts back. */
  lemma SplitAgain<T(!new)>(s: seq<T>, key: T -> string, ids: seq<string>, t: seq<T>)
    requires forall x :: x in t ==> key(x) !in ids
    ensures Picked(Picked(s, key, ids) + t, key, ids) == Picked(s, key, ids)
    ensures Unpicked(Picked(s, key, ids) + t, key, ids) == t
  {
    var p := Picked(s, key, ids);
    KeysOutside(t, key, ids);
    PickedKeys(s, key, ids);
    KeysInside(p, key, ids);
    UnpickedConcat(p, t, key, ids);
    forall id | id in ids ensures WithKey(p + t, key, id) == WithKey(s, key, id) {
      WithKeyConcat(p, t, key, id);
      WithKeyPicked(s, key, ids, id);
    }
    PickedSame(p + t, s, key, ids);
  }

  lemma ListedSnoc(ids: seq<string>, id: string, x: string)
    ensures x in ids + [id] <==> x in ids || x == id
  {}

  lemma {:induction false} TakenOut<T>(s: seq<T>, key: T -> string, ids: seq<string>, id: string)
    ensures multiset(Unpicked(s, key, ids)) ==
      multiset(if id in ids then [] else WithKey(s, key, id)) + multiset(Unpicked(s, key, ids + [id]))
  {
    if s != [] {
      var n := |s| - 1;
      TakenOut(s[..n], key, ids, id);
      ListedSnoc(ids, id, key(s[n]));
    }
  }

  lemma Shifts<T>(head: seq<T>, found: seq<T>, before: seq<T>, after: seq<T>, all: seq<T>)
    requires multiset(head) + multiset(before) == multiset(all) && multiset(before) == multiset(found) + multiset(after)
    ensures multiset(head + found) + multiset(after) == multiset(all)
  {}

  /** The two parts are the list. */
  lemma {:induction false} SplitPermutes<T>(s: seq<T>, key: T -> string, ids: seq<string>)
    ensures multiset(Picked(s, key, ids)) + multiset(Unpicked(s, key, ids)) == multiset(s)
  {
    if ids == [] {
      NothingPicked(s, key);
    } else {
      SplitPermutes(s, key, ids[..|ids| - 1]);
      OneMorePicked(s, key, ids);
    }
  }

  function Found<T>(s: seq<T>, key: T -> string, ids: seq<string>, id: string): seq<T> {
    if id in ids then [] else WithKey(s, key, id)
  }

  lemma PickedSnoc<T>(s: seq<T>, key: T -> string, ids: seq<string>)
    requires ids != []
    ensures Picked(s, key, ids) == Picked(s, key, ids[..|ids| - 1]) + Found(s, key, ids[..|ids| - 1], ids[|ids| - 1])
  {}

  lemma UnpickedSnoc<T>(s: seq<T>, key: T -> string, ids: seq<string>)
    requires ids != []
    ensures multiset(Unpicked(s, key, ids[..|ids| - 1])) == multiset(Found(s, key, ids[..|ids| - 1], ids[|ids| - 1])) + multiset(Unpicked(s, key, ids))
  {
    TakenOut(s, key, ids[..|ids| - 1], ids[|ids| - 1]);
    assert ids[..|ids| - 1] + [ids[|ids| - 1]] == ids;
  }

  lemma OneMorePicked<T>(s: seq<T>, key: T -> string, ids: seq<string>)
    requires ids != []
    requires multiset(Picked(s, key, ids[..|ids| - 1])) + multiset(Unpicked(s, key, ids[..|ids| - 1])) == multiset(s)
    ensures multiset(Picked(s, key, ids)) + multiset(Unpicked(s, key, ids)) == multiset(s)
  {
    var init, last := ids[..|ids| - 1], ids[|ids| - 1];
    PickedSnoc(s, key, ids);
    UnpickedSnoc(s, key, ids);
    Shifts(Picked(s, key, init), Found(s, key, init, last), Unpicked(s, key, init), Unpicked(s, key, ids), s);
  }

  /** a is listed at a place before which b is not. */
  ghost predicate NoLater(ids: seq<string>, a: string, b: string) {
    exists i :: 0 <= i < |ids| && ids[i] == a && b !in ids[..i]
  }

  lemma NoLaterMore(ids: seq<string>, a: string, b: string)
    requires ids != [] && NoLater(ids[..|ids| - 1], a, b)
    ensures NoLater(ids, a, b)
  {
    var head := ids[..|ids| - 1];
    var i :| 0 <= i < |head| && head[i] == a && b !in head[..i];
    assert ids[i] == a && ids[..i] == head[..i];
  }

  /** What is picked stands in the order its keys are listed. */
  lemma {:induction false} PickedInTurn<T(!new)>(s: seq<T>, key: T -> string, ids: seq<string>, i: nat, j: nat)
    requires i <= j < |Picked(s, key, ids)|
    ensures NoLater(ids, key(Picked(s, key, ids)[i]), key(Picked(s, key, ids)[j]))
  {
    var n := |ids| - 1;
    var head, r := Picked(s, key, ids[..n]), Picked(s, key, ids);
    PickedKeys(s, key, ids[..n]);
    WithKeyKeys(s, key, ids[n]);
    if j < |head| {
      PickedInTurn(s, key, ids[..n], i, j);
      NoLaterMore(ids, key(head[i]), key(head[j]));
    } else {
      assert r[j] in WithKey(s, key, ids[n]);
      if i < |head| {
        PickedInTurn(s, key, ids[..n], i, i);
        FirstBefore(ids, key(head[i]));
      } else {
        assert r[i] in WithKey(s, key, ids[n]);
      }
    }
  }

  lemma PickedLead<T(!new)>(s: seq<T>, key: T -> string, ids: seq<string>, t: seq<T>, out: seq<T>)
    requires out == Picked(s, key, ids) + t && forall x :: x in t ==> key(x) !in ids
    ensures forall k :: 0 <= k < |out| ==> (k < |Picked(s, key, ids)| <==> key(out[k]) in ids)
    ensures forall i, j :: 0 <= i <= j < |Picked(s, key, ids)| ==> NoLater(ids, key(out[i]), key(out[j]))
  {
    var p := Picked(s, key, ids);
    PickedKeys(s, key, ids);
    forall k | 0 <= k < |out| ensures k < |p| <==> key(out[k]) in ids {
      if k < |p| { assert p[k] in p; } else { assert t[k - |p|] in t; }
    }
    forall i, j | 0 <= i <= j < |p| ensures NoLater(ids, key(out[i]), key(out[j])) { PickedInTurn(s, key, ids, i, j); }
  }

  lemma FirstBefore(ids: seq<string>, a: string)
    requires ids != [] && a in ids[..|ids| - 1] && ids[|ids| - 1] !in ids[..|ids| - 1]
    ensures NoLater(ids, a, ids[|ids| - 1])
  {
    var head := ids[..|ids| - 1];
    var i :| 0 <= i < |head| && head[i] == a;
    assert ids[i] == a && ids[|ids| - 1] !in ids[..i] by { assert forall k :: 0 <= k < i ==> ids[k] == head[k] && head[k] in head; }
  }

  /** at are the places of u in s, in order, and these are where the key is not listed. */
  ghost predicate PlacesOf<T(!new)>(s: seq<T>, key: T -> string, ids: seq<string>, u: seq<T>, at: seq<nat>) {
    && |at| == |u| && (forall k :: 0 <= k < |at| ==> at[k] < |s| && u[k] == s[at[k]])
    && (forall j, k :: 0 <= j < k < |at| ==> at[j] < at[k])
    && forall i: nat :: i < |s| ==> (i in at <==> key(s[i]) !in ids)
  }

  lemma PlaceIn(before: seq<nat>, n: nat, i: nat)
    ensures i in before + [n] <==> i in before || i == n
  {}

  lemma PlacesAdd<T(!new)>(s: seq<T>, key: T -> string, ids: seq<string>, u: seq<T>, at: seq<nat>, x: T)
    requires PlacesOf(s, key, ids, u, at) && key(x) !in ids
    ensures PlacesOf(s + [x], key, ids, u + [x], at + [|s|])
  {
    forall i: nat | i < |s| + 1 ensures i in at + [|s|] <==> key((s + [x])[i]) !in ids { PlaceIn(at, |s|, i); }
  }

  lemma PlacesSkip<T(!new)>(s: seq<T>, key: T -> string, ids: seq<string>, u: seq<T>, at: seq<nat>, x: T)
    requires PlacesOf(s, key, ids, u, at) && key(x) in ids
    ensures PlacesOf(s + [x], key, ids, u, at)
  {}

  /** What is not picked stands as in the list. */
  lemma {:induction false} UnpickedIndices<T(!new)>(s: seq<T>, key: T -> string, ids: seq<string>) returns (at: seq<nat>)
    ensures PlacesOf(s, key, ids, Unpicked(s, key, ids), at)
  {
    at := [];
    if s != [] {
      var n := |s| - 1;
      var before := UnpickedIndices(s[..n], key, ids);
      assert s == s[..n] + [s[n]];
      if key(s[n]) in ids {
        PlacesSkip(s[..n], key, ids, Unpicked(s[..n], key, ids), before, s[n]);
        at := before;
      } else {
        PlacesAdd(s[..n], key, ids, Unpicked(s[..n], key, ids), before, s[n]);
        at := before + [n];
      }
    }
  }
}
