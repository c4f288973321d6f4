/** Mounts: one per target, the last one declared. (config/merge_metadata.go:307-341) */
module MountLists {
  import opened Prelude
  import opened Metadata
  import opened MergeLists

  predicate HasTarget(ms: seq<Mount>, t: string) {
    exists k :: 0 <= k < |ms| && ms[k].target == t
  }

  /** Each targeted mount only where its target is last named; mounts without a target all stay. */
  function LastPerTarget(ms: seq<Mount>): seq<Mount> {
    if ms == [] then []
    else if ms[0].target != "" && HasTarget(ms[1..], ms[0].target) then LastPerTarget(ms[1..])
    else [ms[0]] + LastPerTarget(ms[1..])
  }

  /** Nothing after position i names its target again. */
  ghost predicate Final(ms: seq<Mount>, i: nat) {
    i < |ms| && (ms[i].target == "" || forall j :: i < j < |ms| ==> ms[j].target != ms[i].target)
  }

  /** What is kept is exactly what nothing later overrides, where it stands. */
  lemma {:induction false} LastMountWins(ms: seq<Mount>) returns (at: seq<nat>)
    ensures Picks(ms, at, LastPerTarget(ms)) && forall i: nat :: i < |ms| ==> (i in at <==> Final(ms, i))
  {
    at := [];
    if ms != [] {
      var rest := ms[1..];
      var later := LastMountWins(rest);
      var moved := Shifted(later);
      PicksLater(ms, later, LastPerTarget(rest));
      at := if ms[0].target != "" && HasTarget(rest, ms[0].target) then moved else [0] + moved;
      forall i: nat | i < |ms| ensures i in at <==> Final(ms, i) {
        if i == 0 {
          FinalHead(ms);
          ShiftedIn(later, 0);
        } else {
          FinalTail(ms, i);
          ShiftedIn(later, i);
        }
      }
    }
  }

  ghost function Shifted(at: seq<nat>): seq<nat> {
    seq(|at|, k requires 0 <= k < |at| => at[k] + 1)
  }

  lemma ShiftedIn(at: seq<nat>, i: nat)
    ensures i in Shifted(at) <==> i > 0 && i - 1 in at
  {
    if i > 0 && i - 1 in at { var k :| 0 <= k < |at| && at[k] == i - 1; assert Shifted(at)[k] == i; }
  }

  lemma PicksLater(ms: seq<Mount>, at: seq<nat>, r: seq<Mount>)
    requires ms != [] && Picks(ms[1..], at, r)
    ensures Picks(ms, Shifted(at), r) && Picks(ms, [0] + Shifted(at), [ms[0]] + r)
  {}

  lemma FinalHead(ms: seq<Mount>)
    requires ms != []
    ensures Final(ms, 0) <==> ms[0].target == "" || !HasTarget(ms[1..], ms[0].target)
  {
    var t := ms[0].target;
    if k :| 0 <= k < |ms[1..]| && ms[1..][k].target == t { assert ms[k + 1].target == t; }
    if j :| 0 < j < |ms| && ms[j].target == t { assert ms[1..][j - 1].target == t; }
  }

  lemma FinalTail(ms: seq<Mount>, i: nat)
    requires 0 < i < |ms|
    ensures Final(ms, i) <==> Final(ms[1..], i - 1)
  {
    forall j | 0 < j < |ms| ensures ms[1..][j - 1] == ms[j] {}
    if Final(ms[1..], i - 1) && ms[i].target != "" {
      forall j | i < j < |ms| ensures ms[j].target != ms[i].target { assert ms[1..][j - 1].target != ms[1..][i - 1].target; }
    }
  }

  lemma HasTargetConcat(a: seq<Mount>, b: seq<Mount>, t: string)
    ensures HasTarget(a + b, t) <==> HasTarget(a, t) || HasTarget(b, t)
  {
    var s := a + b;
    if k :| 0 <= k < |a| && a[k].target == t { assert s[k] == a[k]; }
    if k :| 0 <= k < |b| && b[k].target == t { assert s[|a| + k] == b[k]; }
    if k :| 0 <= k < |s| && s[k].target == t { assert s[k] == if k < |a| then a[k] else b[k - |a|]; }
  }

  lemma {:induction false} TargetsKept(ms: seq<Mount>, t: string)
    ensures HasTarget(LastPerTarget(ms), t) <==> HasTarget(ms, t)
  {
    if ms != [] {
      TargetsKept(ms[1..], t);
      HasTargetConcat([ms[0]], ms[1..], t);
      HasTargetConcat([ms[0]], LastPerTarget(ms[1..]), t);
      assert [ms[0]] + ms[1..] == ms;
      assert HasTarget([ms[0]], t) <==> ms[0].target == t by {
        if HasTarget([ms[0]], t) { var k :| 0 <= k < 1 && [ms[0]][k].target == t; }
        if ms[0].target == t { assert [ms[0]][0].target == t; }
      }
    }
  }

  lemma {:induction false} MountsConcat(a: seq<Mount>, b: seq<Mount>)
    ensures LastPerTarget(a + LastPerTarget(b)) == LastPerTarget(a + b)
  {
    if a == [] {
      assert a + b == b && a + LastPerTarget(b) == LastPerTarget(b);
      MountsIdempotent(b);
    } else {
      MountsConcat(a[1..], b);
      assert (a + b)[1..] == a[1..] + b && (a + LastPerTarget(b))[1..] == a[1..] + LastPerTarget(b);
      HasTargetConcat(a[1..], b, a[0].target);
      HasTargetConcat(a[1..], LastPerTarget(b), a[0].target);
      TargetsKept(b, a[0].target);
    }
  }

  lemma {:induction false} MountsIdempotent(ms: seq<Mount>)
    ensures LastPerTarget(LastPerTarget(ms)) == LastPerTarget(ms)
  {
    if ms != [] {
      MountsIdempotent(ms[1..]);
      TargetsKept(ms[1..], ms[0].target);
      assert ([ms[0]] + LastPerTarget(ms[1..]))[1..] == LastPerTarget(ms[1..]);
    }
  }

  ghost predicate AllTargeted(ms: seq<Mount>) {
    forall k :: 0 <= k < |ms| ==> ms[k].target != ""
  }

  lemma {:induction false} MountsAbsorbed(a: seq<Mount>, c: seq<Mount>)
    requires AllTargeted(a) && forall k :: 0 <= k < |a| ==> HasTarget(c, a[k].target)
    ensures LastPerTarget(a + c) == LastPerTarget(c)
  {
    if a == [] { assert a + c == c; }
    else {
      assert (a + c)[1..] == a[1..] + c;
      HasTargetConcat(a[1..], c, a[0].target);
      MountsAbsorbed(a[1..], c);
    }
  }

  /** How many mounts have no target; merging never drops one. */
  function Untargeted(ms: seq<Mount>): nat {
    if ms == [] then 0 else (if ms[0].target == "" then 1 else 0) + Untargeted(ms[1..])
  }

  lemma {:induction false} UntargetedConcat(a: seq<Mount>, b: seq<Mount>)
    ensures Untargeted(a + b) == Untargeted(a) + Untargeted(b)
  {
    if a == [] { assert a + b == b; }
    else { assert (a + b)[1..] == a[1..] + b; UntargetedConcat(a[1..], b); }
  }

  lemma {:induction false} UntargetedStay(ms: seq<Mount>)
    ensures Untargeted(LastPerTarget(ms)) == Untargeted(ms)
  {
    if ms != [] {
      UntargetedStay(ms[1..]);
      assert ([ms[0]] + LastPerTarget(ms[1..]))[1..] == LastPerTarget(ms[1..]);
    }
  }

  lemma {:induction false} UntargetedNone(ms: seq<Mount>)
    ensures Untargeted(ms) == 0 <==> AllTargeted(ms)
  {
    if ms != [] {
      UntargetedNone(ms[1..]);
      assert forall k :: 0 < k < |ms| ==> ms[k] == ms[1..][k - 1];
      assert AllTargeted(ms) <==> ms[0].target != "" && AllTargeted(ms[1..]) by {
        if AllTargeted(ms) { assert ms[0].target != ""; forall k | 0 <= k < |ms[1..]| ensures ms[1..][k].target != "" { assert ms[1..][k] == ms[k + 1]; } }
      }
    }
  }

  /** Merging the same targeted mounts again changes nothing; an untargeted one is added again. */
  lemma MountsTwice(a: seq<Mount>, b: seq<Mount>)
    ensures LastPerTarget(a + LastPerTarget(a + b)) == LastPerTarget(a + b) <==> AllTargeted(a)
  {
    MountsConcat(a, a + b);
    UntargetedStay(a + (a + b));
    UntargetedStay(a + b);
    UntargetedConcat(a, a + b);
    UntargetedNone(a);
    if AllTargeted(a) {
      forall k | 0 <= k < |a| ensures HasTarget(a + b, a[k].target) { HasTargetConcat(a, b, a[k].target); }
      MountsAbsorbed(a, a + b);
    }
  }

  function Reversed(s: seq<Mount>): seq<Mount> {
    if s == [] then [] else [s[|s| - 1]] + Reversed(s[..|s| - 1])
  }

  lemma ReversedSnoc(s: seq<Mount>, m: Mount)
    ensures Reversed(s + [m]) == [m] + Reversed(s)
  {
    assert (s + [m])[..|s|] == s;
  }

  lemma SuffixStep(ms: seq<Mount>, i: nat)
    requires i < |ms|
    ensures LastPerTarget(ms[i..]) ==
      (if ms[i].target != "" && HasTarget(ms[i + 1..], ms[i].target) then [] else [ms[i]]) + LastPerTarget(ms[i + 1..])
    ensures forall t :: HasTarget(ms[i..], t) <==> ms[i].target == t || HasTarget(ms[i + 1..], t)
  {
    assert ms[i..] == [ms[i]] + ms[i + 1..] && ms[i..][1..] == ms[i + 1..];
    forall t ensures HasTarget(ms[i..], t) <==> ms[i].target == t || HasTarget(ms[i + 1..], t) { HasTargetCons(ms[i], ms[i + 1..], t); }
  }

  /** dedupMountsByTarget: walk backward keeping the first sight of each target, then reverse. */
  method DedupByTarget(ms: seq<Mount>) returns (out: seq<Mount>)
    ensures out == LastPerTarget(ms)
  {
    var seen: set<string> := {};
    var rev: seq<Mount> := [];
    for i := |ms| downto 0
      invariant Reversed(rev) == LastPerTarget(ms[i..])
      invariant forall t :: t in seen <==> t != "" && HasTarget(ms[i..], t)
    {
      SuffixStep(ms, i);
      ReversedSnoc(rev, ms[i]);
      if ms[i].target == "" {
        rev := rev + [ms[i]];
      } else if ms[i].target !in seen {
        seen := seen + {ms[i].target};
        rev := rev + [ms[i]];
      }
    }
    out := Reverse(rev);
    assert ms[0..] == ms;
  }

  lemma HasTargetCons(m: Mount, ms: seq<Mount>, t: string)
    ensures HasTarget([m] + ms, t) <==> m.target == t || HasTarget(ms, t)
  {
    HasTargetConcat([m], ms, t);
    if m.target == t { assert [m][0].target == t; }
  }

  method Reverse(s: seq<Mount>) returns (r: seq<Mount>)
    ensures r == Reversed(s)
  {
    r := [];
    assert s[..|s|] == s;
    for i := |s| downto 0
      invariant Reversed(s) == r + Reversed(s[..i])
    {
      assert s[..i + 1] == s[..i] + [s[i]];
      ReversedSnoc(s[..i], s[i]);
      r := r + [s[i]];
    }
  }
}
