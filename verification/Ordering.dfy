/**
  Bytewise string order, as Go's < on strings, and what sorting by a key gives.
  sort.Slice is not stable, so a sort is described by what it guarantees: a
  permutation in which no later element is less than an earlier one.
 */
module Ordering {
  import opened Prelude

  predicate Less(a: string, b: string)
  {
    b != [] && (a == [] || a[0] < b[0] || (a[0] == b[0] && Less(a[1..], b[1..])))
  }

  lemma {:induction false} LessIrreflexive(a: string)
    ensures !Less(a, a)
  {
    if a != [] { LessIrreflexive(a[1..]); }
  }

  lemma {:induction false} LessTransitive(a: string, b: string, c: string)
    requires Less(a, b) && Less(b, c)
    ensures Less(a, c)
  {
    if a != [] && a[0] == b[0] == c[0] { LessTransitive(a[1..], b[1..], c[1..]); }
  }

  lemma {:induction false} LessTotal(a: string, b: string)
    ensures a == b || Less(a, b) || Less(b, a)
  {
    if a != [] && b != [] && a[0] == b[0] {
      LessTotal(a[1..], b[1..]);
      assert a == [a[0]] + a[1..] && b == [b[0]] + b[1..];
    }
  }

  lemma LessAsymmetric(a: string, b: string)
    requires Less(a, b)
    ensures !Less(b, a)
  {
    if Less(b, a) { LessTransitive(a, b, a); LessIrreflexive(a); }
  }

  /** No element of s is less than an earlier one. */
  ghost predicate SortedBy<T(!new)>(less: (T, T) -> bool, s: seq<T>) {
    forall i, j :: 0 <= i < j < |s| ==> !less(s[j], s[i])
  }

  /** A strict weak order on dom: what sort.Slice asks of its less function. */
  ghost predicate StrictWeak<T(!new)>(less: (T, T) -> bool, dom: set<T>) {
    && (forall x, y :: x in dom && y in dom && less(x, y) ==> !less(y, x))
    && (forall x, y, z :: x in dom && y in dom && z in dom && less(x, y) ==> less(x, z) || less(z, y))
  }

  /** A strict order on which distinct members of dom always compare. */
  ghost predicate StrictTotal<T(!new)>(less: (T, T) -> bool, dom: set<T>) {
    && (forall x, y :: x in dom && y in dom && less(x, y) ==> !less(y, x))
    && (forall x, y :: x in dom && y in dom && x != y ==> less(x, y) || less(y, x))
  }

  /** Sorting has one outcome when distinct elements always compare. */
  lemma {:induction false} SortUnique<T(!new)>(less: (T, T) -> bool, s: seq<T>, t: seq<T>)
    requires NoDup(s) && NoDup(t) && Elements(s) == Elements(t)
    requires SortedBy(less, s) && SortedBy(less, t)
    requires StrictTotal(less, Elements(s))
    ensures s == t
  {
    NoDupCard(s);
    NoDupCard(t);
    if s != [] {
      assert s[0] in Elements(t) && t[0] in Elements(s);
      var i :| 0 <= i < |t| && t[i] == s[0];
      var j :| 0 <= j < |s| && s[j] == t[0];
      assert s[0] == t[0];
      SortTail(s);
      SortTail(t);
      SortUnique(less, s[1..], t[1..]);
      assert s == [s[0]] + s[1..] && t == [t[0]] + t[1..];
    }
  }

  lemma SortTail<T(!new)>(s: seq<T>)
    requires NoDup(s) && s != []
    ensures NoDup(s[1..]) && Elements(s[1..]) == Elements(s) - {s[0]}
  {
    forall x | x in s && x != s[0] ensures x in s[1..] {
      var i :| 0 <= i < |s| && s[i] == x;
      assert s[1..][i - 1] == x;
    }
  }

  /** Where x goes in the sorted r: after everything it is not less than. */
  method InsertionPoint<T(!new)>(r: seq<T>, x: T, less: (T, T) -> bool, ghost dom: set<T>) returns (p: nat)
    requires StrictWeak(less, dom) && SortedBy(less, r) && x in dom && forall y :: y in r ==> y in dom
    ensures p <= |r|
    ensures forall q :: 0 <= q < p ==> !less(x, r[q])
    ensures forall q :: p <= q < |r| ==> less(x, r[q])
  {
    p := |r|;
    while p > 0 && less(x, r[p - 1])
      invariant 0 <= p <= |r|
      invariant forall q :: p <= q < |r| ==> less(x, r[q])
    {
      p := p - 1;
    }
    forall q | 0 <= q < p ensures !less(x, r[q]) {
      assert r[q] in dom && r[p - 1] in dom;
    }
  }

  lemma InsertSorted<T(!new)>(r: seq<T>, x: T, p: nat, less: (T, T) -> bool, dom: set<T>)
    requires StrictWeak(less, dom) && SortedBy(less, r) && x in dom && p <= |r| && forall y :: y in r ==> y in dom
    requires forall q :: 0 <= q < p ==> !less(x, r[q])
    requires forall q :: p <= q < |r| ==> less(x, r[q])
    ensures SortedBy(less, r[..p] + [x] + r[p..])
    ensures multiset(r[..p] + [x] + r[p..]) == multiset(r) + multiset{x}
  {
    var t := r[..p] + [x] + r[p..];
    assert r == r[..p] + r[p..];
    forall i, j | 0 <= i < j < |t| ensures !less(t[j], t[i]) {
      var i' := if i < p then i else i - 1;
      var j' := if j < p then j else j - 1;
      if i != p && j != p { assert t[i] == r[i'] && t[j] == r[j']; }
    }
  }

  /** sort.Slice: the same elements, in order. */
  method Sort<T(!new)>(s: seq<T>, less: (T, T) -> bool, ghost dom: set<T>) returns (r: seq<T>)
    requires Elements(s) <= dom && StrictWeak(less, dom)
    ensures multiset(r) == multiset(s)
    ensures SortedBy(less, r)
  {
    r := [];
    for k := 0 to |s|
      invariant multiset(r) == multiset(s[..k])
      invariant SortedBy(less, r)
    {
      assert s[k] in Elements(s);
      forall y | y in r ensures y in dom {
        assert y in multiset(s[..k]);
        assert y in Elements(s);
      }
      var p := InsertionPoint(r, s[k], less, dom);
      InsertSorted(r, s[k], p, less, dom);
      assert s[..k + 1] == s[..k] + [s[k]];
      r := r[..p] + [s[k]] + r[p..];
    }
    assert s[..|s|] == s;
  }

  // ---- sort.Strings on the keys of a map ----

  lemma {:induction false} LeastExists(s: set<string>) returns (m: string)
    requires s != {}
    ensures m in s && forall x :: x in s ==> !Less(x, m)
  {
    m :| m in s;
    var rest := s - {m};
    assert forall x :: x in s ==> x == m || x in rest;
    LessIrreflexive(m);
    if rest != {} {
      var m' := LeastExists(rest);
      if Less(m', m) {
        LessAsymmetric(m', m);
        m := m';
      } else {
        LessTotal(m, m');
        forall x | x in rest ensures !Less(x, m) {
          if Less(x, m) { LessTransitive(x, m, m'); }
        }
      }
    }
  }

  lemma HasLeast(s: set<string>)
    requires s != {}
    ensures exists m :: m in s && forall x :: x in s ==> !Less(x, m)
  {
    var m := LeastExists(s);
  }

  ghost function Least(s: set<string>): (m: string)
    requires s != {}
    ensures m in s && forall x :: x in s ==> !Less(x, m)
  {
    HasLeast(s);
    var m :| m in s && forall x :: x in s ==> !Less(x, m);
    m
  }

  ghost function SortedKeys(s: set<string>): (r: seq<string>)
    ensures NoDup(r) && Elements(r) == s && SortedBy(Less, r)
  {
    if s == {} then []
    else
      var r := SortedKeys(s - {Least(s)});
      assert forall x :: x in r ==> x in Elements(r);
      [Least(s)] + r
  }

  lemma SortedNonEmpty(s: set<string>)
    requires s != {}
    ensures SortedKeys(s) != []
  {
    var x :| x in s;
    assert x in Elements(SortedKeys(s));
  }

  lemma LessOrders(dom: set<string>)
    ensures StrictWeak(Less, dom) && StrictTotal(Less, dom)
  {
    forall x, y, z | x in dom && y in dom && z in dom
      ensures Less(x, y) ==> !Less(y, x) && (Less(x, z) || Less(z, y))
      ensures x != y ==> Less(x, y) || Less(y, x)
    {
      LessTotal(x, y);
      LessTotal(x, z);
      if Less(x, y) {
        LessAsymmetric(x, y);
        if Less(z, x) { LessTransitive(z, x, y); }
      }
    }
  }

  method SortStrings(s: set<string>) returns (r: seq<string>)
    ensures r == SortedKeys(s)
  {
    var keys: seq<string> := [];
    var todo := s;
    while todo != {}
      invariant todo <= s && NoDup(keys) && Elements(keys) == s - todo
      decreases |todo|
    {
      var k :| k in todo;
      assert k !in Elements(keys);
      keys, todo := keys + [k], todo - {k};
    }
    LessOrders(s);
    r := Sort<string>(keys, Less, s);
    PermutedNoDup(keys, r);
    assert Elements(r) == s;
    SortUnique(Less, r, SortedKeys(s));
  }
}
