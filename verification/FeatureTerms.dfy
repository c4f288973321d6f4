/**
  Identity and options of features, told on the references and values
  themselves. (feature/graph.go:176-188, 282-299; feature/options.go:13-87)
 */
module FeatureTerms {
  import opened Prelude
  import opened FeatureModel

  // ---- identity ----

  /** Text with a scheme separator in it. */
  ghost predicate HasScheme(s: string) {
    exists a: string, b: string :: s == a + "://" + b
  }

  /** id is r without a tag: what stands before the last colon, unless that colon belongs to a scheme's reference and no slash follows it. */
  ghost predicate Untagged(r: string, id: string) {
    if ':' !in r then id == r
    else exists name: string, tag: string :: r == name + ":" + tag && ':' !in tag && id == if HasScheme(name) && '/' !in tag then r else name
  }

  lemma SchemeIs(s: string)
    ensures ContainsScheme(s) <==> HasScheme(s)
  {
    if i :| 0 <= i < |s| - 2 && s[i] == ':' && s[i + 1] == '/' && s[i + 2] == '/' {
      assert s == s[..i] + "://" + s[i + 3..];
    }
    if a: string, b: string :| s == a + "://" + b {
      assert s[|a|] == ':' && s[|a| + 1] == '/' && s[|a| + 2] == '/';
    }
  }

  /** What is left of a reference once its digest is off. */
  function Cut(r: string): string {
    var i := LastIndex(r, ':');
    if i >= 0 && (!ContainsScheme(r[..i]) || LastIndex(r, '/') > i) then r[..i] else r
  }

  lemma CutIs(r: string)
    ensures Untagged(r, Cut(r))
  {
    if ':' in r {
      var i := LastIndex(r, ':');
      var name, tag := r[..i], r[i + 1..];
      assert r == name + ":" + tag;
      SchemeIs(name);
      SlashAfter(r, i);
      assert ':' !in tag && Cut(r) == if HasScheme(name) && '/' !in tag then r else name;
    }
  }

  lemma SlashAfter(r: string, i: nat)
    requires i < |r|
    ensures '/' in r[i + 1..] <==> LastIndex(r, '/') > i
  {
    var rest := r[i + 1..];
    if k :| 0 <= k < |rest| && rest[k] == '/' { assert r[i + 1 + k] == '/'; }
    if LastIndex(r, '/') > i { assert rest[LastIndex(r, '/') - i - 1] == '/'; }
  }

  lemma LastAt(name: string, digest: string, r: string)
    requires '@' !in digest && r == name + ['@'] + digest
    ensures LastIndex(r, '@') == |name| && r[..|name|] == name
  {
    assert r[|name|] == '@';
    forall k | |name| < k < |r| ensures r[k] != '@' { assert r[k] == digest[k - |name| - 1]; }
  }

  lemma IdIs(ref: string)
    ensures NormalizeID(ref) == Cut(if LastIndex(ref, '@') >= 0 then ref[..LastIndex(ref, '@')] else ref)
  {}

  /** The id of any reference: what stands before its last at sign, or all of it without one, and of that what stands before the tag. */
  lemma IdentityIs(name: string, digest: string)
    requires '@' !in digest
    ensures Untagged(name, NormalizeID(name + "@" + digest))
    ensures '@' !in name ==> Untagged(name, NormalizeID(name)) && NormalizeID(name + "@" + digest) == NormalizeID(name)
  {
    CutIs(name);
    LastAt(name, digest, name + "@" + digest);
    IdIs(name + "@" + digest);
    IdIs(name);
  }

  // ---- options ----

  predicate PrintsAs(v: Value, s: string) {
    (v == Bool(true) && s == "true") || (v == Bool(false) && s == "false") || v == Number(s) || v == Text(s)
  }

  /** The option allows certain values and v prints as none of them; or it allows any of a type that is not v's. */
  ghost predicate Refuses(decl: OptionDecl, v: Value) {
    if decl.enum != [] then forall a, s :: a in decl.enum && PrintsAs(a, s) ==> !PrintsAs(v, s)
    else (decl.kind == "boolean" && !v.Bool?) || (decl.kind in {"string", ""} && !v.Text?)
  }

  lemma PrintIs(v: Value, s: string)
    ensures PrintsAs(v, s) <==> v.Sprint() == s
  {}

  lemma RefusesIs(decl: OptionDecl, v: Value)
    ensures Refuses(decl, v) <==> !Accepts(decl, v)
  {
    if decl.enum != [] {
      forall a | a in decl.enum ensures (forall s :: PrintsAs(a, s) ==> !PrintsAs(v, s)) <==> a.Sprint() != v.Sprint() {
        forall s ensures (PrintsAs(a, s) <==> a.Sprint() == s) && (PrintsAs(v, s) <==> v.Sprint() == s) { PrintIs(a, s); PrintIs(v, s); }
        assert PrintsAs(a, a.Sprint());
      }
    }
  }

  /** A request fails exactly when it gives some declared option a value that option refuses. */
  lemma RejectsExactly(decls: map<string, OptionDecl>, user: Options)
    ensures MergedOptions(decls, user).None? <==> exists k :: k in user && k in decls && Refuses(decls[k], user[k])
  {
    forall k | k in user && k in decls ensures Refuses(decls[k], user[k]) <==> !Accepts(decls[k], user[k]) { RefusesIs(decls[k], user[k]); }
  }

  /** f is installed with a request's options when that request is good and f has the values it gives and the defaults of what it leaves out, and no others. */
  lemma SameOptionsIs(f: Feature, opts: Options)
    ensures SameOptions(f, opts) <==>
      && (forall k :: k in opts && k in f.metadata.options ==> !Refuses(f.metadata.options[k], opts[k]))
      && (forall k :: k in f.options <==> k in opts || (k in f.metadata.options && f.metadata.options[k].default.Some?))
      && (forall k :: k in f.options ==> f.options[k] == if k in opts then opts[k] else f.metadata.options[k].default.value)
  {
    RejectsExactly(f.metadata.options, opts);
    var m, decls := MergedOptions(f.metadata.options, opts), f.metadata.options;
    if m.Some? {
      forall k ensures k in m.value <==> k in opts || (k in decls && decls[k].default.Some?) {
        if k in m.value && k !in opts { assert k in decls && decls[k].default == Some(m.value[k]); }
      }
      if forall k :: k in f.options <==> k in m.value { SameValues(m.value, f.options); }
    }
  }

  lemma SameValues(a: Options, b: Options)
    requires forall k :: k in b <==> k in a
    ensures a == b <==> forall k :: k in b ==> b[k] == a[k]
  {}
}
