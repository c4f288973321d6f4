/**
  Features as the engine resolves them: a reference, the options it is
  installed with, and, once fetched, its devcontainer-feature.json.
  (config/resolved.go, feature/options.go, feature/graph.go)
 */
module FeatureModel {
  import opened Prelude
  import opened Ordering

  /** An option value; a number is held as its canonical decimal text. */
  datatype Value = Bool(b: bool) | Number(digits: string) | Text(s: string)
  {
    function Sprint(): string {
      match this
      case Bool(b) => if b then "true" else "false"
      case Number(d) => d
      case Text(s) => s
    }
  }

  type Options = map<string, Value>

  datatype OptionDecl = OptionDecl(kind: string, default: Option<Value>, enum: seq<Value>)

  datatype SourceKind = OCI | HTTPS | Local

  /** dependsOn is None when nothing records it (a label of an older build). */
  datatype Metadata = Metadata(
    id: string, version: string, resolvedRef: string, options: map<string, OptionDecl>,
    installsAfter: seq<string>, dependsOn: Option<map<string, Options>>)
  {
    /** The dependencies declared, reading an unrecorded map as empty. */
    function Dependencies(): map<string, Options> {
      if dependsOn.Some? then dependsOn.value else map[]
    }
  }

  const NoMetadata := Metadata("", "", "", map[], [], None)

  /** A feature of the list; unset says that its options are absent rather than empty, which only shows in comparisons. */
  datatype Feature = Feature(
    ref: string, resolvedRef: string, dir: string, metadata: Metadata,
    options: Options, unset: bool, kind: SourceKind, alreadyInstalled: bool)

  /** validateOptionValue: enum membership compares printed forms, then the declared type decides. */
  predicate Accepts(decl: OptionDecl, v: Value) {
    if |decl.enum| > 0 then exists a :: a in decl.enum && a.Sprint() == v.Sprint()
    else if decl.kind == "boolean" then v.Bool?
    else if decl.kind == "string" || decl.kind == "" then v.Text?
    else true
  }

  function Defaults(decls: map<string, OptionDecl>): Options {
    map k | k in decls && decls[k].default.Some? :: decls[k].default.value
  }

  predicate Acceptable(decls: map<string, OptionDecl>, user: Options) {
    forall k :: k in user && k in decls ==> Accepts(decls[k], user[k])
  }

  /** What MergeOptions yields: the defaults overlaid by the request, unless a declared option rejects its value. */
  function MergedOptions(decls: map<string, OptionDecl>, user: Options): (r: Option<Options>)
    ensures r.None? <==> exists k :: k in user && k in decls && !Accepts(decls[k], user[k])
    ensures r.Some? ==> forall k :: k in decls && decls[k].default.Some? ==> k in r.value
    ensures r.Some? ==> forall k :: k in user ==> k in r.value && r.value[k] == user[k]
    ensures r.Some? ==> forall k :: k in r.value && k !in user ==> k in decls && decls[k].default == Some(r.value[k])
  {
    if Acceptable(decls, user) then Some(Defaults(decls) + user) else None
  }

  method CollectDefaults(decls: map<string, OptionDecl>) returns (out: Options)
    ensures out == Defaults(decls)
  {
    out := map[];
    var todo := decls.Keys;
    while todo != {}
      invariant todo <= decls.Keys
      invariant forall k :: k in out ==> k in Defaults(decls) && out[k] == Defaults(decls)[k]
      invariant forall k :: k in Defaults(decls) ==> k in out || k in todo
      decreases |todo|
    {
      var k :| k in todo;
      if decls[k].default.Some? { out := out[k := decls[k].default.value]; }
      todo := todo - {k};
    }
  }

  /** MergeOptions, option by option in any map order. */
  method MergeOptions(decls: map<string, OptionDecl>, user: Options) returns (r: Option<Options>)
    ensures r == MergedOptions(decls, user)
  {
    var defaults := CollectDefaults(decls);
    r := Overlay(decls, user, defaults);
  }

  method Overlay(decls: map<string, OptionDecl>, user: Options, defaults: Options) returns (r: Option<Options>)
    ensures r == if Acceptable(decls, user) then Some(defaults + user) else None
  {
    var out := defaults;
    var done: set<string> := {};
    while user.Keys - done != {}
      invariant done <= user.Keys
      invariant forall k :: k in done && k in decls ==> Accepts(decls[k], user[k])
      invariant out == defaults + Restrict(user, done)
      decreases user.Keys - done
    {
      var k :| k in user.Keys - done;
      if k in decls && !Accepts(decls[k], user[k]) { return None; }
      OverlayStep(defaults, user, done, k);
      out := out[k := user[k]];
      done := done + {k};
    }
    assert done == user.Keys;
    RestrictAll(user);
    return Some(out);
  }

  /** SameOptions: f is installed with what a request for opts resolves to. */
  predicate SameOptions(f: Feature, opts: Options) {
    MergedOptions(f.metadata.options, opts) == Some(f.options)
  }

  /** The last position of c in s, or -1. */
  function LastIndex(s: string, c: char): (i: int)
    ensures -1 <= i < |s|
    ensures i >= 0 ==> s[i] == c
    ensures forall k :: i < k < |s| ==> s[k] != c
  {
    if s == [] then -1
    else if s[|s| - 1] == c then |s| - 1
    else LastIndex(s[..|s| - 1], c)
  }

  predicate ContainsScheme(s: string) {
    exists i :: 0 <= i < |s| - 2 && s[i] == ':' && s[i + 1] == '/' && s[i + 2] == '/'
  }

  /** normalizeID: the reference without digest and tag; a registry port is cut like a tag. */
  function NormalizeID(ref: string): string {
    var at := LastIndex(ref, '@');
    var r := if at >= 0 then ref[..at] else ref;
    var i := LastIndex(r, ':');
    if i >= 0 && (!ContainsScheme(r[..i]) || LastIndex(r, '/') > i) then r[..i] else r
  }
}
