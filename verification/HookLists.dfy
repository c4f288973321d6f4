/** Lifecycle hooks of layers. (config/merge_metadata.go:343-361) */
module HookLists {
  import opened Prelude
  import opened Metadata

  /** The hooks that have something to run. */
  function Configured(hs: seq<Hook>): seq<Hook> {
    if hs == [] then []
    else Configured(hs[..|hs| - 1]) + if hs[|hs| - 1].IsEmpty() then [] else [hs[|hs| - 1]]
  }

  lemma {:induction false} ConfiguredConcat(a: seq<Hook>, b: seq<Hook>)
    ensures Configured(a + b) == Configured(a) + Configured(b)
  {
    if b == [] { assert a + b == a; }
    else {
      assert (a + b)[..|a + b| - 1] == a + b[..|b| - 1];
      ConfiguredConcat(a, b[..|b| - 1]);
    }
  }

  /** prependHooks. */
  method PrependHooks(hs: seq<Hook>, user: seq<Hook>) returns (r: seq<Hook>)
    ensures r == Configured(hs) + user
  {
    r := [];
    for i := 0 to |hs|
      invariant r == Configured(hs[..i])
    {
      assert hs[..i + 1][..i] == hs[..i];
      if hs[i].IsEmpty() { continue; }
      r := r + [hs[i]];
    }
    assert hs[..|hs|] == hs;
    r := r + user;
  }
}
