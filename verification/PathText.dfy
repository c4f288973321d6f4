/** Colon-separated lists. */
module PathText {
  import opened Prelude

  predicate NoColon(t: string) { ':' !in t }

  /** strings.Split(s, ":"). */
  function Split(s: string): (ts: seq<string>)
    ensures ts != [] && forall i :: 0 <= i < |ts| ==> NoColon(ts[i])
  {
    if s == "" then [""]
    else if s[0] == ':' then [""] + Split(s[1..])
    else
      var rest := Split(s[1..]);
      [[s[0]] + rest[0]] + rest[1..]
  }

  /** strings.Join(ts, ":"). */
  function Join(ts: seq<string>): string {
    if ts == [] then "" else if |ts| == 1 then ts[0] else ts[0] + ":" + Join(ts[1..])
  }

  lemma {:induction false} SplitToken(t: string, s: string)
    requires NoColon(t)
    ensures Split(t + ":" + s) == [t] + Split(s) && Split(t) == [t]
  {
    if t == "" {
      assert t + ":" + s == ":" + s && (":" + s)[1..] == s;
    } else {
      SplitToken(t[1..], s);
      assert (t + ":" + s)[1..] == t[1..] + ":" + s;
      assert [t[0]] + t[1..] == t;
    }
  }

  /** Splitting undoes joining. */
  lemma {:induction false} SplitJoin(ts: seq<string>)
    requires ts != [] && forall i :: 0 <= i < |ts| ==> NoColon(ts[i])
    ensures Split(Join(ts)) == ts
  {
    if |ts| == 1 {
      SplitToken(ts[0], "");
    } else {
      SplitJoin(ts[1..]);
      SplitToken(ts[0], Join(ts[1..]));
    }
  }
}
