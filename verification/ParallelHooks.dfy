/** Named commands of one hook, run side by side and judged together. (lifecycle.go:281-356) */
module ParallelHooks {
  import opened Prelude
  import opened Ordering

  datatype Outcome = Outcome(name: string, exit: int, stdout: string, stderr: string, error: Option<string>)

  datatype Verdict = Verdict(exit: int, stdout: string, stderr: string, error: Option<string>)

  ghost function FirstError(rs: seq<Outcome>): Option<string> {
    if rs == [] then None
    else
      var n := |rs| - 1;
      if FirstError(rs[..n]).Some? then FirstError(rs[..n]) else rs[n].error
  }

  ghost function FirstExit(rs: seq<Outcome>): int {
    if rs == [] then 0
    else
      var n := |rs| - 1;
      if FirstExit(rs[..n]) != 0 then FirstExit(rs[..n]) else rs[n].exit
  }

  function Section(name: string, text: string): string {
    if text == "" then "" else "[" + name + "]\n" + text + "\n"
  }

  ghost function Transcript(rs: seq<Outcome>, get: Outcome -> string): string {
    if rs == [] then ""
    else
      var n := |rs| - 1;
      Transcript(rs[..n], get) + Section(rs[n].name, get(rs[n]))
  }

  const StdoutOf: Outcome -> string := (r: Outcome) => r.stdout
  const StderrOf: Outcome -> string := (r: Outcome) => r.stderr

  lemma OneMore(rs: seq<Outcome>, i: nat)
    requires i < |rs|
    ensures FirstError(rs[..i + 1]) == (if FirstError(rs[..i]).Some? then FirstError(rs[..i]) else rs[i].error)
    ensures FirstExit(rs[..i + 1]) == (if FirstExit(rs[..i]) != 0 then FirstExit(rs[..i]) else rs[i].exit)
    ensures Transcript(rs[..i + 1], StdoutOf) == Transcript(rs[..i], StdoutOf) + Section(rs[i].name, rs[i].stdout)
    ensures Transcript(rs[..i + 1], StderrOf) == Transcript(rs[..i], StderrOf) + Section(rs[i].name, rs[i].stderr)
  {
    assert rs[..i + 1][..i] == rs[..i];
  }

  /** The fold at the end of execParallel, with its flags. */
  method Aggregate(rs: seq<Outcome>) returns (v: Verdict)
    ensures v.stdout == Transcript(rs, StdoutOf) && v.stderr == Transcript(rs, StderrOf)
    ensures v.error == FirstError(rs) && v.exit == if FirstError(rs).Some? then 0 else FirstExit(rs)
  {
    var firstExit, aggOut, aggErr, nonZeroSet, anyErr := 0, "", "", false, false;
    var firstErr: Option<string> := None;
    for i := 0 to |rs|
      invariant anyErr == FirstError(rs[..i]).Some? && firstErr == FirstError(rs[..i])
      invariant nonZeroSet == (FirstExit(rs[..i]) != 0) && firstExit == FirstExit(rs[..i])
      invariant aggOut == Transcript(rs[..i], StdoutOf) && aggErr == Transcript(rs[..i], StderrOf)
    {
      var r := rs[i];
      OneMore(rs, i);
      if r.error.Some? && !anyErr { firstErr, anyErr := r.error, true; }
      if r.exit != 0 && !nonZeroSet { firstExit, nonZeroSet := r.exit, true; }
      if r.stdout != "" { aggOut := aggOut + Section(r.name, r.stdout); }
      if r.stderr != "" { aggErr := aggErr + Section(r.name, r.stderr); }
    }
    assert rs[..|rs|] == rs;
    if anyErr { return Verdict(0, aggOut, aggErr, firstErr); }
    return Verdict(firstExit, aggOut, aggErr, None);
  }

  /** The hook passes exactly when every command ran and exited 0. */
  lemma {:induction false} PassesIffAll(rs: seq<Outcome>)
    ensures FirstError(rs).None? && FirstExit(rs) == 0 <==> forall i :: 0 <= i < |rs| ==> rs[i].error.None? && rs[i].exit == 0
    ensures FirstError(rs).None? <==> forall i :: 0 <= i < |rs| ==> rs[i].error.None?
    ensures FirstExit(rs) == 0 <==> forall i :: 0 <= i < |rs| ==> rs[i].exit == 0
  {
    if rs != [] {
      var n := |rs| - 1;
      PassesIffAll(rs[..n]);
      assert forall i :: 0 <= i < n ==> rs[..n][i] == rs[i];
      if forall i :: 0 <= i < |rs| ==> rs[i].error.None? { forall i | 0 <= i < n ensures rs[..n][i].error.None? {} }
      if forall i :: 0 <= i < |rs| ==> rs[i].exit == 0 { forall i | 0 <= i < n ensures rs[..n][i].exit == 0 {} }
    }
  }

  /** The error reported is that of the first command that could not be run, the exit code the first that is not 0. */
  lemma {:induction false} FirstIs(rs: seq<Outcome>)
    ensures FirstError(rs).Some? ==> exists i :: 0 <= i < |rs| && rs[i].error == FirstError(rs) && forall j :: 0 <= j < i ==> rs[j].error.None?
    ensures FirstExit(rs) != 0 ==> exists i :: 0 <= i < |rs| && rs[i].exit == FirstExit(rs) && forall j :: 0 <= j < i ==> rs[j].exit == 0
  {
    if rs != [] {
      var n := |rs| - 1;
      FirstIs(rs[..n]);
      PassesIffAll(rs[..n]);
      assert forall i :: 0 <= i < n ==> rs[..n][i] == rs[i];
    }
  }

  /** What a command wrote, under its name in brackets; nothing for one that wrote nothing. */
  function Piece(r: Outcome, stderr: bool): string {
    var text := match stderr case true => r.stderr case false => r.stdout;
    if |text| > 0 then "[" + r.name + "]\n" + text + "\n" else ""
  }

  function Printed(rs: seq<Outcome>, stderr: bool): string {
    if rs == [] then "" else Piece(rs[0], stderr) + Printed(rs[1..], stderr)
  }

  lemma {:induction false} PrintedSnoc(all: seq<Outcome>, rs: seq<Outcome>, r: Outcome, stderr: bool)
    requires all == rs + [r]
    ensures Printed(all, stderr) == Printed(rs, stderr) + Piece(r, stderr)
  {
    if rs == [] {
      assert all == [r] && all[1..] == [];
    } else {
      assert all[0] == rs[0];
      PrintedSnoc(all[1..], rs[1..], r, stderr);
      Regroup(Piece(rs[0], stderr), Printed(rs[1..], stderr), Piece(r, stderr));
    }
  }

  lemma Regroup(a: string, b: string, c: string)
    ensures a + (b + c) == a + b + c
  {}

  lemma SectionIs(r: Outcome, stderr: bool)
    ensures Piece(r, stderr) == Section(r.name, if stderr then r.stderr else r.stdout)
  {}

  lemma TranscriptSnoc(all: seq<Outcome>, rs: seq<Outcome>, r: Outcome, get: Outcome -> string, text: string)
    requires all == rs + [r] && get(r) == text
    ensures Transcript(all, get) == Transcript(rs, get) + Section(r.name, text)
  {
    assert all[..|all| - 1] == rs;
  }

  lemma Grows(before: string, piece: string, all: string, before': string, piece': string, all': string)
    requires before == before' && piece == piece' && all == before + piece && all' == before' + piece'
    ensures all == all'
  {}

  /** The transcript prints what each command wrote, one after the other. */
  lemma {:induction false} TranscriptIs(rs: seq<Outcome>)
    ensures Transcript(rs, StdoutOf) == Printed(rs, false) && Transcript(rs, StderrOf) == Printed(rs, true)
  {
    if rs != [] {
      var n := |rs| - 1;
      var head, last := rs[..n], rs[n];
      assert rs == head + [last];
      TranscriptIs(head);
      StepPrints(rs, head, last, StdoutOf, last.stdout, false);
      StepPrints(rs, head, last, StderrOf, last.stderr, true);
    }
  }

  lemma StepPrints(all: seq<Outcome>, rs: seq<Outcome>, r: Outcome, get: Outcome -> string, text: string, stderr: bool)
    requires all == rs + [r] && get(r) == text && text == (if stderr then r.stderr else r.stdout)
    requires Transcript(rs, get) == Printed(rs, stderr)
    ensures Transcript(all, get) == Printed(all, stderr)
  {
    TranscriptSnoc(all, rs, r, get, text);
    PrintedSnoc(all, rs, r, stderr);
    SectionIs(r, stderr);
    Grows(Transcript(rs, get), Section(r.name, text), Transcript(all, get), Printed(rs, stderr), Piece(r, stderr), Printed(all, stderr));
  }

  /** The outcomes, slotted by sorted name. */
  ghost function Slots(names: set<string>, answer: string -> Outcome): (rs: seq<Outcome>)
    ensures |rs| == |SortedKeys(names)| && forall i :: 0 <= i < |rs| ==> rs[i] == answer(SortedKeys(names)[i]).(name := SortedKeys(names)[i])
  {
    var keys := SortedKeys(names);
    seq(|keys|, i requires 0 <= i < |keys| => answer(keys[i]).(name := keys[i]))
  }

  /** The goroutines end one after another, each writing its slot; what is not in the order so far is unwritten. */
  ghost predicate Filled(keys: seq<string>, answer: string -> Outcome, ended: seq<nat>, results: seq<Outcome>) {
    |results| == |keys| && forall i: nat :: i < |keys| && i in ended ==> results[i] == answer(keys[i]).(name := keys[i])
  }

  /**
    execParallel: whatever the commands answer and in whatever order they end,
    the verdict is that of their outcomes sorted by name.
   */
  method ExecParallel(names: set<string>, answer: string -> Outcome, order: seq<nat>) returns (v: Verdict)
    requires forall i: nat :: i in order <==> i < |names|
    ensures var rs := Slots(names, answer);
      && v.stdout == Transcript(rs, StdoutOf) && v.stderr == Transcript(rs, StderrOf)
      && v.error == FirstError(rs) && v.exit == if FirstError(rs).Some? then 0 else FirstExit(rs)
  {
    var keys := SortStrings(names);
    NoDupCard(keys);
    assert |keys| == |names|;
    var results := new Outcome[|keys|](_ => Outcome("", 0, "", "", None));
    for k := 0 to |order|
      invariant Filled(keys, answer, order[..k], results[..])
    {
      var i := order[k];
      assert i in order && order[..k + 1] == order[..k] + [i];
      results[i] := answer(keys[i]).(name := keys[i]);
    }
    assert order[..|order|] == order;
    assert results[..] == Slots(names, answer);
    v := Aggregate(results[..]);
  }
}
