/**
  Which order a successful sort returns, told on references and option texts:
  features are listed turn by turn, those nothing precedes first, then those
  each listed feature was the last to hold up, and within a turn by reference
  and then by the JSON of their options. (feature/graph.go:42-155, 190-199)
 */
module InstallOrder {
  import opened Prelude
  import opened Ordering
  import opened Graphs
  import opened FeatureModel
  import opened FeatureGraph
  import opened Kahn
  import opened TopoSort
  import opened Determinism

  // ---- turns of the queue ----

  /** x is held up by nothing after the first r listed, and by the r-th of them. */
  ghost predicate ReleasedBy(edges: set<(nat, nat)>, out: seq<nat>, x: nat, r: nat) {
    && r <= |out| && (forall a :: (a, x) in edges ==> a in out[..r])
    && (r > 0 ==> (out[r - 1], x) in edges)
  }

  /** What is listed and queued stands turn by turn, and in order within a turn. */
  ghost predicate TurnByTurn(edges: set<(nat, nat)>, less: (nat, nat) -> bool, out: seq<nat>, all: seq<nat>, turn: seq<nat>) {
    && |turn| == |all| && (forall k :: 0 <= k < |all| ==> ReleasedBy(edges, out, all[k], turn[k]))
    && forall i, j :: 0 <= i < j < |all| ==> turn[i] <= turn[j] && (turn[i] == turn[j] ==> !less(all[j], all[i]))
  }

  lemma ReleasedMore(edges: set<(nat, nat)>, out: seq<nat>, more: seq<nat>, x: nat, r: nat)
    requires ReleasedBy(edges, out, x, r) && out <= more
    ensures ReleasedBy(edges, more, x, r)
  {
    assert more[..r] == out[..r];
  }

  lemma TurnsMore(edges: set<(nat, nat)>, less: (nat, nat) -> bool, out: seq<nat>, more: seq<nat>, all: seq<nat>, turn: seq<nat>, batch: seq<nat>)
    requires TurnByTurn(edges, less, out, all, turn) && out <= more && |more| == |out| + 1 && SortedBy(less, batch)
    requires forall k :: 0 <= k < |batch| ==> ReleasedBy(edges, more, batch[k], |more|)
    ensures TurnByTurn(edges, less, more, all + batch, turn + seq(|batch|, _ => |more|))
  {
    var all', turn' := all + batch, turn + seq(|batch|, _ => |more|);
    forall k | 0 <= k < |all'| ensures ReleasedBy(edges, more, all'[k], turn'[k]) {
      if k < |all| { ReleasedMore(edges, out, more, all[k], turn[k]); }
    }
    forall i, j | 0 <= i < j < |all'| ensures turn'[i] <= turn'[j] && (turn'[i] == turn'[j] ==> !less(all'[j], all'[i])) {
      if i < |all| <= j { assert ReleasedBy(edges, out, all[i], turn[i]); }
    }
  }

  lemma BatchTurn(edges: set<(nat, nat)>, n: nat, out: seq<nat>, i: nat, x: nat)
    requires x in Released(edges, n, Elements(out), i)
    ensures ReleasedBy(edges, out + [i], x, |out| + 1)
  {
    assert (out + [i])[..|out| + 1] == out + [i];
    forall a | (a, x) in edges ensures a in out + [i] { assert a in Elements(out) + {i}; }
  }

  lemma InitTurns(edges: set<(nat, nat)>, n: nat, less: (nat, nat) -> bool, t: State)
    requires IsInit(edges, n, less, t)
    ensures TurnByTurn(edges, less, t.out, t.out + t.ready, seq(|t.ready|, _ => 0))
  {
    assert t.out + t.ready == t.ready;
    forall m | 0 <= m < |t.ready| ensures ReleasedBy(edges, t.out, t.ready[m], 0) {
      assert t.ready[m] in t.ready;
      assert Unblocked(edges, {}, t.ready[m]);
    }
  }

  lemma StepTurns(edges: set<(nat, nat)>, n: nat, less: (nat, nat) -> bool, s: State, t: State, before: seq<nat>)
    requires IsStep(edges, n, less, s, t) && TurnByTurn(edges, less, s.out, s.out + s.ready, before)
    ensures TurnByTurn(edges, less, t.out, t.out + t.ready, before + seq(|t.ready| - |s.ready| + 1, _ => |t.out|))
  {
    var batch := t.ready[|s.ready| - 1..];
    forall k | 0 <= k < |batch| ensures ReleasedBy(edges, t.out, batch[k], |t.out|) {
      assert batch[k] in Elements(batch);
      BatchTurn(edges, n, s.out, s.ready[0], batch[k]);
    }
    TurnsMore(edges, less, s.out, t.out, s.out + s.ready, before, batch);
    Moved(s.out, s.ready, batch, t.ready);
  }

  /** The head moves from the queue to the listing, the batch joins the queue. */
  lemma Moved(out: seq<nat>, ready: seq<nat>, batch: seq<nat>, ready': seq<nat>)
    requires ready != [] && ready[1..] <= ready' && batch == ready'[|ready| - 1..]
    ensures out + ready + batch == out + [ready[0]] + ready'
  {
    assert ready == [ready[0]] + ready[1..] && ready' == ready[1..] + batch;
  }

  lemma RunStepTurns(edges: set<(nat, nat)>, n: nat, less: (nat, nat) -> bool, run: seq<State>, k: nat, before: seq<nat>) returns (turn: seq<nat>)
    requires 0 < k < |run| && StepAt(edges, n, less, run, k)
    requires TurnByTurn(edges, less, run[k - 1].out, run[k - 1].out + run[k - 1].ready, before)
    ensures TurnByTurn(edges, less, run[k].out, run[k].out + run[k].ready, turn)
  {
    StepTurns(edges, n, less, run[k - 1], run[k], before);
    turn := before + seq(|run[k].ready| - |run[k - 1].ready| + 1, _ => |run[k].out|);
  }

  lemma {:induction false} RunTurns(edges: set<(nat, nat)>, n: nat, less: (nat, nat) -> bool, run: seq<State>, k: nat) returns (turn: seq<nat>)
    requires IsRun(edges, n, less, run) && k < |run|
    ensures TurnByTurn(edges, less, run[k].out, run[k].out + run[k].ready, turn)
  {
    if k == 0 {
      turn := seq(|run[0].ready|, _ => 0);
      InitTurns(edges, n, less, run[0]);
    } else {
      var before := RunTurns(edges, n, less, run, k - 1);
      turn := RunStepTurns(edges, n, less, run, k, before);
    }
  }

  lemma NoneQueued(edges: set<(nat, nat)>, less: (nat, nat) -> bool, s: State, turn: seq<nat>)
    requires s.ready == [] && TurnByTurn(edges, less, s.out, s.out + s.ready, turn)
    ensures TurnByTurn(edges, less, s.out, s.out, turn)
  {
    assert s.out + s.ready == s.out;
  }

  lemma EndTurns(edges: set<(nat, nat)>, n: nat, less: (nat, nat) -> bool, run: seq<State>) returns (turn: seq<nat>)
    requires IsRun(edges, n, less, run) && run[|run| - 1].ready == []
    ensures TurnByTurn(edges, less, run[|run| - 1].out, run[|run| - 1].out, turn)
  {
    turn := RunTurns(edges, n, less, run, |run| - 1);
    NoneQueued(edges, less, run[|run| - 1], turn);
  }

  // ---- what it means for features ----

  /** The options as JSON; a feature without any has null. */
  function Json(f: Feature, text: Options -> string): string {
    match f.unset
    case true => "null"
    case false => text(f.options)
  }

  /** a is before b by reference, or by option text under the same reference. */
  predicate Alphabetical(a: Feature, b: Feature, text: Options -> string) {
    Less(a.ref, b.ref) || (a.ref == b.ref && Less(Json(a, text), Json(b, text)))
  }

  lemma IndexLessIs(fs: seq<Feature>, text: Options -> string, a: nat, b: nat)
    requires a < |fs| && b < |fs|
    ensures IndexLess(fs, text)(a, b) <==> Alphabetical(fs[a], fs[b], text)
  {
    LessIrreflexive(fs[a].ref);
  }

  /** The k-th feature listed is held up by nothing after the first r, and by the r-th. */
  ghost predicate HeldUpTo(fs: seq<Feature>, order: seq<nat>, k: nat, r: nat)
    requires k < |order|
  {
    && r <= k && (forall a: nat :: HasEdge(fs, a, order[k]) ==> a in order[..r])
    && (r > 0 ==> HasEdge(fs, order[r - 1], order[k]))
  }

  ghost predicate InTurns(fs: seq<Feature>, text: Options -> string, order: seq<nat>, turn: seq<nat>, out: seq<Feature>) {
    && |out| == |order| == |turn| == |fs| && NoDup(order)
    && (forall k :: 0 <= k < |order| ==> order[k] < |fs| && out[k] == fs[order[k]])
    && (forall k :: 0 <= k < |order| ==> HeldUpTo(fs, order, k, turn[k]))
    && forall i, j :: 0 <= i < j < |order| ==> turn[i] <= turn[j] && (turn[i] == turn[j] ==> !Alphabetical(out[j], out[i], text))
  }

  lemma ListedBefore(fs: seq<Feature>, order: seq<nat>, k: nat, r: nat)
    requires NoDup(order) && Respects(EdgeSet(fs), order) && k < |order| && ReleasedBy(EdgeSet(fs), order, order[k], r)
    ensures HeldUpTo(fs, order, k, r)
  {
    forall a: nat | HasEdge(fs, a, order[k]) ensures a in order[..r] { assert (a, order[k]) in EdgeSet(fs); }
    if r > 0 {
      assert (order[r - 1], order[k]) in EdgeSet(fs);
      var i, j :| 0 <= i < j < |order| && order[i] == order[r - 1] && order[j] == order[k];
      assert i == r - 1 && j == k;
    }
  }

  /**
    A successful sort lists its features by the turn in which each was
    released: first, as turn 0, those nothing in the list precedes, then for
    each r those that the r-th listed was the last to hold up; and within a turn
    by reference and then by the JSON of the options.
   */
  lemma SortedInTurns(fs: seq<Feature>, text: Options -> string, r: Outcome) returns (order: seq<nat>, turn: seq<nat>)
    requires |fs| >= 2 && Produces(fs, text, r) && r.Sorted?
    ensures InTurns(fs, text, order, turn, r.out)
  {
    order :| IsListing(fs, text, order) && Lists(fs, order, r.out);
    turn := ListingTurns(fs, text, order);
    ListingFull(fs, text, order, r.out);
    TurnsTold(fs, text, order, turn, r.out);
  }

  lemma ListingTurns(fs: seq<Feature>, text: Options -> string, order: seq<nat>) returns (turn: seq<nat>)
    requires IsListing(fs, text, order)
    ensures TurnByTurn(EdgeSet(fs), IndexLess(fs, text), order, order, turn)
  {
    var run: seq<State> :| IsRun(EdgeSet(fs), |fs|, IndexLess(fs, text), run) && run[|run| - 1].ready == [] && run[|run| - 1].out == order;
    turn := EndTurns(EdgeSet(fs), |fs|, IndexLess(fs, text), run);
  }

  lemma EdgesWellFormed(fs: seq<Feature>)
    ensures WellFormed(EdgeSet(fs), |fs|)
  {}

  lemma EndInv(edges: set<(nat, nat)>, n: nat, less: (nat, nat) -> bool, run: seq<State>)
    requires WellFormed(edges, n) && IsRun(edges, n, less, run)
    ensures QueueInv(edges, n, run[|run| - 1])
  {
    RunInv(edges, n, less, run, |run| - 1);
  }

  lemma ListingEnd(fs: seq<Feature>, text: Options -> string, order: seq<nat>) returns (s: State)
    requires IsListing(fs, text, order)
    ensures QueueInv(EdgeSet(fs), |fs|, s) && s.ready == [] && s.out == order
  {
    var edges, less := EdgeSet(fs), IndexLess(fs, text);
    var run: seq<State> :| IsRun(edges, |fs|, less, run) && run[|run| - 1].ready == [] && run[|run| - 1].out == order;
    EdgesWellFormed(fs);
    EndInv(edges, |fs|, less, run);
    s := run[|run| - 1];
  }

  lemma ListingFull(fs: seq<Feature>, text: Options -> string, order: seq<nat>, out: seq<Feature>)
    requires IsListing(fs, text, order) && Lists(fs, order, out) && exists o :: IsInstallOrder(fs, o, out)
    ensures NoDup(order) && |order| == |fs| && Respects(EdgeSet(fs), order)
  {
    var s := ListingEnd(fs, text, order);
    AllListed(fs, order, out, s);
  }

  /** An acyclic graph leaves nothing unlisted. */
  lemma AllListed(fs: seq<Feature>, order: seq<nat>, out: seq<Feature>, s: State)
    requires QueueInv(EdgeSet(fs), |fs|, s) && s.ready == [] && s.out == order && Lists(fs, order, out)
    requires exists o :: IsInstallOrder(fs, o, out)
    ensures NoDup(order) && |order| == |fs| && Respects(EdgeSet(fs), order)
  {
    var o :| IsInstallOrder(fs, o, out);
    NoDupCard<nat>(o);
    BelowCard(|fs|);
    FullListing(EdgeSet(fs), |fs|, s);
  }

  lemma TurnsTold(fs: seq<Feature>, text: Options -> string, order: seq<nat>, turn: seq<nat>, out: seq<Feature>)
    requires NoDup(order) && |order| == |fs| && Respects(EdgeSet(fs), order) && Lists(fs, order, out)
    requires TurnByTurn(EdgeSet(fs), IndexLess(fs, text), order, order, turn)
    ensures InTurns(fs, text, order, turn, out)
  {
    forall k | 0 <= k < |order| ensures HeldUpTo(fs, order, k, turn[k]) { ListedBefore(fs, order, k, turn[k]); }
    forall i, j | 0 <= i < j < |order| ensures turn[i] <= turn[j] && (turn[i] == turn[j] ==> !Alphabetical(out[j], out[i], text)) {
      IndexLessIs(fs, text, order[j], order[i]);
    }
  }

  /** Features that have nothing to do with each other come out in alphabetical order. */
  lemma IndependentSorted(fs: seq<Feature>, text: Options -> string, r: Outcome)
    requires |fs| >= 2 && Produces(fs, text, r) && r.Sorted? && forall a: nat, b: nat :: !HasEdge(fs, a, b)
    ensures forall i, j :: 0 <= i < j < |r.out| ==> !Alphabetical(r.out[j], r.out[i], text)
  {
    var order, turn := SortedInTurns(fs, text, r);
    forall k | 0 <= k < |order| ensures turn[k] == 0 { assert HeldUpTo(fs, order, k, turn[k]); }
  }

  /** A list whose longest chain has d edges sorts below 64, with a warning from 16 on. */
  lemma DepthLimits(fs: seq<Feature>, text: Options -> string, r: Outcome, d: nat)
    requires |fs| >= 2 && Produces(fs, text, r) && Acyclic(EdgeSet(fs)) && IsLongestChain(EdgeSet(fs), d)
    ensures if d >= 64 then r.TooDeep? && r.depth == d else r.Sorted? && (r.warning.Some? <==> d >= 16)
    ensures r.Sorted? && d >= 16 ==> r.warning.value.0 == d
  {
    match r {
      case Sorted(_, warning) =>
        var e: nat :| IsLongestChain(EdgeSet(fs), e) && e < DAG_ERROR_DEPTH &&
          if e < DAG_WARN_DEPTH then warning == None else warning.Some? && warning.value.0 == e && ReadsChain(fs, e, warning.value.1);
        LongestUnique(EdgeSet(fs), d, e);
      case TooDeep(e, _) => LongestUnique(EdgeSet(fs), d, e);
      case Cyclic(_) =>
    }
  }

  lemma LongestUnique(edges: set<(nat, nat)>, d: nat, e: nat)
    requires IsLongestChain(edges, d) && IsLongestChain(edges, e)
    ensures d == e
  {
    var p :| IsPath(edges, p) && |p| - 1 == d;
    var q :| IsPath(edges, q) && |q| - 1 == e;
  }
}
