/**
  The lifecycle phases and the markers that make them run once. One container,
  over any sequence of Ups, failures and restarts. (lifecycle.go:58-170,
  marker.go)
 */
module Lifecycle {
  import opened Prelude

  datatype Phase = Initialize | OnCreate | UpdateContent | PostCreate | PostStart | PostAttach

  /** orderedPhases. */
  const PHASES := [Initialize, OnCreate, UpdateContent, PostCreate, PostStart, PostAttach]

  /** Run(phase, key, hook): a hook was executed; Done(phase, key): the phase's marker was written. */
  datatype Event = Run(phase: Phase, key: nat, hook: nat) | Done(phase: Phase, key: nat)

  const MARKER_VERSION := 1

  /** The file of a phase: something that is no marker, or a marker of some schema version. */
  datatype MarkerFile = Corrupt | Marker(version: int, key: nat)

  /** What a container keeps: marker files, and the log of what happened in it. */
  datatype State = State(files: map<Phase, MarkerFile>, log: seq<Event>)

  /** The container's timestamps as the Up read them. */
  datatype Details = Details(created: nat, startedAt: nat)

  /** A marker write may take effect and still be reported failed; a failed one may leave the old file or half of a new one. */
  datatype Write = Written | WrittenUnreported | Refused | Torn

  /** How the calls of one Up turn out. */
  datatype Fate = Fate(readFails: Phase -> bool, hookFails: (Phase, nat) -> bool, write: Phase -> Write)

  predicate Markered(phase: Phase) { phase != Initialize && phase != PostAttach }

  function KeyFor(phase: Phase, d: Details): nat {
    if phase == PostStart then d.startedAt else d.created
  }

  predicate ShouldRun(phase: Phase, marker: Option<nat>, d: Details) {
    phase == PostAttach || marker.None? || marker.value != KeyFor(phase, d)
  }

  /** The key a phase's file records; a missing file, one that does not parse and one of another version record none. */
  function MarkerOf(s: State, phase: Phase): (m: Option<nat>)
    ensures forall key: nat :: m == Some(key) <==> phase in s.files && s.files[phase] == Marker(MARKER_VERSION, key)
  {
    if phase in s.files && s.files[phase].Marker? && s.files[phase].version == MARKER_VERSION then Some(s.files[phase].key) else None
  }

  /** The first of n hooks to fail, or n. */
  function FirstFailing(f: Fate, phase: Phase, n: nat): (h: nat)
    ensures h <= n && (h < n ==> f.hookFails(phase, h)) && forall i: nat :: i < h ==> !f.hookFails(phase, i)
  {
    if n == 0 then 0
    else
      var h := FirstFailing(f, phase, n - 1);
      if h < n - 1 || f.hookFails(phase, n - 1) then h else n
  }

  /** Hooks 0 to k - 1, in order. */
  function Runs(phase: Phase, key: nat, k: nat): (r: seq<Event>)
    ensures |r| == k && forall i :: 0 <= i < k ==> r[i] == Run(phase, key, i)
  {
    seq(k, i requires 0 <= i < k => Run(phase, key, i))
  }

  function Attempted(f: Fate, phase: Phase, n: nat): nat {
    var h := FirstFailing(f, phase, n);
    if h < n then h + 1 else n
  }

  function Ran(s: State, phase: Phase, key: nat, n: nat, f: Fate): State {
    s.(log := s.log + Runs(phase, key, Attempted(f, phase, n)))
  }

  /** writeMarker. */
  function Marked(s: State, phase: Phase, key: nat, w: Write): State {
    match w
    case Refused => s
    case Torn => s.(files := s.files[phase := Corrupt])
    case _ => State(s.files[phase := Marker(MARKER_VERSION, key)], s.log + [Done(phase, key)])
  }

  /**
    What a write leaves is what the next read finds: the key if it took effect,
    nothing if it was torn, what was there before if it was refused; the other
    phases read as before. A key is read only of a file some write completed.
   */
  lemma MarkerReadBack(s: State, phase: Phase, key: nat, w: Write, other: Phase)
    ensures MarkerOf(Marked(s, phase, key, w), phase) ==
      match w { case Refused => MarkerOf(s, phase) case Torn => None case _ => Some(key) }
    ensures other != phase ==> MarkerOf(Marked(s, phase, key, w), other) == MarkerOf(s, other)
    ensures s.log <= Marked(s, phase, key, w).log && (Done(phase, key) in Marked(s, phase, key, w).log <== w.Written? || w.WrittenUnreported?)
  {
    var t := Marked(s, phase, key, w);
    if w.Written? || w.WrittenUnreported? { assert t.log[|s.log|] == Done(phase, key); }
  }

  /** runPhase on n hooks: the state it leaves, and whether it succeeded. */
  function PhaseStep(s: State, d: Details, phase: Phase, n: nat, f: Fate): (State, bool) {
    var key := KeyFor(phase, d);
    if n == 0 then (s, true)
    else if Markered(phase) && f.readFails(phase) then (s, false)
    else if Markered(phase) && !ShouldRun(phase, MarkerOf(s, phase), d) then (s, true)
    else
      var ran := Ran(s, phase, key, n, f);
      if FirstFailing(f, phase, n) < n then (ran, false)
      else if !Markered(phase) then (ran, true)
      else (Marked(ran, phase, key, f.write(phase)), f.write(phase).Written?)
  }

  /** The number of hooks of each phase. */
  type Hooks = Phase -> nat

  /** Whether this Up considers the phase at all. */
  predicate Considered(phase: Phase, runInitialize: bool) { phase != Initialize || runInitialize }

  /** runAllLifecycle from the k-th phase on. */
  function UpFrom(s: State, d: Details, hooks: Hooks, runInitialize: bool, f: Fate, k: nat): (State, bool)
    requires k <= 6
    decreases 6 - k
  {
    if k == 6 then (s, true)
    else if !Considered(PHASES[k], runInitialize) then UpFrom(s, d, hooks, runInitialize, f, k + 1)
    else
      var (t, ok) := PhaseStep(s, d, PHASES[k], hooks(PHASES[k]), f);
      if ok then UpFrom(t, d, hooks, runInitialize, f, k + 1) else (t, false)
  }

  // ---- the engine ----

  /** A running container; log is what happened inside it. */
  class Container {
    var files: map<Phase, MarkerFile>
    ghost var log: seq<Event>

    ghost function Value(): State
      reads this
    {
      State(files, log)
    }

    constructor (files: map<Phase, MarkerFile>)
      ensures Value() == State(files, [])
    {
      this.files, log := files, [];
    }

    method ReadMarker(phase: Phase, f: Fate) returns (ok: bool, m: Option<nat>)
      ensures ok == !f.readFails(phase) && (ok ==> m == MarkerOf(Value(), phase))
    {
      if f.readFails(phase) { return false, None; }
      if phase !in files || files[phase].Corrupt? { return true, None; }
      if files[phase].version != MARKER_VERSION { return true, None; }
      return true, Some(files[phase].key);
    }

    method WriteMarker(phase: Phase, key: nat, w: Write) returns (ok: bool)
      modifies this
      ensures Value() == Marked(old(Value()), phase, key, w) && ok == w.Written?
    {
      match w {
        case Refused =>
        case Torn => files := files[phase := Corrupt];
        case _ =>
          files := files[phase := Marker(MARKER_VERSION, key)];
          log := log + [Done(phase, key)];
      }
      return w.Written?;
    }

    method ExecHook(phase: Phase, key: nat, i: nat, f: Fate) returns (ok: bool)
      modifies this`log
      ensures log == old(log) + [Run(phase, key, i)] && ok == !f.hookFails(phase, i)
    {
      log := log + [Run(phase, key, i)];
      return !f.hookFails(phase, i);
    }

    /** The hook loop: stops at the first failure. */
    method RunHooks(phase: Phase, key: nat, n: nat, f: Fate) returns (ok: bool)
      modifies this`log
      ensures Value() == Ran(old(Value()), phase, key, n, f) && ok == (FirstFailing(f, phase, n) == n)
    {
      for i := 0 to n
        invariant log == old(log) + Runs(phase, key, i) && FirstFailing(f, phase, n) >= i
      {
        assert Runs(phase, key, i + 1) == Runs(phase, key, i) + [Run(phase, key, i)];
        ok := ExecHook(phase, key, i, f);
        if !ok { return false; }
      }
      return true;
    }

    method RunPhase(d: Details, phase: Phase, n: nat, f: Fate) returns (ok: bool)
      modifies this
      ensures (Value(), ok) == PhaseStep(old(Value()), d, phase, n, f)
    {
      if n == 0 { return true; }
      var key := KeyFor(phase, d);
      if Markered(phase) {
        var read, m := ReadMarker(phase, f);
        if !read { return false; }
        if !ShouldRun(phase, m, d) { return true; }
      }
      ok := RunHooks(phase, key, n, f);
      if !ok || !Markered(phase) { return; }
      ok := WriteMarker(phase, key, f.write(phase));
    }

    method RunAll(d: Details, hooks: Hooks, runInitialize: bool, f: Fate) returns (ok: bool)
      modifies this
      ensures (Value(), ok) == UpFrom(old(Value()), d, hooks, runInitialize, f, 0)
    {
      for k := 0 to 6
        invariant UpFrom(old(Value()), d, hooks, runInitialize, f, 0) == UpFrom(Value(), d, hooks, runInitialize, f, k)
      {
        if PHASES[k] == Initialize && !runInitialize { continue; }
        ok := RunPhase(d, PHASES[k], hooks(PHASES[k]), f);
        if !ok { return false; }
      }
      return true;
    }
  }

  // ---- histories ----

  /** A container over time: its timestamps and what it keeps. */
  datatype Life = Life(details: Details, state: State)

  datatype Act = Up(hooks: Hooks, runInitialize: bool, fate: Fate) | Restart(at: nat)

  /** Start times only grow. */
  predicate Possible(l: Life, a: Act) { a.Restart? ==> a.at > l.details.startedAt }

  function Apply(l: Life, a: Act): Life {
    match a
    case Up(hooks, runInitialize, fate) => l.(state := UpFrom(l.state, l.details, hooks, runInitialize, fate, 0).0)
    case Restart(at) => l.(details := l.details.(startedAt := at))
  }

  ghost predicate IsHistory(l: Life, acts: seq<Act>)
    decreases |acts|
  {
    acts == [] || (Possible(l, acts[0]) && IsHistory(Apply(l, acts[0]), acts[1..]))
  }

  function After(l: Life, acts: seq<Act>): Life
    decreases |acts|
  {
    if acts == [] then l else After(Apply(l, acts[0]), acts[1..])
  }

  /** A new container; its image may hold files of any kind, another container's markers among them. */
  function Newborn(d: Details, image: map<Phase, MarkerFile>): Life { Life(d, State(image, [])) }

  /** The image holds a marker of the phase under this key. */
  ghost predicate Held(image: map<Phase, MarkerFile>, phase: Phase, key: nat) {
    phase in image && image[phase] == Marker(MARKER_VERSION, key)
  }

  /** No marker of the image carries one of the container's own keys. */
  ghost predicate Foreign(image: map<Phase, MarkerFile>, d: Details) {
    forall phase :: !Held(image, phase, KeyFor(phase, d))
  }

  /** A completion under the key of the moment shows in the marker; earlier ones had smaller keys. */
  ghost predicate Current(s: State, d: Details, phase: Phase, k: nat) {
    && (phase != PostStart ==> k == d.created)
    && (phase == PostStart ==> k <= d.startedAt)
    && (k == KeyFor(phase, d) ==> MarkerOf(s, phase) == Some(k))
  }

  /** No phase completed under a key is completed or run under it again. */
  ghost predicate Settled(log: seq<Event>, i: nat)
    requires i < |log|
  {
    log[i].Done? ==> Markered(log[i].phase) && forall j :: i < j < |log| ==> log[j].phase != log[i].phase || log[j].key != log[i].key
  }

  /** A marker was written here, or is the image's. */
  ghost predicate Explained(s: State, image: map<Phase, MarkerFile>, phase: Phase) {
    MarkerOf(s, phase).Some? ==> Done(phase, MarkerOf(s, phase).value) in s.log || Held(image, phase, MarkerOf(s, phase).value)
  }

  ghost predicate Inv(s: State, d: Details, image: map<Phase, MarkerFile>) {
    && (forall i :: 0 <= i < |s.log| && s.log[i].Done? ==> Current(s, d, s.log[i].phase, s.log[i].key))
    && (forall i :: 0 <= i < |s.log| ==> Settled(s.log, i))
    && (forall phase :: Explained(s, image, phase))
  }

  lemma Extended(s: State, d: Details, image: map<Phase, MarkerFile>, more: seq<Event>, phase: Phase)
    requires Inv(s, d, image)
    requires forall i :: 0 <= i < |more| ==> more[i].Run? && more[i].phase == phase && more[i].key == KeyFor(phase, d)
    requires Markered(phase) ==> ShouldRun(phase, MarkerOf(s, phase), d)
    ensures Inv(s.(log := s.log + more), d, image)
  {
    var t := s.(log := s.log + more);
    forall i | 0 <= i < |t.log| ensures Settled(t.log, i) {
      if i < |s.log| {
        assert t.log[i] == s.log[i] && Settled(s.log, i);
        if s.log[i].Done? { SettledMore(s, d, image, more, phase, i); }
      }
    }
    forall i | 0 <= i < |t.log| && t.log[i].Done? ensures Current(t, d, t.log[i].phase, t.log[i].key) { assert t.log[i] == s.log[i]; }
    forall p ensures Explained(t, image, p) { assert Explained(s, image, p); }
  }

  /** A completed key is not the key of a phase that still has to run. */
  lemma SettledMore(s: State, d: Details, image: map<Phase, MarkerFile>, more: seq<Event>, phase: Phase, i: nat)
    requires Inv(s, d, image) && i < |s.log| && s.log[i].Done? && (Markered(phase) ==> ShouldRun(phase, MarkerOf(s, phase), d))
    requires forall j :: 0 <= j < |more| ==> more[j].phase == phase && more[j].key == KeyFor(phase, d)
    ensures forall j :: i < j < |s.log + more| ==> (s.log + more)[j].phase != s.log[i].phase || (s.log + more)[j].key != s.log[i].key
  {
    var all := s.log + more;
    assert Settled(s.log, i) && Current(s, d, s.log[i].phase, s.log[i].key);
    forall j | i < j < |all| ensures all[j].phase != s.log[i].phase || all[j].key != s.log[i].key {
      if j < |s.log| { assert all[j] == s.log[j]; } else { assert all[j] == more[j - |s.log|]; }
    }
  }

  lemma MarkedInv(s: State, d: Details, image: map<Phase, MarkerFile>, phase: Phase, w: Write)
    requires Inv(s, d, image) && Markered(phase) && ShouldRun(phase, MarkerOf(s, phase), d)
    ensures Inv(Marked(s, phase, KeyFor(phase, d), w), d, image)
  {
    var key := KeyFor(phase, d);
    var t := Marked(s, phase, key, w);
    match w {
      case Refused =>
      case Torn =>
        forall p ensures Explained(t, image, p) { assert Explained(s, image, p); }
      case _ =>
        assert t.log[|s.log|] == Done(phase, key);
        forall i | 0 <= i < |t.log| ensures Settled(t.log, i) {
          if i < |s.log| {
            assert t.log[i] == s.log[i] && Settled(s.log, i);
            if s.log[i].Done? { SettledMore(s, d, image, [Done(phase, key)], phase, i); }
          }
        }
        forall i | 0 <= i < |t.log| && t.log[i].Done? ensures Current(t, d, t.log[i].phase, t.log[i].key) {
          if i < |s.log| { assert t.log[i] == s.log[i] && Current(s, d, s.log[i].phase, s.log[i].key); }
        }
        forall p ensures Explained(t, image, p) { assert Explained(s, image, p); }
    }
  }

  lemma PhaseInv(s: State, d: Details, image: map<Phase, MarkerFile>, phase: Phase, n: nat, f: Fate)
    requires Inv(s, d, image)
    ensures Inv(PhaseStep(s, d, phase, n, f).0, d, image)
  {
    if n > 0 && !(Markered(phase) && (f.readFails(phase) || !ShouldRun(phase, MarkerOf(s, phase), d))) {
      var ran := Ran(s, phase, KeyFor(phase, d), n, f);
      Extended(s, d, image, Runs(phase, KeyFor(phase, d), Attempted(f, phase, n)), phase);
      if Markered(phase) { MarkedInv(ran, d, image, phase, f.write(phase)); }
    }
  }

  lemma {:induction false} UpInv(s: State, d: Details, image: map<Phase, MarkerFile>, hooks: Hooks, runInitialize: bool, f: Fate, k: nat)
    requires k <= 6 && Inv(s, d, image)
    ensures Inv(UpFrom(s, d, hooks, runInitialize, f, k).0, d, image)
    decreases 6 - k
  {
    if k < 6 {
      PhaseInv(s, d, image, PHASES[k], hooks(PHASES[k]), f);
      var t := PhaseStep(s, d, PHASES[k], hooks(PHASES[k]), f).0;
      UpInv(s, d, image, hooks, runInitialize, f, k + 1);
      UpInv(t, d, image, hooks, runInitialize, f, k + 1);
    }
  }

  lemma RestartInv(s: State, d: Details, image: map<Phase, MarkerFile>, at: nat)
    requires Inv(s, d, image) && at > d.startedAt
    ensures Inv(s, d.(startedAt := at), image)
  {
    var d' := d.(startedAt := at);
    forall i | 0 <= i < |s.log| && s.log[i].Done? ensures Current(s, d', s.log[i].phase, s.log[i].key) {
      assert Current(s, d, s.log[i].phase, s.log[i].key);
    }
  }

  lemma {:induction false} HistoryInv(l: Life, image: map<Phase, MarkerFile>, acts: seq<Act>)
    requires Inv(l.state, l.details, image) && IsHistory(l, acts)
    ensures Inv(After(l, acts).state, After(l, acts).details, image)
    decreases |acts|
  {
    if acts != [] {
      match acts[0] {
        case Up(hooks, runInitialize, fate) => UpInv(l.state, l.details, image, hooks, runInitialize, fate, 0);
        case Restart(at) => RestartInv(l.state, l.details, image, at);
      }
      HistoryInv(Apply(l, acts[0]), image, acts[1..]);
    }
  }

  /**
    Over any history of Ups, failures and restarts of a container, once a phase
    was completed under a key, it is never completed under it again and none
    of its hooks runs under it again, whatever its image holds. Create-keyed
    phases have the one key.
   */
  lemma CompletedOnce(d: Details, image: map<Phase, MarkerFile>, acts: seq<Act>, i: nat, j: nat)
    requires IsHistory(Newborn(d, image), acts) && i < j < |After(Newborn(d, image), acts).state.log|
    requires After(Newborn(d, image), acts).state.log[i].Done?
    ensures var log := After(Newborn(d, image), acts).state.log;
      && (log[j].phase != log[i].phase || log[j].key != log[i].key)
      && (log[i].phase in {OnCreate, UpdateContent, PostCreate} ==> log[i].key == d.created && !(log[j].Done? && log[j].phase == log[i].phase))
  {
    HistoryInv(Newborn(d, image), image, acts);
    CreatedFixed(Newborn(d, image), acts);
    var l := After(Newborn(d, image), acts);
    assert Settled(l.state.log, i) && Current(l.state, l.details, l.state.log[i].phase, l.state.log[i].key);
    if l.state.log[j].Done? { assert Current(l.state, l.details, l.state.log[j].phase, l.state.log[j].key); }
  }

  lemma {:induction false} CreatedFixed(l: Life, acts: seq<Act>)
    ensures After(l, acts).details.created == l.details.created
    decreases |acts|
  {
    if acts != [] { CreatedFixed(Apply(l, acts[0]), acts[1..]); }
  }

  // ---- failures and order ----

  /** The state in which this Up comes to its k-th phase, having begun at the j-th; None when it fails before. */
  function Reaches(s: State, d: Details, up: Act, j: nat, k: nat): Option<State>
    requires up.Up? && j <= k <= 6
    decreases k - j
  {
    if j == k then Some(s)
    else if !Considered(PHASES[j], up.runInitialize) then Reaches(s, d, up, j + 1, k)
    else
      var (t, ok) := PhaseStep(s, d, PHASES[j], up.hooks(PHASES[j]), up.fate);
      if ok then Reaches(t, d, up, j + 1, k) else None
  }

  /** What Up does from its k-th phase on is what it does from the state in which it comes to it. */
  lemma {:induction false} ReachedFrom(s: State, d: Details, up: Act, j: nat, k: nat)
    requires up.Up? && j <= k <= 6
    ensures var r := Reaches(s, d, up, j, k); r.Some? ==>
      UpFrom(s, d, up.hooks, up.runInitialize, up.fate, j) == UpFrom(r.value, d, up.hooks, up.runInitialize, up.fate, k)
    decreases k - j
  {
    if j < k {
      ReachedFrom(s, d, up, j + 1, k);
      ReachedFrom(PhaseStep(s, d, PHASES[j], up.hooks(PHASES[j]), up.fate).0, d, up, j + 1, k);
    }
  }

  /** A phase touches no other phase's file. */
  lemma OnlyOwnFile(s: State, d: Details, phase: Phase, n: nat, f: Fate, other: Phase)
    requires other != phase
    ensures MarkerOf(PhaseStep(s, d, phase, n, f).0, other) == MarkerOf(s, other)
  {}

  lemma {:induction false} EarlierKeep(s: State, d: Details, up: Act, j: nat, k: nat)
    requires up.Up? && j <= k < 6
    ensures var r := Reaches(s, d, up, j, k); r.Some? ==> MarkerOf(r.value, PHASES[k]) == MarkerOf(s, PHASES[k])
    decreases k - j
  {
    if j < k {
      assert PHASES[j] != PHASES[k];
      OnlyOwnFile(s, d, PHASES[j], up.hooks(PHASES[j]), up.fate, PHASES[k]);
      EarlierKeep(s, d, up, j + 1, k);
      EarlierKeep(PhaseStep(s, d, PHASES[j], up.hooks(PHASES[j]), up.fate).0, d, up, j + 1, k);
    }
  }

  /** From before to after nothing of the phase was logged. */
  ghost predicate Silent(before: seq<Event>, after: seq<Event>, phase: Phase) {
    forall i :: |before| <= i < |after| ==> after[i].phase != phase
  }

  /** An act during which nothing of the phase happens: a restart, or an Up that does not come to it, has no commands for it, cannot read its marker or finds it current. */
  ghost predicate LeavesAlone(l: Life, a: Act, phase: Phase) {
    Silent(l.state.log, Apply(l, a).state.log, phase)
  }

  /** Possible acts none of which runs the phase. */
  ghost predicate Meanwhile(l: Life, acts: seq<Act>, phase: Phase)
    decreases |acts|
  {
    acts == [] || (Possible(l, acts[0]) && LeavesAlone(l, acts[0], phase) && Meanwhile(Apply(l, acts[0]), acts[1..], phase))
  }

  /** A phase whose hooks do not run keeps its file. */
  lemma PhaseQuiet(s: State, d: Details, phase: Phase, n: nat, f: Fate)
    ensures var t := PhaseStep(s, d, phase, n, f).0; t == s || (|t.log| > |s.log| && s.log <= t.log && t.log[|s.log|].phase == phase)
  {
    var t := PhaseStep(s, d, phase, n, f).0;
    if t != s {
      assert Attempted(f, phase, n) > 0;
      var ran := Ran(s, phase, KeyFor(phase, d), n, f);
      assert ran.log[|s.log|] == Runs(phase, KeyFor(phase, d), Attempted(f, phase, n))[0] && ran.log <= t.log;
    }
  }

  lemma {:induction false} UpQuiet(s: State, d: Details, hooks: Hooks, runInitialize: bool, f: Fate, k: nat, phase: Phase)
    requires k <= 6
    ensures var t := UpFrom(s, d, hooks, runInitialize, f, k).0;
      s.log <= t.log && (Silent(s.log, t.log, phase) ==> MarkerOf(t, phase) == MarkerOf(s, phase))
    decreases 6 - k
  {
    if k < 6 && !Considered(PHASES[k], runInitialize) {
      UpQuiet(s, d, hooks, runInitialize, f, k + 1, phase);
    } else if k < 6 {
      var (u, ok) := PhaseStep(s, d, PHASES[k], hooks(PHASES[k]), f);
      PhaseQuiet(s, d, PHASES[k], hooks(PHASES[k]), f);
      if ok { UpQuiet(u, d, hooks, runInitialize, f, k + 1, phase); }
      var t := UpFrom(s, d, hooks, runInitialize, f, k).0;
      assert s.log <= u.log <= t.log;
      if PHASES[k] != phase { OnlyOwnFile(s, d, PHASES[k], hooks(PHASES[k]), f, phase); }
    }
  }

  /** Meanwhile the phase's file stays, and time goes on. */
  lemma {:induction false} MeanwhileKeeps(l: Life, acts: seq<Act>, phase: Phase)
    requires Meanwhile(l, acts, phase)
    ensures var l' := After(l, acts);
      && MarkerOf(l'.state, phase) == MarkerOf(l.state, phase)
      && l'.details.created == l.details.created && l'.details.startedAt >= l.details.startedAt
    decreases |acts|
  {
    if acts != [] {
      if acts[0].Up? {
        UpQuiet(l.state, l.details, acts[0].hooks, acts[0].runInitialize, acts[0].fate, 0, phase);
        assert Silent(l.state.log, Apply(l, acts[0]).state.log, phase);
      }
      MeanwhileKeeps(Apply(l, acts[0]), acts[1..], phase);
    }
  }

  /** Up comes to its k-th phase in state s and fails there. */
  ghost predicate FailsAt(l: Life, up: Act, k: nat, s: State) {
    && up.Up? && k < 6 && Reaches(l.state, l.details, up, 0, k) == Some(s) && Considered(PHASES[k], up.runInitialize)
    && !PhaseStep(s, l.details, PHASES[k], up.hooks(PHASES[k]), up.fate).1
  }

  /** The failure nobody will see: every hook passed and the marker was written although the write reported otherwise, or a matching marker could not be read. */
  ghost predicate Masked(s: State, d: Details, phase: Phase, n: nat, f: Fate) {
    if f.readFails(phase) then MarkerOf(s, phase) == Some(KeyFor(phase, d))
    else FirstFailing(f, phase, n) == n && f.write(phase).WrittenUnreported?
  }

  lemma FailureLeaves(s: State, d: Details, phase: Phase, n: nat, f: Fate)
    requires Markered(phase) && !PhaseStep(s, d, phase, n, f).1
    ensures MarkerOf(PhaseStep(s, d, phase, n, f).0, phase) == Some(KeyFor(phase, d)) <==> Masked(s, d, phase, n, f)
  {
    MarkerReadBack(Ran(s, phase, KeyFor(phase, d), n, f), phase, KeyFor(phase, d), f.write(phase), phase);
  }

  lemma FailureEnds(l: Life, up: Act, k: nat, s: State)
    requires FailsAt(l, up, k, s)
    ensures Apply(l, up) == l.(state := PhaseStep(s, l.details, PHASES[k], up.hooks(PHASES[k]), up.fate).0)
  {
    ReachedFrom(l.state, l.details, up, 0, k);
  }

  /** The phase is run from its first hook on, as far as hooks pass. */
  ghost predicate RunsWhole(s: State, d: Details, phase: Phase, n: nat, f: Fate) {
    s.log + Runs(phase, KeyFor(phase, d), Attempted(f, phase, n)) <= PhaseStep(s, d, phase, n, f).0.log
  }

  lemma RunsWholeIff(s: State, d: Details, phase: Phase, n: nat, f: Fate)
    requires Markered(phase) && n > 0 && !f.readFails(phase)
    ensures RunsWhole(s, d, phase, n, f) <==> MarkerOf(s, phase) != Some(KeyFor(phase, d))
  {
    assert Attempted(f, phase, n) > 0;
    assert |s.log + Runs(phase, KeyFor(phase, d), Attempted(f, phase, n))| > |s.log|;
  }

  /** A key of a later start is on no marker: those written here are older, and the image's are another container's. */
  lemma LaterKeyUnmarked(s: State, d: Details, image: map<Phase, MarkerFile>, d': Details, phase: Phase)
    requires Inv(s, d, image) && Markered(phase) && d'.created == d.created && d'.startedAt >= d.startedAt
    requires KeyFor(phase, d') != KeyFor(phase, d) && !Held(image, phase, KeyFor(phase, d'))
    ensures MarkerOf(s, phase) != Some(KeyFor(phase, d'))
  {
    var m := MarkerOf(s, phase);
    assert Explained(s, image, phase);
    if m.Some? && Done(phase, m.value) in s.log {
      var i :| 0 <= i < |s.log| && s.log[i] == Done(phase, m.value);
      assert Current(s, d, s.log[i].phase, s.log[i].key);
    }
  }

  /**
    After any history: a phase that failed is run again from its first hook by
    the next Up that comes to it with commands and can read its marker, whatever
    happened meanwhile, restarts and Ups that do not run the phase included,
    exactly unless the failure was masked and the phase has the same key still.
   */
  lemma FailedPhaseRetries(d: Details, image: map<Phase, MarkerFile>, acts: seq<Act>, up: Act, k: nat, s: State, meanwhile: seq<Act>, next: Act, t: State)
    requires IsHistory(Newborn(d, image), acts) && FailsAt(After(Newborn(d, image), acts), up, k, s) && Markered(PHASES[k])
    requires Meanwhile(Apply(After(Newborn(d, image), acts), up), meanwhile, PHASES[k])
    requires var now := After(Apply(After(Newborn(d, image), acts), up), meanwhile);
      && next.Up? && Reaches(now.state, now.details, next, 0, k) == Some(t) && next.hooks(PHASES[k]) > 0 && !next.fate.readFails(PHASES[k])
      && !Held(image, PHASES[k], KeyFor(PHASES[k], now.details))
    ensures var failing, now := After(Newborn(d, image), acts).details, After(Apply(After(Newborn(d, image), acts), up), meanwhile).details;
      RunsWhole(t, now, PHASES[k], next.hooks(PHASES[k]), next.fate) <==>
        !(Masked(s, failing, PHASES[k], up.hooks(PHASES[k]), up.fate) && KeyFor(PHASES[k], now) == KeyFor(PHASES[k], failing))
  {
    var phase, l := PHASES[k], After(Newborn(d, image), acts);
    var failed := Apply(l, up);
    var now := After(failed, meanwhile);
    FailureEnds(l, up, k, s);
    FailureLeaves(s, l.details, phase, up.hooks(phase), up.fate);
    MeanwhileKeeps(failed, meanwhile, phase);
    EarlierKeep(now.state, now.details, next, 0, k);
    RunsWholeIff(t, now.details, phase, next.hooks(phase), next.fate);
    if KeyFor(phase, now.details) != KeyFor(phase, l.details) {
      HistoryInv(Newborn(d, image), image, acts);
      UpInv(l.state, l.details, image, up.hooks, up.runInitialize, up.fate, 0);
      LaterKeyUnmarked(failed.state, failed.details, image, now.details, phase);
    }
  }

  /** The phase has no commands, or was completed under its key. */
  ghost predicate Cleared(s: State, d: Details, hooks: Hooks, phase: Phase) {
    Markered(phase) && hooks(phase) > 0 ==> MarkerOf(s, phase) == Some(KeyFor(phase, d)) && Done(phase, KeyFor(phase, d)) in s.log
  }

  ghost predicate ClearedBefore(s: State, d: Details, hooks: Hooks, k: nat) {
    k <= 6 && forall j :: 0 <= j < k ==> Cleared(s, d, hooks, PHASES[j])
  }

  lemma PhaseClears(s: State, d: Details, image: map<Phase, MarkerFile>, hooks: Hooks, k: nat, f: Fate)
    requires k < 6 && Inv(s, d, image) && Foreign(image, d) && ClearedBefore(s, d, hooks, k)
    ensures var (t, ok) := PhaseStep(s, d, PHASES[k], hooks(PHASES[k]), f);
      s.log <= t.log && ClearedBefore(t, d, hooks, k) && (ok ==> ClearedBefore(t, d, hooks, k + 1))
  {
    var (t, ok) := PhaseStep(s, d, PHASES[k], hooks(PHASES[k]), f);
    assert s.log <= t.log;
    forall j | 0 <= j < k ensures Cleared(t, d, hooks, PHASES[j]) {
      assert Cleared(s, d, hooks, PHASES[j]) && PHASES[j] != PHASES[k];
    }
    if ok && Markered(PHASES[k]) && hooks(PHASES[k]) > 0 {
      PhaseInv(s, d, image, PHASES[k], hooks(PHASES[k]), f);
      assert Explained(t, image, PHASES[k]) && !Held(image, PHASES[k], KeyFor(PHASES[k], d));
    }
  }

  /** Every event a phase logs is of that phase under its key. */
  lemma PhaseEvents(s: State, d: Details, phase: Phase, n: nat, f: Fate)
    ensures var t := PhaseStep(s, d, phase, n, f).0;
      s.log <= t.log && forall i :: |s.log| <= i < |t.log| ==> t.log[i].phase == phase && t.log[i].key == KeyFor(phase, d)
  {
    var t := PhaseStep(s, d, phase, n, f).0;
    if t != s {
      var ran := Ran(s, phase, KeyFor(phase, d), n, f);
      forall i | |s.log| <= i < |ran.log| ensures ran.log[i].phase == phase && ran.log[i].key == KeyFor(phase, d) {
        assert ran.log[i] == Runs(phase, KeyFor(phase, d), Attempted(f, phase, n))[i - |s.log|];
      }
      assert t.log == ran.log || t.log == ran.log + [Done(phase, KeyFor(phase, d))];
    }
  }

  ghost predicate InOrder(log: seq<Event>, i: nat, d: Details, hooks: Hooks)
    requires i < |log|
  {
    forall j, k :: 0 <= j < k < 6 && log[i].phase == PHASES[k] && Markered(PHASES[j]) && hooks(PHASES[j]) > 0 ==>
      Done(PHASES[j], KeyFor(PHASES[j], d)) in log[..i]
  }

  lemma PhaseInOrder(s: State, d: Details, hooks: Hooks, k: nat, f: Fate, i: nat)
    requires k < 6 && ClearedBefore(s, d, hooks, k)
    requires var t := PhaseStep(s, d, PHASES[k], hooks(PHASES[k]), f).0; |s.log| <= i < |t.log|
    ensures InOrder(PhaseStep(s, d, PHASES[k], hooks(PHASES[k]), f).0.log, i, d, hooks)
  {
    var t := PhaseStep(s, d, PHASES[k], hooks(PHASES[k]), f).0;
    PhaseEvents(s, d, PHASES[k], hooks(PHASES[k]), f);
    forall j, k' | 0 <= j < k' < 6 && t.log[i].phase == PHASES[k'] && Markered(PHASES[j]) && hooks(PHASES[j]) > 0
      ensures Done(PHASES[j], KeyFor(PHASES[j], d)) in t.log[..i]
    {
      assert k' == k && Cleared(s, d, hooks, PHASES[j]);
      var m :| 0 <= m < |s.log| && s.log[m] == Done(PHASES[j], KeyFor(PHASES[j], d));
      assert t.log[..i][m] == s.log[m];
    }
  }

  lemma InOrderMore(log: seq<Event>, more: seq<Event>, i: nat, d: Details, hooks: Hooks)
    requires log <= more && i < |log| && InOrder(log, i, d, hooks)
    ensures InOrder(more, i, d, hooks)
  {
    assert more[i] == log[i] && more[..i] == log[..i];
  }

  lemma {:induction false} UpInOrder(s: State, d: Details, image: map<Phase, MarkerFile>, hooks: Hooks, runInitialize: bool, f: Fate, k: nat)
    requires k <= 6 && Inv(s, d, image) && Foreign(image, d) && ClearedBefore(s, d, hooks, k)
    ensures var (t, ok) := UpFrom(s, d, hooks, runInitialize, f, k);
      s.log <= t.log && (forall i :: |s.log| <= i < |t.log| ==> InOrder(t.log, i, d, hooks)) && (ok ==> ClearedBefore(t, d, hooks, 6))
    decreases 6 - k
  {
    if k < 6 {
      if !Considered(PHASES[k], runInitialize) {
        UpInOrder(s, d, image, hooks, runInitialize, f, k + 1);
      } else {
        var (u, ok) := PhaseStep(s, d, PHASES[k], hooks(PHASES[k]), f);
        PhaseClears(s, d, image, hooks, k, f);
        PhaseInv(s, d, image, PHASES[k], hooks(PHASES[k]), f);
        if ok { UpInOrder(u, d, image, hooks, runInitialize, f, k + 1); }
        var t := UpFrom(s, d, hooks, runInitialize, f, k).0;
        forall i | |s.log| <= i < |t.log| ensures InOrder(t.log, i, d, hooks) {
          if i < |u.log| { PhaseInOrder(s, d, hooks, k, f, i); InOrderMore(u.log, t.log, i, d, hooks); }
        }
      }
    }
  }
}
