/**
  One Up told phase by phase: which events it adds to the container's log, in
  which order, and when it fails. Nothing here reads the engine's own phase
  list, keys or marker tests. (lifecycle.go:16-26, 58-170; marker.go:31-128)
 */
module PhaseOrder {
  import opened Prelude
  import opened Lifecycle

  /** The place of a phase in an Up. */
  function Rank(phase: Phase): nat {
    match phase
    case Initialize => 0
    case OnCreate => 1
    case UpdateContent => 2
    case PostCreate => 3
    case PostStart => 4
    case PostAttach => 5
  }

  /** The time a completion is recorded under: postStart once per start, the others once per container. */
  function Stamp(phase: Phase, d: Details): nat {
    match phase
    case PostStart => d.startedAt
    case _ => d.created
  }

  /** No hooks, not asked for, or completed under the present time by what its file says. */
  predicate Idle(s: State, d: Details, up: Act, phase: Phase)
    requires up.Up?
  {
    up.hooks(phase) == 0 ||
    match phase
    case Initialize => !up.runInitialize
    case PostAttach => false
    case _ => phase in s.files && s.files[phase] == Marker(1, Stamp(phase, d))
  }

  /** What the phase logs when it passes. */
  function Part(s: State, d: Details, up: Act, phase: Phase): seq<Event>
    requires up.Up?
  {
    if Idle(s, d, up, phase) then []
    else
      Runs(phase, Stamp(phase, d), up.hooks(phase)) +
      match phase
      case Initialize => []
      case PostAttach => []
      case _ => [Done(phase, Stamp(phase, d))]
  }

  /** What the phases before this one log when they pass. */
  function Before(s: State, d: Details, up: Act, phase: Phase): seq<Event>
    requires up.Up?
    decreases Rank(phase), 0
  {
    match phase
    case Initialize => []
    case OnCreate => Through(s, d, up, Initialize)
    case UpdateContent => Through(s, d, up, OnCreate)
    case PostCreate => Through(s, d, up, UpdateContent)
    case PostStart => Through(s, d, up, PostCreate)
    case PostAttach => Through(s, d, up, PostStart)
  }

  function Through(s: State, d: Details, up: Act, phase: Phase): seq<Event>
    requires up.Up?
    decreases Rank(phase), 1
  {
    Before(s, d, up, phase) + Part(s, d, up, phase)
  }

  /** A phase that will not pass: its marker cannot be read, a hook fails, or the marker write does. */
  ghost predicate Stops(s: State, d: Details, up: Act, phase: Phase)
    requires up.Up?
  {
    && up.hooks(phase) > 0
    && match phase
       case Initialize => up.runInitialize && SomeHookFails(up, phase)
       case PostAttach => SomeHookFails(up, phase)
       case _ => up.fate.readFails(phase) || (!Idle(s, d, up, phase) && (SomeHookFails(up, phase) || up.fate.write(phase) != Written))
  }

  ghost predicate SomeHookFails(up: Act, phase: Phase)
    requires up.Up?
  {
    exists i: nat :: i < up.hooks(phase) && up.fate.hookFails(phase, i)
  }

  /** Every phase has its place in the engine's list. */
  lemma Placed(phase: Phase)
    ensures PHASES[Rank(phase)] == phase && Markered(phase) == (phase !in {Initialize, PostAttach})
    ensures forall k :: 0 <= k < 6 ==> Rank(PHASES[k]) == k
  {}

  ghost predicate SameFile(s: State, t: State, phase: Phase) {
    (phase in s.files <==> phase in t.files) && (phase in s.files ==> s.files[phase] == t.files[phase])
  }

  lemma PartAlike(s: State, t: State, d: Details, up: Act, phase: Phase)
    requires up.Up? && SameFile(s, t, phase)
    ensures Part(s, d, up, phase) == Part(t, d, up, phase) && (Stops(s, d, up, phase) <==> Stops(t, d, up, phase))
  {}

  /** What Up makes of a phase. */
  function Step(s: State, d: Details, up: Act, phase: Phase): (State, bool)
    requires up.Up?
  {
    if Considered(phase, up.runInitialize) then PhaseStep(s, d, phase, up.hooks(phase), up.fate) else (s, true)
  }

  ghost predicate StepAccounted(s: State, d: Details, up: Act, phase: Phase, t: State, ok: bool)
    requires up.Up?
  {
    && (ok <==> !Stops(s, d, up, phase))
    && s.log <= t.log <= s.log + Part(s, d, up, phase) && (ok ==> t.log == s.log + Part(s, d, up, phase))
  }

  lemma StepKeepsFiles(s: State, d: Details, up: Act, phase: Phase, other: Phase)
    requires up.Up? && other != phase
    ensures SameFile(s, Step(s, d, up, phase).0, other)
  {}

  lemma KeyIsStamp(phase: Phase, d: Details)
    ensures KeyFor(phase, d) == Stamp(phase, d)
  {}

  /** A phase with hooks whose marker is no hindrance runs them to the first that fails. */
  lemma HooksAccount(s: State, d: Details, up: Act, phase: Phase)
    requires up.Up?
    ensures SomeHookFails(up, phase) <==> FirstFailing(up.fate, phase, up.hooks(phase)) < up.hooks(phase)
    ensures var n, key := up.hooks(phase), Stamp(phase, d);
      var ran := Ran(s, phase, key, n, up.fate).log;
      s.log <= ran <= s.log + Runs(phase, key, n) && (!SomeHookFails(up, phase) ==> ran == s.log + Runs(phase, key, n))
  {
    var n, key := up.hooks(phase), Stamp(phase, d);
    var k := Attempted(up.fate, phase, n);
    assert k <= n && Runs(phase, key, k) == Runs(phase, key, n)[..k];
  }

  lemma IdleAccount(s: State, d: Details, up: Act, phase: Phase)
    requires up.Up? && Idle(s, d, up, phase)
    ensures var (t, ok) := Step(s, d, up, phase); StepAccounted(s, d, up, phase, t, ok)
  {
    Placed(phase);
    KeyIsStamp(phase, d);
  }

  lemma UnmarkedAccount(s: State, d: Details, up: Act, phase: Phase)
    requires up.Up? && !Idle(s, d, up, phase) && phase in {Initialize, PostAttach}
    ensures var (t, ok) := Step(s, d, up, phase); StepAccounted(s, d, up, phase, t, ok)
  {
    Placed(phase);
    KeyIsStamp(phase, d);
    HooksAccount(s, d, up, phase);
  }

  lemma MarkedAccount(s: State, d: Details, up: Act, phase: Phase)
    requires up.Up? && !Idle(s, d, up, phase) && phase !in {Initialize, PostAttach}
    ensures var (t, ok) := Step(s, d, up, phase); StepAccounted(s, d, up, phase, t, ok)
  {
    Placed(phase);
    KeyIsStamp(phase, d);
    HooksAccount(s, d, up, phase);
    var n, key := up.hooks(phase), Stamp(phase, d);
    assert Part(s, d, up, phase) == Runs(phase, key, n) + [Done(phase, key)];
    assert s.log + Runs(phase, key, n) + [Done(phase, key)] == s.log + Part(s, d, up, phase);
  }

  /** One phase, in the state in which Up comes to it. */
  lemma StepAccount(s: State, d: Details, up: Act, phase: Phase)
    requires up.Up?
    ensures var (t, ok) := Step(s, d, up, phase); StepAccounted(s, d, up, phase, t, ok) && forall other :: other != phase ==> SameFile(s, t, other)
  {
    if Idle(s, d, up, phase) { IdleAccount(s, d, up, phase); }
    else if phase in {Initialize, PostAttach} { UnmarkedAccount(s, d, up, phase); }
    else { MarkedAccount(s, d, up, phase); }
    forall other | other != phase ensures SameFile(s, Step(s, d, up, phase).0, other) { StepKeepsFiles(s, d, up, phase, other); }
  }

  /** The state in which Up comes to a phase all of whose predecessors passed. */
  ghost predicate Arrived(s: State, t: State, d: Details, up: Act, k: nat)
    requires up.Up?
  {
    && k <= 6
    && t.log == s.log + (if k < 6 then Before(s, d, up, PHASES[k]) else Through(s, d, up, PostAttach))
    && forall p :: Rank(p) >= k ==> SameFile(s, t, p)
  }

  /** What an Up that came to its k-th phase leaves. */
  ghost predicate Accounted(s: State, d: Details, up: Act, t: State, ok: bool, k: nat)
    requires up.Up?
  {
    if ok then t.log == s.log + Through(s, d, up, PostAttach) && forall p :: Rank(p) >= k ==> !Stops(s, d, up, p)
    else exists p :: Rank(p) >= k && StoppedAt(s, d, up, t, k, p)
  }

  /** Up failed at p, and at no phase before it from the k-th on. */
  ghost predicate StoppedAt(s: State, d: Details, up: Act, t: State, k: nat, p: Phase)
    requires up.Up?
  {
    && Stops(s, d, up, p) && (forall q :: k <= Rank(q) < Rank(p) ==> !Stops(s, d, up, q))
    && s.log + Before(s, d, up, p) <= t.log <= s.log + Through(s, d, up, p)
  }

  /** Up from its k-th phase on is that phase and then the rest. */
  lemma UpFromStep(t: State, d: Details, up: Act, k: nat)
    requires up.Up? && k < 6
    ensures var (u, ok) := Step(t, d, up, PHASES[k]);
      UpFrom(t, d, up.hooks, up.runInitialize, up.fate, k) == if ok then UpFrom(u, d, up.hooks, up.runInitialize, up.fate, k + 1) else (u, false)
  {}

  lemma {:induction false} AccountFrom(s: State, t: State, d: Details, up: Act, k: nat)
    requires up.Up? && Arrived(s, t, d, up, k)
    ensures var (u, ok) := UpFrom(t, d, up.hooks, up.runInitialize, up.fate, k); Accounted(s, d, up, u, ok, k)
    decreases 6 - k
  {
    if k == 6 {
      LastAccounted(s, t, d, up);
    } else {
      UpFromStep(t, d, up, k);
      StepAccount(t, d, up, PHASES[k]);
      var (u, ok) := Step(t, d, up, PHASES[k]);
      if ok {
        StepArrived(s, t, u, d, up, k);
        AccountFrom(s, u, d, up, k + 1);
        var (v, done) := UpFrom(u, d, up.hooks, up.runInitialize, up.fate, k + 1);
        NextAccounted(s, d, up, v, done, k);
      } else {
        StepStopped(s, t, u, d, up, k);
      }
    }
  }

  lemma LastAccounted(s: State, t: State, d: Details, up: Act)
    requires up.Up? && Arrived(s, t, d, up, 6)
    ensures Accounted(s, d, up, t, true, 6)
  {}

  lemma Glue<T>(a: seq<T>, b: seq<T>, c: seq<T>, t: seq<T>, u: seq<T>)
    requires t == a + b && t <= u <= t + c
    ensures a + b <= u <= a + (b + c) && (u == t + c ==> u == a + (b + c))
  {}

  /** What the k-th phase does to the log, told by the state in which Up began. */
  lemma StepSeen(s: State, t: State, u: State, d: Details, up: Act, k: nat, ok: bool)
    requires up.Up? && k < 6 && Arrived(s, t, d, up, k) && StepAccounted(t, d, up, PHASES[k], u, ok)
    ensures ok <==> !Stops(s, d, up, PHASES[k])
    ensures s.log + Before(s, d, up, PHASES[k]) <= u.log <= s.log + Through(s, d, up, PHASES[k])
    ensures ok ==> u.log == s.log + Through(s, d, up, PHASES[k])
  {
    var phase := PHASES[k];
    Placed(phase);
    PartAlike(s, t, d, up, phase);
    Glue(s.log, Before(s, d, up, phase), Part(s, d, up, phase), t.log, u.log);
  }

  lemma StopsHere(s: State, d: Details, up: Act, u: State, k: nat, p: Phase)
    requires up.Up? && Rank(p) == k && Stops(s, d, up, p) && s.log + Before(s, d, up, p) <= u.log <= s.log + Through(s, d, up, p)
    ensures Accounted(s, d, up, u, false, k)
  {
    assert StoppedAt(s, d, up, u, k, p);
  }

  lemma StepArrived(s: State, t: State, u: State, d: Details, up: Act, k: nat)
    requires up.Up? && k < 6 && Arrived(s, t, d, up, k) && StepAccounted(t, d, up, PHASES[k], u, true)
    requires forall other :: other != PHASES[k] ==> SameFile(t, u, other)
    ensures Arrived(s, u, d, up, k + 1) && !Stops(s, d, up, PHASES[k])
  {
    StepSeen(s, t, u, d, up, k, true);
    NextArrived(s, t, u, d, up, k);
  }

  lemma StepStopped(s: State, t: State, u: State, d: Details, up: Act, k: nat)
    requires up.Up? && k < 6 && Arrived(s, t, d, up, k) && StepAccounted(t, d, up, PHASES[k], u, false)
    ensures Accounted(s, d, up, u, false, k)
  {
    StepSeen(s, t, u, d, up, k, false);
    StopsHere(s, d, up, u, k, PHASES[k]);
  }

  lemma NextArrived(s: State, t: State, u: State, d: Details, up: Act, k: nat)
    requires up.Up? && k < 6 && Arrived(s, t, d, up, k) && u.log == s.log + Through(s, d, up, PHASES[k])
    requires forall other :: other != PHASES[k] ==> SameFile(t, u, other)
    ensures Arrived(s, u, d, up, k + 1)
  {
    Placed(PHASES[k]);
    forall p | Rank(p) >= k + 1 ensures SameFile(s, u, p) { assert SameFile(s, t, p) && SameFile(t, u, p); }
  }

  lemma NextAccounted(s: State, d: Details, up: Act, v: State, ok: bool, k: nat)
    requires up.Up? && k < 6 && !Stops(s, d, up, PHASES[k]) && Accounted(s, d, up, v, ok, k + 1)
    ensures Accounted(s, d, up, v, ok, k)
  {
    forall p | Rank(p) == k ensures p == PHASES[k] { Placed(p); }
    if !ok {
      var p :| Rank(p) >= k + 1 && StoppedAt(s, d, up, v, k + 1, p);
      assert StoppedAt(s, d, up, v, k, p);
    }
  }

  /**
    An Up succeeds exactly when no phase stops it, and then logs initialize,
    onCreate, updateContent, postCreate, postStart and postAttach in that
    order, each the whole of what is left of it to do. One that fails does so
    at the first phase that stops, having logged the whole of each before and
    part of that one.
   */
  lemma UpAccount(s: State, d: Details, up: Act)
    requires up.Up?
    ensures var (t, ok) := UpFrom(s, d, up.hooks, up.runInitialize, up.fate, 0);
      && (ok <==> forall p :: !Stops(s, d, up, p))
      && (ok ==> t.log == s.log + Part(s, d, up, Initialize) + Part(s, d, up, OnCreate) + Part(s, d, up, UpdateContent)
                        + Part(s, d, up, PostCreate) + Part(s, d, up, PostStart) + Part(s, d, up, PostAttach))
      && (!ok ==> exists p :: StoppedAt(s, d, up, t, 0, p))
  {
    assert s.log == s.log + Before(s, d, up, Initialize);
    Placed(Initialize);
    AccountFrom(s, s, d, up, 0);
    WholeIs(s, d, up);
  }

  lemma WholeIs(s: State, d: Details, up: Act)
    requires up.Up?
    ensures s.log + Through(s, d, up, PostAttach) == s.log + Part(s, d, up, Initialize) + Part(s, d, up, OnCreate)
              + Part(s, d, up, UpdateContent) + Part(s, d, up, PostCreate) + Part(s, d, up, PostStart) + Part(s, d, up, PostAttach)
  {
    ThroughIs(s, d, up);
    Regroup(s.log, Part(s, d, up, Initialize), Part(s, d, up, OnCreate), Part(s, d, up, UpdateContent),
            Part(s, d, up, PostCreate), Part(s, d, up, PostStart), Part(s, d, up, PostAttach));
  }

  lemma ThroughIs(s: State, d: Details, up: Act)
    requires up.Up?
    ensures Through(s, d, up, PostAttach) == [] + Part(s, d, up, Initialize) + Part(s, d, up, OnCreate)
              + Part(s, d, up, UpdateContent) + Part(s, d, up, PostCreate) + Part(s, d, up, PostStart) + Part(s, d, up, PostAttach)
  {
    BeforeIs(s, d, up, Initialize, OnCreate);
    BeforeIs(s, d, up, OnCreate, UpdateContent);
    BeforeIs(s, d, up, UpdateContent, PostCreate);
    BeforeIs(s, d, up, PostCreate, PostStart);
    BeforeIs(s, d, up, PostStart, PostAttach);
  }

  lemma BeforeIs(s: State, d: Details, up: Act, p: Phase, q: Phase)
    requires up.Up? && Rank(q) == Rank(p) + 1
    ensures Before(s, d, up, q) == Before(s, d, up, p) + Part(s, d, up, p)
  {}

  lemma Regroup<T>(l: seq<T>, a: seq<T>, b: seq<T>, c: seq<T>, d: seq<T>, e: seq<T>, f: seq<T>)
    ensures l + ([] + a + b + c + d + e + f) == l + a + b + c + d + e + f
  {}

  // ---- order over histories ----

  ghost predicate Ascending(events: seq<Event>, top: nat) {
    && (forall i :: 0 <= i < |events| ==> Rank(events[i].phase) <= top)
    && forall i, j :: 0 <= i < j < |events| ==> Rank(events[i].phase) <= Rank(events[j].phase)
  }

  lemma AscendingMore(a: seq<Event>, b: seq<Event>, phase: Phase)
    requires Ascending(a, Rank(phase)) && forall i :: 0 <= i < |b| ==> b[i].phase == phase
    ensures Ascending(a + b, Rank(phase))
  {}

  lemma PartOwn(s: State, d: Details, up: Act, phase: Phase)
    requires up.Up?
    ensures forall i :: 0 <= i < |Part(s, d, up, phase)| ==> Part(s, d, up, phase)[i].phase == phase
  {}

  lemma {:induction false} ThroughAscending(s: State, d: Details, up: Act, k: nat)
    requires up.Up? && k < 6
    ensures Ascending(Through(s, d, up, PHASES[k]), k)
    decreases k
  {
    var phase := PHASES[k];
    Placed(phase);
    PartOwn(s, d, up, phase);
    if k > 0 {
      Placed(PHASES[k - 1]);
      ThroughAscending(s, d, up, k - 1);
      assert Before(s, d, up, phase) == Through(s, d, up, PHASES[k - 1]);
    }
    AscendingMore(Before(s, d, up, phase), Part(s, d, up, phase), phase);
  }

  lemma PrefixAscending(log: seq<Event>, more: seq<Event>, t: seq<Event>, top: nat)
    requires log <= t <= log + more && Ascending(more, top)
    ensures Ascending(t[|log|..], top)
  {
    forall i | 0 <= i < |t[|log|..]| ensures t[|log|..][i] == more[i] { assert t[|log| + i] == (log + more)[|log| + i]; }
  }

  lemma UpAscending(s: State, d: Details, up: Act)
    requires up.Up?
    ensures var t := UpFrom(s, d, up.hooks, up.runInitialize, up.fate, 0).0; s.log <= t.log && Ascending(t.log[|s.log|..], 5)
  {
    UpAccount(s, d, up);
    WholeIs(s, d, up);
    var (t, ok) := UpFrom(s, d, up.hooks, up.runInitialize, up.fate, 0);
    if ok {
      ThroughAscending(s, d, up, 5);
      PrefixAscending(s.log, Through(s, d, up, PostAttach), t.log, 5);
    } else {
      var p :| StoppedAt(s, d, up, t, 0, p);
      Placed(p);
      ThroughAscending(s, d, up, Rank(p));
      assert s.log <= s.log + Before(s, d, up, p);
      PrefixAscending(s.log, Through(s, d, up, p), t.log, Rank(p));
    }
  }

  /** Before the i-th event, every earlier in-container phase with commands was completed under its present time. */
  ghost predicate InTurn(log: seq<Event>, i: nat, d: Details, hooks: Hooks)
    requires i < |log|
  {
    forall p :: Rank(p) < Rank(log[i].phase) && p != Initialize && hooks(p) > 0 ==> Done(p, Stamp(p, d)) in log[..i]
  }

  ghost predicate Completed(s: State, d: Details, phase: Phase) {
    phase in s.files && s.files[phase] == Marker(1, Stamp(phase, d)) && Done(phase, Stamp(phase, d)) in s.log
  }

  lemma OrderedInTurn(log: seq<Event>, i: nat, d: Details, hooks: Hooks)
    requires i < |log| && InOrder(log, i, d, hooks)
    ensures InTurn(log, i, d, hooks)
  {
    Placed(log[i].phase);
    forall p | Rank(p) < Rank(log[i].phase) && p != Initialize && hooks(p) > 0 ensures Done(p, Stamp(p, d)) in log[..i] {
      Placed(p);
      KeyIsStamp(p, d);
    }
  }

  lemma ClearedCompletes(s: State, d: Details, hooks: Hooks, phase: Phase)
    requires ClearedBefore(s, d, hooks, 6) && phase !in {Initialize, PostAttach} && hooks(phase) > 0
    ensures Completed(s, d, phase)
  {
    Placed(phase);
    KeyIsStamp(phase, d);
    assert Cleared(s, d, hooks, PHASES[Rank(phase)]);
  }

  /** What an Up that began in s, with this outcome, has done in order. */
  ghost predicate WentInOrder(s: State, t: State, ok: bool, d: Details, hooks: Hooks) {
    && s.log <= t.log
    && (forall i, j :: |s.log| <= i < j < |t.log| ==> Rank(t.log[i].phase) <= Rank(t.log[j].phase))
    && (forall i :: |s.log| <= i < |t.log| ==> InTurn(t.log, i, d, hooks))
    && (ok ==> forall p :: p !in {Initialize, PostAttach} && hooks(p) > 0 ==> Completed(t, d, p))
  }

  lemma WentSo(s: State, t: State, ok: bool, d: Details, hooks: Hooks)
    requires s.log <= t.log && Ascending(t.log[|s.log|..], 5) && (ok ==> ClearedBefore(t, d, hooks, 6))
    requires forall i :: |s.log| <= i < |t.log| ==> InOrder(t.log, i, d, hooks)
    ensures WentInOrder(s, t, ok, d, hooks)
  {
    var n := |s.log|;
    forall i, j | n <= i < j < |t.log| ensures Rank(t.log[i].phase) <= Rank(t.log[j].phase) {
      assert t.log[i] == t.log[n..][i - n] && t.log[j] == t.log[n..][j - n];
    }
    forall i | n <= i < |t.log| ensures InTurn(t.log, i, d, hooks) { OrderedInTurn(t.log, i, d, hooks); }
    if ok {
      forall p | p !in {Initialize, PostAttach} && hooks(p) > 0 ensures Completed(t, d, p) { ClearedCompletes(t, d, hooks, p); }
    }
  }

  /**
    In every Up of every history the events never go back from one phase to an
    earlier one; nothing of a phase happens before each earlier in-container
    phase with commands was completed under its present time; and an Up that
    succeeds leaves every such phase completed and marked.
   */
  lemma PhasesInOrder(d: Details, image: map<Phase, MarkerFile>, acts: seq<Act>, up: Act)
    requires up.Up? && IsHistory(Newborn(d, image), acts) && Foreign(image, After(Newborn(d, image), acts).details)
    ensures var l := After(Newborn(d, image), acts);
      var (t, ok) := UpFrom(l.state, l.details, up.hooks, up.runInitialize, up.fate, 0);
      WentInOrder(l.state, t, ok, l.details, up.hooks)
  {
    HistoryInv(Newborn(d, image), image, acts);
    var l := After(Newborn(d, image), acts);
    UpInOrder(l.state, l.details, image, up.hooks, up.runInitialize, up.fate, 0);
    UpAscending(l.state, l.details, up);
    var (t, ok) := UpFrom(l.state, l.details, up.hooks, up.runInitialize, up.fate, 0);
    WentSo(l.state, t, ok, l.details, up.hooks);
  }
}
