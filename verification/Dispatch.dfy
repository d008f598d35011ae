/** The dispatcher: children are started, called and reported one by one, and their outcomes merged. */
module Dispatch {
  import opened Wrappers
  import opened Ordering
  import opened ExecutionModel
  import opened Invocation
  import opened ApplyOperation
  import opened ApplyCoverage
  import opened ApplyJournal
  import opened ApplyRuns
  import opened ApplyReplay
  import opened JournalAnswers
  import opened DispatchProtocol
  import opened DispatchTrace
  import opened FaithfulDispatch

  // ---- The outside ----

  class World {
    const env: Env
    var acts: seq<Act>

    constructor (env: Env)
      ensures this.env == env && acts == []
    {
      this.env, acts := env, [];
    }

    /** Commits or finalises through the journal. */
    method Ask(e: Event) returns (y: Option<Snapshot>)
      modifies this`acts
      ensures acts == old(acts) + [Asked(e)] && y == env.answer(acts)
    {
      acts := acts + [Asked(e)];
      y := env.answer(acts);
    }

    /** Calls the executor of a child, or has the call refused in its place. */
    method Try(i: nat, refrain: bool) returns (a: Attempt)
      modifies this`acts
      ensures acts == old(acts) + [if refrain then Refrained(i) else Called(i)] && a == Came(env, acts)
    {
      acts := acts + [if refrain then Refrained(i) else Called(i)];
      a := Came(env, acts);
    }
  }

  datatype Verdict = Done(outcome: Outcome) | Reconcile(snapshot: Snapshot, critical: bool) | Stopped

  /** The sorts of the final outcome. */
  datatype OutcomeSorts = OutcomeSorts(runtime: seq<RuntimeOutcome> -> seq<RuntimeOutcome>,
                                       health: seq<HealthOutcome> -> seq<HealthOutcome>)

  ghost predicate AreOutcomeSorts(u: OutcomeSorts) {
    SortsBy(u.runtime, OutcomeLess) && SortsBy(u.health, HealthOutcomeLess)
  }

  function SortOutcome(u: OutcomeSorts, o: Outcome): Outcome { Outcome(u.runtime(o.runtime), u.health(o.health)) }

  // ---- What has been gathered answers the parent ----

  ghost predicate WellFormed(k: Rules, o: Outcome) {
    (forall a :: a in o.runtime ==> RuntimeOutcomeOK(k, a)) && forall h :: h in o.health ==> HealthOutcomeOK(k, h)
  }

  /** The outcomes of the first `i` children: exactly what their steps expect. */
  ghost predicate Gathered(x: Setting, i: nat, o: Outcome)
    requires i <= |x.steps|
  {
    ExactlyExpected(x.steps[..i], o.runtime, o.health) && WellFormed(x.k, o)
  }

  lemma GatheredNext(x: Setting, i: nat, o: Outcome, r: Result)
    requires i < |x.steps| && Gathered(x, i, o) && Proves(x.k, x.steps[i], r)
    ensures Gathered(x, i + 1, Appended(o, r))
  {
    ExpectedNext(x.steps[..i], x.steps[i], o.runtime, o.health, r);
    assert x.steps[..i + 1] == x.steps[..i] + [x.steps[i]];
    ProvenIsWellFormed(x.k, x.steps[i], r);
  }

  /** What the steps expect, in any order. */
  predicate ExpectAlike(a: seq<Step>, b: seq<Step>) {
    multiset(AllRuntime(a)) == multiset(AllRuntime(b)) && multiset(AllHealth(a)) == multiset(AllHealth(b))
  }

  lemma MovedToEnd(a: seq<Step>, step: Step, c: seq<Step>)
    ensures ExpectAlike((a + [step]) + c, (a + c) + [step])
  {
    AllAppend(a + [step], c);
    AllAppend(a, c);
    StepAppended(a, step);
    StepAppended(a + c, step);
  }

  lemma SameEnd(a: seq<Step>, b: seq<Step>, step: Step)
    requires ExpectAlike(a, b)
    ensures ExpectAlike(a + [step], b + [step])
  {
    StepAppended(a, step);
    StepAppended(b, step);
  }

  lemma TakenOut(b: seq<Step>, j: nat)
    requires j < |b|
    ensures b == (b[..j] + [b[j]]) + b[j + 1..]
    ensures multiset(b[..j] + b[j + 1..]) == multiset(b) - multiset{b[j]}
  {
  }

  /** Reordering the steps reorders what they expect. */
  lemma {:induction false} PermutedSteps(a: seq<Step>, b: seq<Step>)
    requires multiset(a) == multiset(b)
    ensures ExpectAlike(a, b)
    decreases |a|
  {
    if a == [] {
      assert |b| == |multiset(b)| == |multiset(a)| == 0;
    } else {
      var n := |a| - 1;
      var last := a[n];
      assert last in multiset(b);
      var j :| 0 <= j < |b| && b[j] == last;
      TakenOut(b, j);
      assert a == a[..n] + [last];
      PermutedSteps(a[..n], b[..j] + b[j + 1..]);
      SameEnd(a[..n], b[..j] + b[j + 1..], last);
      MovedToEnd(b[..j], last, b[j + 1..]);
    }
  }

  lemma GatheredKeys(parent: Request, x: Setting, o: Outcome)
    requires SettingOK(x) && Partitions(parent, x.o.steps) && Gathered(x, |x.steps|, o)
    ensures multiset(Map(OutcomeKey, o.runtime)) == multiset(Map(RuntimeKey, parent.runtimeTargets))
    ensures multiset(Map(HealthOutcomeKey, o.health)) == multiset(Map(HealthKey, parent.healthTargets))
  {
    assert x.steps[..|x.steps|] == x.steps;
    PermutedSteps(x.steps, x.o.steps);
  }

  lemma SortedOutcomeFacts(k: Rules, u: OutcomeSorts, o: Outcome)
    requires AreOutcomeSorts(u) && WellFormed(k, o)
    ensures var z := SortOutcome(u, o);
      && WellFormed(k, z) && Sorted(z.runtime, OutcomeLess) && Sorted(z.health, HealthOutcomeLess)
      && multiset(Map(OutcomeKey, z.runtime)) == multiset(Map(OutcomeKey, o.runtime))
      && multiset(Map(HealthOutcomeKey, z.health)) == multiset(Map(HealthOutcomeKey, o.health))
  {
    var z := SortOutcome(u, o);
    MapPermutation(OutcomeKey, z.runtime, o.runtime);
    MapPermutation(HealthOutcomeKey, z.health, o.health);
    forall a | a in z.runtime ensures RuntimeOutcomeOK(k, a) { assert a in multiset(z.runtime); }
    forall h | h in z.health ensures HealthOutcomeOK(k, h) { assert h in multiset(z.health); }
  }

  /** All gathered and sorted in any legal way, the outcome passes the exact check of the parent. */
  lemma GatheredAnswersParent(s: Sorts, u: OutcomeSorts, parent: Request, x: Setting, o: Outcome)
    requires TokensAreNulFree(x.k) && AreSorts(s) && AreOutcomeSorts(u)
    requires SettingOK(x) && OperationAccepted(x.k, s, parent, x.o) && Gathered(x, |x.steps|, o)
    ensures ExactOutcome(x.k, parent, SortOutcome(u, o))
  {
    AcceptedPartitions(x.k, s, parent, x.o);
    GatheredKeys(parent, x, o);
    SortedOutcomeFacts(x.k, u, o);
    SealedIsOrdered(x.k, s, parent);
    SortedOutcomeAnswers(x.k, parent, SortOutcome(u, o));
    OutcomeCheckMeansAnswers(x.k, s, parent, SortOutcome(u, o));
  }

  // ---- The steps of the operation ----

  /** Steps by request digest. */
  ghost predicate IndexesSteps(m: map<string, Step>, o: Operation) {
    && (forall step :: step in o.steps ==> step.requestDigest in m && m[step.requestDigest] == step)
    && (forall d :: d in m ==> m[d] in o.steps)
  }

  lemma DigestIsStep(o: Operation, a: Step, b: Step)
    requires SealedIds(o) && a in o.steps && b in o.steps && a.requestDigest == b.requestDigest
    ensures a == b
  {
    var i :| 0 <= i < |o.steps| && o.steps[i] == a;
    var j :| 0 <= j < |o.steps| && o.steps[j] == b;
    var ids := Map(StepId, o.steps);
    LessIrreflexive(a.id);
    assert ids[i] == ids[j];
  }

  method IndexSteps(o: Operation) returns (m: map<string, Step>)
    requires SealedIds(o)
    ensures IndexesSteps(m, o)
  {
    m := map[];
    for i := 0 to |o.steps|
      invariant forall step :: step in o.steps[..i] ==> step.requestDigest in m && m[step.requestDigest] == step
      invariant forall d :: d in m ==> m[d] in o.steps[..i]
    {
      assert o.steps[..i + 1] == o.steps[..i] + [o.steps[i]];
      forall step | step in o.steps[..i] && step.requestDigest == o.steps[i].requestDigest ensures step == o.steps[i] {
        DigestIsStep(o, step, o.steps[i]);
      }
      m := m[o.steps[i].requestDigest := o.steps[i]];
    }
    assert o.steps[..|o.steps|] == o.steps;
  }

  lemma OwnStep(x: Setting, m: map<string, Step>, i: nat)
    requires SettingOK(x) && IndexesSteps(m, x.o) && i < |x.steps|
    ensures x.steps[i] in x.o.steps && x.children[i].request.requestDigest in m
    ensures m[x.children[i].request.requestDigest] == x.steps[i]
  {
    assert x.steps[i] in multiset(x.o.steps);
  }

  /** A valid report of success proves the step of the child. */
  lemma ReportProves(x: Setting, i: nat, c: StepCommit)
    requires SettingOK(x) && i < |x.steps| && c.stepId == x.steps[i].id && c.state == Succeeded
    requires CommitOK(x.k, x.o, c, Sought(x.o, c))
    ensures c.result.Some? && Proves(x.k, x.steps[i], c.result.value)
  {
    assert x.steps[i] in multiset(x.o.steps);
    var j :| 0 <= j < |x.o.steps| && x.o.steps[j] == x.steps[i];
    SearchFindsStep(x.o, c, j);
  }

  lemma SearchFindsStep(o: Operation, c: StepCommit, j: nat)
    requires SealedIds(o) && j < |o.steps| && o.steps[j].id == c.stepId
    ensures Sought(o, c) == j
  {
    var named := c.(requestDigest := o.steps[j].requestDigest);
    NamedIsFound(o, named);
    assert Names(o, named, j);
  }

  // ---- One child ----

  datatype Progress = Progress(states: Index, state: OperationState, outcome: Outcome, failed: bool,
                               settled: Option<Snapshot>, gate: bool)

  /** Before child `i`: the log so far, and what the dispatcher remembers of it. */
  ghost predicate Going(x: Setting, p: seq<Act>, i: nat, gate: bool, failed: bool) {
    && Orderly(x, p) && OnlyBefore(p, i) && (gate <==> PlatformBroke(x, p)) && (!failed <==> NoneFailed(p))
    && !CriticalBroke(x, p)
  }

  /** The last answer of the journal, and its index. */
  ghost predicate Known(x: Setting, first: Snapshot, p: seq<Act>, g: Progress) {
    && Indexes(g.states, Held(x, first, p).steps) && SnapshotOK(x.k, x.o, Held(x, first, p))
    && if p == [] then g.settled == None else g.settled.Some? && AnswersWith(x, p, g.settled.value)
  }

  /** The last act was to ask the journal, which answered with this valid snapshot. */
  ghost predicate AnswersWith(x: Setting, p: seq<Act>, y: Snapshot) {
    p != [] && Latest(p).Asked? && x.env.answer(p) == Some(y) && SnapshotOK(x.k, x.o, y)
  }

  /** What has been gathered from the first `i` children. */
  ghost predicate Gains(x: Setting, first: Snapshot, p: seq<Act>, i: nat, outcome: Outcome, failed: bool)
    requires i <= |x.steps|
  {
    AllHandled(x, first, p, i) && (!failed ==> Gathered(x, i, outcome) && Traced(x, first, p, i, outcome))
  }

  lemma GainsLater(x: Setting, first: Snapshot, p: seq<Act>, q: seq<Act>, i: nat, outcome: Outcome, failed: bool)
    requires i <= |x.steps| && p <= q && Gains(x, first, p, i, outcome, failed)
    ensures Gains(x, first, q, i, outcome, failed)
  {
    HandledLater(x, first, p, q, i);
    if !failed { TracedLater(x, first, p, q, i, outcome); }
  }

  lemma GainsNext(x: Setting, first: Snapshot, p: seq<Act>, i: nat, outcome: Outcome, failed: bool, r: Result)
    requires i < |x.steps| && Gains(x, first, p, i, outcome, failed)
    requires HasSource(x, first, p, i, r) && Proves(x.k, x.steps[i], r)
    ensures Gains(x, first, p, i + 1, Appended(outcome, r), failed)
  {
    if !failed {
      GatheredNext(x, i, outcome, r);
      TracedNext(x, first, p, i, outcome, r);
    }
  }

  /** What the loop over the children keeps, before child `i`. */
  ghost predicate Kept(x: Setting, first: Snapshot, p: seq<Act>, i: nat, g: Progress)
    requires i <= |x.steps|
  {
    && Going(x, p, i, g.gate, g.failed) && Known(x, first, p, g) && Gains(x, first, p, i, g.outcome, g.failed)
  }

  /** With a faithful journal: what it holds, the dispatcher knows. */
  ghost predicate Tracks(x: Setting, first: Snapshot, p: seq<Act>, i: nat, g: Progress)
    requires i <= |x.steps|
  {
    var y := Snap(x, first, p);
    && Faithful(x, first) && InHand(x, y, i, g.failed) && OnlyRunning(y, -1) && Indexes(g.states, y.steps)
    && g.state == y.state && (g.failed ==> g.settled == Some(y))
  }

  /** Commits and checks the answer. */
  method CommitChecked(w: World, x: Setting, states: Index, c: StepCommit, ghost first: Snapshot)
    returns (y: Option<Snapshot>)
    requires SettingOK(x)
    requires TokensAreNulFree(x.k) && w.env == x.env && Orderly(x, w.acts) && Permitted(x, w.acts, Asked(Commit(c)))
    modifies w`acts
    ensures Orderly(x, w.acts)
    ensures w.acts == old(w.acts) || w.acts == old(w.acts) + [Asked(Commit(c))]
    ensures y.Some? ==> w.acts == old(w.acts) + [Asked(Commit(c))] && y == x.env.answer(w.acts) && Shows(x, y, c)
    ensures y.Some? ==> CommitOK(x.k, x.o, c, Sought(x.o, c)) && AnswerOK(x.k, x.o, y.value, states, c)
    ensures Trusted(x, first, old(w.acts), states, c) ==> y == Some(Snap(x, first, w.acts))
  {
    if Trusted(x, first, w.acts, states, c) { TrustedIsBelieved(x, first, w.acts, states, c); }
    var fine, index := ValidateStepCommit(x.k, x.o, c);
    if !fine { return None; }
    OrderlyNext(x, w.acts, Asked(Commit(c)));
    y := w.Ask(Commit(c));
    if y == None { return; }
    var sound := ValidateCommittedSnapshot(x.k, x.o, y.value, states, c);
    if !sound { return None; }
  }

  lemma StartKeeps(x: Setting, p: seq<Act>, i: nat, c: StepCommit)
    requires IsStart(x, i, c)
    ensures var q := p + [Asked(Commit(c))];
      && (OnlyBefore(p, i) ==> OnlyBefore(q, i)) && (PlatformBroke(x, q) <==> PlatformBroke(x, p))
      && (NoneFailed(q) <==> NoneFailed(p)) && (CriticalBroke(x, q) <==> CriticalBroke(x, p))
  {
    var q := p + [Asked(Commit(c))];
    BrokeNext(x, p, Asked(Commit(c)));
    assert forall n :: 0 <= n < |p| ==> q[n] == p[n];
    assert q[|p|] == Asked(Commit(c));
  }

  lemma AttemptKeeps(x: Setting, p: seq<Act>, i: nat, a: Act)
    requires IsAttempt(a) && a.child == i && OnlyBefore(p, i)
    ensures OnlyBefore(p + [a], i + 1) && (NoneFailed(p + [a]) <==> NoneFailed(p))
  {
    var q := p + [a];
    assert forall n :: 0 <= n < |p| ==> q[n] == p[n];
    assert q[|p|] == a;
  }

  lemma ReportKeeps(x: Setting, p: seq<Act>, i: nat, c: StepCommit)
    requires OnlyBefore(p, i)
    ensures var q := p + [Asked(Commit(c))];
      && OnlyBefore(q, i) && (PlatformBroke(x, q) <==> PlatformBroke(x, p))
      && (NoneFailed(q) <==> NoneFailed(p) && c.state != Failed) && (CriticalBroke(x, q) <==> CriticalBroke(x, p))
  {
    var q := p + [Asked(Commit(c))];
    BrokeNext(x, p, Asked(Commit(c)));
    assert forall n :: 0 <= n < |p| ==> q[n] == p[n];
    assert q[|p|] == Asked(Commit(c));
  }

  /** Starts the step of a child; afterwards it may be attempted. */
  method StartChild(w: World, x: Setting, i: nat, states: Index, expected: StepState, ghost gate: bool,
                    ghost failed: bool, ghost first: Snapshot)
    returns (running: Option<Snapshot>)
    requires TokensAreNulFree(x.k) && SettingOK(x) && w.env == x.env && i < |x.steps|
    requires expected in {Pending, Failed} && Going(x, w.acts, i, gate, failed)
    modifies w`acts
    ensures Orderly(x, w.acts)
    ensures running.Some? ==> Started(x, w.acts, i) && Going(x, w.acts, i, gate, failed)
    ensures running.Some? ==> SnapshotOK(x.k, x.o, running.value)
    ensures w.acts == old(w.acts) || w.acts == old(w.acts) + [Asked(Commit(StartFor(x, i, expected)))]
    ensures Trusted(x, first, old(w.acts), states, StartFor(x, i, expected)) ==>
      running == Some(Snap(x, first, w.acts)) && w.acts == old(w.acts) + [Asked(Commit(StartFor(x, i, expected)))]
  {
    var c := StartFor(x, i, expected);
    assert IsStart(x, i, c);
    StartKeeps(x, w.acts, i, c);
    running := CommitChecked(w, x, states, c, first);
  }

  /** The last act attempted child `i`, which came to `a`. */
  ghost predicate Attempted(x: Setting, p: seq<Act>, i: nat, a: Attempt, gate: bool, failed: bool) {
    && Orderly(x, p) && OnlyBefore(p, i + 1) && p != [] && IsAttempt(Latest(p)) && Latest(p).child == i
    && a == Came(x.env, p) && (gate <==> PlatformBroke(x, p)) && (!failed <==> NoneFailed(p))
    && (CriticalBroke(x, p) <==> BreaksCritical(x, p))
  }

  /** Calls the executor, unless the platform of the child broke. */
  method AttemptChild(w: World, x: Setting, i: nat, gate: bool, ghost failed: bool)
    returns (a: Attempt, gate': bool)
    requires SettingOK(x) && w.env == x.env && i < |x.steps| && Started(x, w.acts, i)
    requires Going(x, w.acts, i, gate, failed)
    modifies w`acts
    ensures Attempted(x, w.acts, i, a, gate', failed)
    ensures exists act :: IsAttempt(act) && w.acts == old(w.acts) + [act]
  {
    var refrain := gate && x.children[i].platformBound;
    ghost var act := if refrain then Refrained(i) else Called(i);
    OrderlyNext(x, w.acts, act);
    AttemptKeeps(x, w.acts, i, act);
    BrokeNext(x, w.acts, act);
    a := w.Try(i, refrain);
    gate' := gate || (a.Broke? && x.children[i].platform && !a.degradedOnly);
  }

  /** A real failure of a critical child. */
  predicate StopsRollout(x: Setting, i: nat, a: Attempt)
    requires i < |x.children|
  {
    a.Broke? && x.children[i].critical && !a.degradedOnly
  }

  /** The report of child `i` was answered with `y`. */
  ghost predicate Told(x: Setting, p: seq<Act>, i: nat, y: Snapshot, a: Attempt, gate: bool, failed: bool)
    requires i < |x.steps| && |x.children| == |x.steps|
  {
    && Orderly(x, p) && OnlyBefore(p, i + 1) && (gate <==> PlatformBroke(x, p))
    && (CriticalBroke(x, p) <==> StopsRollout(x, i, a))
    && (!(failed || a.Broke?) <==> NoneFailed(p)) && AnswersWith(x, p, y) && (a.Broke? ==> Holds(y.steps, Failed))
    && (a.Delivered? ==> Proves(x.k, x.steps[i], a.result))
  }

  /** Commits what came of the attempt. */
  method ReportChild(w: World, x: Setting, i: nat, states: Index, a: Attempt, ghost gate: bool, ghost failed: bool,
                     ghost first: Snapshot)
    returns (y: Option<Snapshot>)
    requires TokensAreNulFree(x.k) && SettingOK(x) && w.env == x.env && i < |x.steps|
    requires Attempted(x, w.acts, i, a, gate, failed)
    modifies w`acts
    ensures Orderly(x, w.acts) && old(w.acts) <= w.acts
    ensures y.Some? ==> Told(x, w.acts, i, y.value, a, gate, failed)
    ensures Trusted(x, first, old(w.acts), states, ReportFor(x, i, a)) ==>
      y == Some(Snap(x, first, w.acts)) && w.acts == old(w.acts) + [Asked(Commit(ReportFor(x, i, a)))]
  {
    var c := ReportFor(x, i, a);
    ghost var p := w.acts;
    y := CommitChecked(w, x, states, c, first);
    if y.Some? { ReportIsTold(x, p, i, y.value, a, gate, failed); }
  }

  lemma ReportIsTold(x: Setting, p: seq<Act>, i: nat, y: Snapshot, a: Attempt, gate: bool, failed: bool)
    requires SettingOK(x) && i < |x.steps| && Attempted(x, p, i, a, gate, failed)
    requires var c := ReportFor(x, i, a); var q := p + [Asked(Commit(c))];
      && Orderly(x, q) && x.env.answer(q) == Some(y) && Shows(x, Some(y), c)
      && CommitOK(x.k, x.o, c, Sought(x.o, c))
    ensures Told(x, p + [Asked(Commit(ReportFor(x, i, a)))], i, y, a, gate, failed)
  {
    var c := ReportFor(x, i, a);
    ReportKeeps(x, p, i + 1, c);
    if a.Delivered? { ReportProves(x, i, c); }
    var n :| 0 <= n < |y.steps| && y.steps[n] == Recorded(c);
  }

  /** A step that had succeeded is not attempted again; its journaled result is verified and taken over. */
  method TakeOver(x: Setting, i: nat, state: StepSnapshot, step: Step, outcome: Outcome)
    returns (more: Option<Outcome>)
    requires TokensAreNulFree(x.k) && i < |x.steps| && step == x.steps[i]
    ensures more.Some? <==> state.result.Some? && Proves(x.k, x.steps[i], state.result.value)
    ensures more.Some? ==> more.value == Appended(outcome, state.result.value)
  {
    if state.result == None { return None; }
    var proven := VerifyStepResult(x.k, step, state.result.value);
    return if proven then Some(Appended(outcome, state.result.value)) else None;
  }

  /** With a faithful journal: child `i` is being attempted, and the dispatcher knows it. */
  ghost predicate Watches(x: Setting, first: Snapshot, p: seq<Act>, i: nat, states: Index, failed: bool)
    requires i < |x.steps|
  {
    Faithful(x, first) && UnderWay(x, Snap(x, first, p), i, failed) && Indexes(states, Snap(x, first, p).steps)
  }

  method IndexSnapshot(x: Setting, y: Snapshot) returns (states: Index)
    requires SettingOK(x) && SnapshotOK(x.k, x.o, y)
    ensures Indexes(states, y.steps)
  {
    SnapshotDigestsDiffer(x.k, x.o, y);
    states := IndexStepSnapshots(y.steps);
  }

  /** With a faithful journal: child `i` is next and its step can be started. */
  ghost predicate IsNextUp(x: Setting, first: Snapshot, p: seq<Act>, i: nat, g: Progress, state: StepState)
    requires i < |x.steps|
  {
    && state in {Pending, Failed} && Tracks(x, first, p, i, g)
    && StateOfChild(x, Snap(x, first, p), i) == Some(state)
  }

  lemma StartIsWatched(x: Setting, first: Snapshot, p: seq<Act>, i: nat, g: Progress, state: StepState)
    requires SettingOK(x) && i < |x.steps| && IsNextUp(x, first, p, i, g, state)
    ensures Trusted(x, first, p, g.states, StartFor(x, i, state))
    ensures UnderWay(x, Snap(x, first, p + [Asked(Commit(StartFor(x, i, state)))]), i, g.failed)
  {
    StartIsTrusted(x, first, p, g.states, i, g.failed, state);
    StartPutsUnderWay(x, first, p, i, g.failed, state);
  }

  function StateOfChild(x: Setting, y: Snapshot, i: nat): Option<StepState>
    requires i < |x.steps|
  {
    if PosOf(x, i) < |y.steps| then Some(y.steps[PosOf(x, i)].state) else None
  }

  /** Starts a pending or failed step and attempts its child. */
  method StartAndAttempt(w: World, x: Setting, i: nat, state: StepState, g: Progress, ghost first: Snapshot)
    returns (ok: bool, states: Index, a: Attempt, gate: bool)
    requires TokensAreNulFree(x.k) && SettingOK(x) && w.env == x.env && i < |x.steps|
    requires Going(x, w.acts, i, g.gate, g.failed) && state in {Pending, Failed}
    modifies w`acts
    ensures Orderly(x, w.acts) && old(w.acts) <= w.acts && (ok ==> Attempted(x, w.acts, i, a, gate, g.failed))
    ensures IsNextUp(x, first, old(w.acts), i, g, state) ==> ok && Watches(x, first, w.acts, i, states, g.failed)
  {
    ghost var p := w.acts;
    ghost var faithful := IsNextUp(x, first, p, i, g, state);
    if faithful { StartIsWatched(x, first, p, i, g, state); }
    ok, a, gate, states := false, Broke(OtherFault, false), g.gate, g.states;
    var running := StartChild(w, x, i, g.states, state, g.gate, g.failed, first);
    if running == None { return; }
    states := IndexSnapshot(x, running.value);
    ghost var q := w.acts;
    a, gate := AttemptChild(w, x, i, g.gate, g.failed);
    ghost var act :| IsAttempt(act) && w.acts == q + [act];
    AttemptKeepsSnap(x, first, q, act);
    ok := true;
  }

  /** The progress after the report of child `i` was answered with `y`. */
  function Reported(g: Progress, states: Index, y: Snapshot, a: Attempt, gate: bool): Progress {
    Progress(states, y.state, if a.Broke? then g.outcome else Appended(g.outcome, a.result), g.failed || a.Broke?,
      Some(y), gate)
  }

  lemma ReportIsTracked(x: Setting, first: Snapshot, p: seq<Act>, i: nat, states: Index, a: Attempt, g: Progress,
                        later: Index, gate: bool)
    requires SettingOK(x) && i < |x.steps| && Watches(x, first, p, i, states, g.failed)
    requires a.Delivered? ==> Proves(x.k, x.steps[i], a.result)
    ensures Trusted(x, first, p, states, ReportFor(x, i, a))
    ensures var q := p + [Asked(Commit(ReportFor(x, i, a)))];
      Indexes(later, Snap(x, first, q).steps) ==>
        Tracks(x, first, q, i + 1, Reported(g, later, Snap(x, first, q), a, gate))
  {
    ReportIsTrusted(x, first, p, states, i, g.failed, a);
  }

  lemma DeliveryProves(x: Setting, first: Snapshot, p: seq<Act>, i: nat, a: Attempt)
    requires Faithful(x, first) && i < |x.steps| && p != [] && IsAttempt(Latest(p)) && Latest(p).child == i
    requires a == Came(x.env, p)
    ensures a.Delivered? ==> Proves(x.k, x.steps[i], a.result)
  {
    assert DeliversProof(x, p);
  }

  /** The attempt counts once it has been reported. */
  lemma KeptAfterReport(x: Setting, first: Snapshot, p: seq<Act>, q: seq<Act>, i: nat, y: Snapshot, a: Attempt,
                        gate: bool, g: Progress, later: Index)
    requires i < |x.steps| && |x.children| == |x.steps| && p <= q && Attempted(x, p, i, a, gate, g.failed)
    requires Told(x, q, i, y, a, gate, g.failed) && Gains(x, first, p, i, g.outcome, g.failed)
    requires Indexes(later, y.steps)
    ensures !StopsRollout(x, i, a) ==> Kept(x, first, q, i + 1, Reported(g, later, y, a, gate))
    ensures StopsRollout(x, i, a) ==> StopsRightly(x, first, q, Reconcile(y, true))
  {
    assert Tried(p, i);
    if a.Delivered? {
      assert Delivers(x, p, i, a.result);
      GainsNext(x, first, p, i, g.outcome, g.failed, a.result);
    } else {
      assert Handled(x, first, p, i);
      assert Gains(x, first, p, i + 1, g.outcome, true);
    }
    var g' := Reported(g, later, y, a, gate);
    GainsLater(x, first, p, q, i + 1, g'.outcome, g'.failed);
  }

  /** Reports the attempt; a real failure of a critical child ends the dispatch. */
  method FinishChild(w: World, x: Setting, i: nat, states: Index, a: Attempt, gate: bool, g: Progress,
                     ghost first: Snapshot, ghost faithful: bool)
    returns (g': Progress, stop: Option<Verdict>)
    requires TokensAreNulFree(x.k) && SettingOK(x) && w.env == x.env && i < |x.steps|
    requires Attempted(x, w.acts, i, a, gate, g.failed) && Gains(x, first, w.acts, i, g.outcome, g.failed)
    requires faithful ==> Watches(x, first, w.acts, i, states, g.failed)
    modifies w`acts
    ensures Orderly(x, w.acts) && (stop == None ==> Kept(x, first, w.acts, i + 1, g'))
    ensures stop.Some? ==> StopsRightly(x, first, w.acts, stop.value)
    ensures faithful ==> if stop.Some? then stop.value.Reconcile? else Tracks(x, first, w.acts, i + 1, g')
  {
    ghost var p := w.acts;
    if faithful {
      DeliveryProves(x, first, p, i, a);
      ReportIsTracked(x, first, p, i, states, a, g, states, gate);
    }
    var y := ReportChild(w, x, i, states, a, gate, g.failed, first);
    if y == None { return g, Some(Stopped); }
    var later := IndexSnapshot(x, y.value);
    g' := Reported(g, later, y.value, a, gate);
    KeptAfterReport(x, first, p, w.acts, i, y.value, a, gate, g, later);
    if StopsRollout(x, i, a) { return g', Some(Reconcile(y.value, true)); }
    if faithful { ReportIsTracked(x, first, p, i, states, a, g, later, gate); }
    stop := None;
  }

  /** Starts, attempts and reports a pending or failed step. */
  method RunChild(w: World, x: Setting, i: nat, state: StepState, g: Progress, ghost first: Snapshot,
                  ghost faithful: bool)
    returns (g': Progress, stop: Option<Verdict>)
    requires TokensAreNulFree(x.k) && SettingOK(x) && w.env == x.env && i < |x.steps| && Kept(x, first, w.acts, i, g)
    requires faithful ==> IsNextUp(x, first, w.acts, i, g, state)
    modifies w`acts
    ensures Orderly(x, w.acts) && (stop == None ==> Kept(x, first, w.acts, i + 1, g'))
    ensures stop.Some? ==> StopsRightly(x, first, w.acts, stop.value)
    ensures faithful ==> if stop.Some? then stop.value.Reconcile? else Tracks(x, first, w.acts, i + 1, g')
  {
    if state != Pending && state != Failed { return g, Some(Stopped); }
    ghost var p := w.acts;
    var ok, states, a, gate := StartAndAttempt(w, x, i, state, g, first);
    if !ok { return g, Some(Stopped); }
    GainsLater(x, first, p, w.acts, i, g.outcome, g.failed);
    g', stop := FinishChild(w, x, i, states, a, gate, g, first, faithful);
  }

  /** A reconcile verdict follows a reported failure and carries the valid snapshot the journal answered last. It is
      critical exactly when a critical child really failed; otherwise every child has been attempted or had its
      result, and the operation is reconcile-required. */
  ghost predicate StopsRightly(x: Setting, first: Snapshot, p: seq<Act>, v: Verdict) {
    match v
    case Done(_) => false
    case Reconcile(y, critical) =>
      && !NoneFailed(p) && AnswersWith(x, p, y) && (critical <==> CriticalBroke(x, p))
      && (if critical then Holds(y.steps, Failed)
          else y.state == ReconcileRequired && AllHandled(x, first, p, |x.steps|))
    case Stopped => true
  }

  lemma IndexedState(x: Setting, first: Snapshot, p: seq<Act>, i: nat, g: Progress)
    requires SettingOK(x) && i < |x.steps| && Tracks(x, first, p, i, g)
    ensures x.steps[i].requestDigest in g.states
    ensures var state := g.states[x.steps[i].requestDigest];
      StateOfChild(x, Snap(x, first, p), i) == Some(state.state) && state.state in {Pending, Failed, Succeeded}
    ensures var state := g.states[x.steps[i].requestDigest];
      state.state == Succeeded ==> state.result.Some? && Proves(x.k, x.steps[i], state.result.value)
  {
    ChildStands(x, i);
    var y := Snap(x, first, p);
    assert StepSnapshotOK(x.k, x.o.steps[PosOf(x, i)], y.steps[PosOf(x, i)]);
    assert y.steps[PosOf(x, i)].state == Compensated ==> Holds(y.steps, Compensated);
  }

  lemma TakenOverIsTracked(x: Setting, first: Snapshot, p: seq<Act>, i: nat, g: Progress, outcome: Outcome)
    requires SettingOK(x) && i < |x.steps| && Tracks(x, first, p, i, g)
    requires StateOfChild(x, Snap(x, first, p), i) == Some(Succeeded)
    ensures Tracks(x, first, p, i + 1, g.(outcome := outcome))
  {
    SucceededStaysInHand(x, Snap(x, first, p), i, g.failed);
  }

  /** The journal shows the result of a child it holds as succeeded. */
  lemma KnownHasSource(x: Setting, first: Snapshot, p: seq<Act>, i: nat, g: Progress, r: Result)
    requires i < |x.steps| && Known(x, first, p, g) && x.steps[i].requestDigest in g.states
    requires var state := g.states[x.steps[i].requestDigest]; state.state == Succeeded && state.result == Some(r)
    ensures HasSource(x, first, p, i, r)
  {
    var d, held := x.steps[i].requestDigest, Held(x, first, p);
    var n :| 0 <= n < |held.steps| && held.steps[n].requestDigest == d;
    assert g.states[d] == held.steps[n];
    assert ShowsResult(x, held, i, r);
  }

  lemma TakenOverIsKept(x: Setting, first: Snapshot, p: seq<Act>, i: nat, g: Progress, r: Result)
    requires i < |x.steps| && Kept(x, first, p, i, g) && x.steps[i].requestDigest in g.states
    requires var state := g.states[x.steps[i].requestDigest]; state.state == Succeeded && state.result == Some(r)
    requires Proves(x.k, x.steps[i], r)
    ensures Kept(x, first, p, i + 1, g.(outcome := Appended(g.outcome, r)))
  {
    KnownHasSource(x, first, p, i, g, r);
    GainsNext(x, first, p, i, g.outcome, g.failed, r);
  }

  /** Having dealt with the first `i` children, or stopped there. */
  ghost predicate Went(x: Setting, first: Snapshot, p: seq<Act>, i: nat, g: Progress, stop: Option<Verdict>,
                       faithful: bool)
    requires i <= |x.steps|
  {
    match stop
    case None => Kept(x, first, p, i, g) && (faithful ==> Tracks(x, first, p, i, g))
    case Some(v) => StopsRightly(x, first, p, v) && (faithful ==> v.Reconcile?)
  }

  method DispatchChild(w: World, x: Setting, i: nat, byDigest: map<string, Step>, g: Progress, ghost first: Snapshot,
                       ghost faithful: bool)
    returns (g': Progress, stop: Option<Verdict>)
    requires TokensAreNulFree(x.k) && SettingOK(x) && w.env == x.env && IndexesSteps(byDigest, x.o)
    requires i < |x.steps| && Went(x, first, w.acts, i, g, None, faithful)
    modifies w`acts
    ensures Orderly(x, w.acts) && Went(x, first, w.acts, i + 1, g', stop, faithful)
  {
    OwnStep(x, byDigest, i);
    if faithful { IndexedState(x, first, w.acts, i, g); }
    var step := byDigest[x.children[i].request.requestDigest];
    if step.requestDigest !in g.states { return g, Some(Stopped); }
    var state := g.states[step.requestDigest];
    if state.state == Succeeded {
      var more := TakeOver(x, i, state, step, g.outcome);
      if more == None { return g, Some(Stopped); }
      TakenOverIsKept(x, first, w.acts, i, g, state.result.value);
      if faithful { TakenOverIsTracked(x, first, w.acts, i, g, more.value); }
      return g.(outcome := more.value), None;
    }
    g', stop := RunChild(w, x, i, state.state, g, first, faithful);
  }

  /** The loop over the children. */
  method DispatchChildren(w: World, x: Setting, start: Progress, ghost first: Snapshot, ghost faithful: bool)
    returns (g: Progress, stop: Option<Verdict>)
    requires TokensAreNulFree(x.k) && SettingOK(x) && w.env == x.env && Kept(x, first, w.acts, 0, start)
    requires faithful ==> Tracks(x, first, w.acts, 0, start)
    modifies w`acts
    ensures Orderly(x, w.acts) && Went(x, first, w.acts, |x.steps|, g, stop, faithful)
  {
    var byDigest := IndexSteps(x.o);
    g := start;
    for i := 0 to |x.children|
      invariant Orderly(x, w.acts) && Went(x, first, w.acts, i, g, None, faithful)
    {
      g, stop := DispatchChild(w, x, i, byDigest, g, first, faithful);
      if stop.Some? { return; }
    }
    stop := None;
  }

  // ---- The end of the operation ----

  predicate StepsMatch(states: Index, steps: seq<StepSnapshot>) {
    |states| == |steps| && forall x :: x in steps ==> x.requestDigest in states && states[x.requestDigest] == x
  }

  method SnapshotStepsMatch(states: Index, steps: seq<StepSnapshot>) returns (ok: bool)
    ensures ok <==> StepsMatch(states, steps)
  {
    if |states| != |steps| { return false; }
    for i := 0 to |steps|
      invariant forall j :: 0 <= j < i ==>
        steps[j].requestDigest in states && states[steps[j].requestDigest] == steps[j]
    {
      if steps[i].requestDigest !in states || states[steps[i].requestDigest] != steps[i] {
        assert steps[i] in steps;
        return false;
      }
    }
    return true;
  }

  /** Completion was asked for last, and the journal showed the operation completed, with the steps it had before. */
  ghost predicate Concluded(x: Setting, first: Snapshot, p: seq<Act>) {
    && p != [] && Latest(p).Asked? && Latest(p).e.Finish? && Shown(x, p).Some?
    && Shown(x, p).value.state == OperationState.Completed
    && Shown(x, p).value.steps == Held(x, first, p[..|p| - 1]).steps
  }

  /** The valid snapshot the journal answered last. */
  ghost function Shown(x: Setting, p: seq<Act>): Option<Snapshot> {
    var y := x.env.answer(p);
    if y.Some? && SnapshotOK(x.k, x.o, y.value) then y else None
  }

  lemma NothingChanged(x: Setting, states: Index, before: Snapshot, y: Snapshot)
    requires SnapshotOK(x.k, x.o, before) && SnapshotOK(x.k, x.o, y)
    requires Indexes(states, before.steps) && StepsMatch(states, y.steps)
    ensures y.steps == before.steps
  {
    forall n | 0 <= n < |y.steps| ensures y.steps[n] == before.steps[n] {
      assert y.steps[n] in y.steps;
      assert StepSnapshotOK(x.k, x.o.steps[n], y.steps[n]) && StepSnapshotOK(x.k, x.o.steps[n], before.steps[n]);
    }
  }

  /** A faithful journal completes an operation all of whose children are done. */
  lemma CompletionSucceeds(x: Setting, first: Snapshot, p: seq<Act>, g: Progress, f: Finalization)
    requires SettingOK(x) && Tracks(x, first, p, |x.steps|, g) && !g.failed
    requires f == Finalization(x.o.operationId, x.fence, g.state, OperationState.Completed)
    ensures FinalizationOK(x.o, f) && Shown(x, p + [Asked(Finish(f))]).Some?
    ensures var y := Shown(x, p + [Asked(Finish(f))]).value;
      y.state == OperationState.Completed && StepsMatch(g.states, y.steps)
  {
    CompletionIsBelieved(x, first, p, f);
    var y := Snap(x, first, p);
    SnapshotDigestsDiffer(x.k, x.o, y);
    IndexSize(g.states, y.steps);
  }

  /** The completion the journal showed. */
  lemma CompletionConcludes(x: Setting, first: Snapshot, p: seq<Act>, g: Progress, f: Finalization)
    requires Known(x, first, p, g)
    requires var y := Shown(x, p + [Asked(Finish(f))]);
      y.Some? && y.value.state == OperationState.Completed && StepsMatch(g.states, y.value.steps)
    ensures Concluded(x, first, p + [Asked(Finish(f))])
  {
    var q := p + [Asked(Finish(f))];
    NothingChanged(x, g.states, Held(x, first, p), Shown(x, q).value);
    assert q[..|q| - 1] == p;
  }

  /** Asks for completion; the answer is given back if it shows the operation completed. */
  method AskCompletion(w: World, x: Setting, f: Finalization) returns (y: Option<Snapshot>)
    requires TokensAreNulFree(x.k) && w.env == x.env && f.state == OperationState.Completed
    requires Orderly(x, w.acts) && NoneFailed(w.acts) && !CriticalBroke(x, w.acts)
    modifies w`acts
    ensures Orderly(x, w.acts) && NoneFailed(w.acts)
    ensures w.acts == old(w.acts) || w.acts == old(w.acts) + [Asked(Finish(f))]
    ensures y.Some? ==>
      w.acts == old(w.acts) + [Asked(Finish(f))] && Shown(x, w.acts) == y && y.value.state == OperationState.Completed
    ensures var z := Shown(x, old(w.acts) + [Asked(Finish(f))]);
      FinalizationOK(x.o, f) && z.Some? && z.value.state == OperationState.Completed ==> y == z
  {
    var fine := ValidateFinalization(x.o, f);
    if !fine { return None; }
    OrderlyNext(x, w.acts, Asked(Finish(f)));
    y := w.Ask(Finish(f));
    if y == None { return; }
    var sound := ValidateSnapshot(x.k, x.o, y.value);
    if !sound || y.value.state != OperationState.Completed { return None; }
  }

  method Complete(w: World, x: Setting, g: Progress, ghost first: Snapshot) returns (done: bool)
    requires TokensAreNulFree(x.k) && SettingOK(x) && w.env == x.env
    requires Going(x, w.acts, |x.steps|, g.gate, false) && Known(x, first, w.acts, g) && !g.failed
    modifies w`acts
    ensures Orderly(x, w.acts) && (done ==> Concluded(x, first, w.acts)) && NoneFailed(w.acts) && old(w.acts) <= w.acts
    ensures old(Tracks(x, first, w.acts, |x.steps|, g)) ==> done
  {
    ghost var p := w.acts;
    var f := Finalization(x.o.operationId, x.fence, g.state, OperationState.Completed);
    ghost var faithful := Tracks(x, first, p, |x.steps|, g);
    if faithful { CompletionSucceeds(x, first, p, g, f); }
    var y := AskCompletion(w, x, f);
    if y == None { return false; }
    done := SnapshotStepsMatch(g.states, y.value.steps);
    if done { CompletionConcludes(x, first, p, g, f); }
  }

  /** The outcome is the sorted whole of one result for each child, delivered in this dispatch or shown by the
      journal. */
  ghost predicate Yields(x: Setting, first: Snapshot, p: seq<Act>, u: OutcomeSorts, o: Outcome) {
    exists gathered :: Traced(x, first, p, |x.steps|, gathered) && o == SortOutcome(u, gathered)
  }

  method Conclude(w: World, x: Setting, u: OutcomeSorts, g: Progress, ghost first: Snapshot) returns (v: Verdict)
    requires TokensAreNulFree(x.k) && SettingOK(x) && w.env == x.env && Kept(x, first, w.acts, |x.steps|, g)
    modifies w`acts
    ensures Orderly(x, w.acts)
    ensures v.Done? ==>
      Concluded(x, first, w.acts) && v.outcome == SortOutcome(u, g.outcome) && Gathered(x, |x.steps|, g.outcome)
    ensures v.Done? ==> NoneFailed(w.acts) && Yields(x, first, w.acts, u, v.outcome)
    ensures !v.Done? ==> StopsRightly(x, first, w.acts, v)
    ensures Tracks(x, first, old(w.acts), |x.steps|, g) ==> !v.Stopped?
  {
    if g.failed {
      if Tracks(x, first, w.acts, |x.steps|, g) { AllDoneMeans(x, Snap(x, first, w.acts), true); }
      if g.settled.value.state != ReconcileRequired { return Stopped; }
      return Reconcile(g.settled.value, false);
    }
    ghost var p := w.acts;
    var done := Complete(w, x, g, first);
    GainsLater(x, first, p, w.acts, |x.steps|, g.outcome, false);
    return if done then Done(SortOutcome(u, g.outcome)) else Stopped;
  }

  // ---- The whole dispatch ----

  function StepFor(t: StepSorts, c: Child): Step { StepOf(t, c.request, c.compensation) }

  method BuildStep(k: Rules, s: Sorts, t: StepSorts, c: Child) returns (step: Option<Step>)
    requires TokensAreNulFree(k)
    ensures step.Some? ==> step.value == StepFor(t, c)
  {
    step := NewStep(k, s, t, c.request, c.compensation);
  }

  /** One step a child, in the order of the children. */
  method BuildSteps(k: Rules, s: Sorts, t: StepSorts, children: seq<Child>) returns (steps: Option<seq<Step>>)
    requires TokensAreNulFree(k)
    ensures steps.Some? ==> steps.value == Map((c: Child) => StepFor(t, c), children)
  {
    var built: seq<Step> := [];
    for i := 0 to |children|
      invariant |built| == i && forall j :: 0 <= j < i ==> built[j] == StepFor(t, children[j])
    {
      var step := BuildStep(k, s, t, children[i]);
      if step == None { return None; }
      built := built + [step.value];
    }
    return Some(built);
  }

  /** A completed snapshot, indexed. */
  ghost predicate Replays(x: Setting, y: Snapshot, states: Index) {
    SnapshotOK(x.k, x.o, y) && y.state == OperationState.Completed && Indexes(states, y.steps)
  }

  lemma ReplayedIsProven(x: Setting, y: Snapshot, states: Index, i: nat)
    requires SettingOK(x) && i < |x.steps| && Replays(x, y, states)
    ensures x.steps[i].requestDigest in states
    ensures var state := states[x.steps[i].requestDigest];
      state.state == Succeeded && state.result.Some? && Proves(x.k, x.steps[i], state.result.value)
  {
    ChildStands(x, i);
    assert StepSnapshotOK(x.k, x.o.steps[PosOf(x, i)], y.steps[PosOf(x, i)]);
  }

  lemma ReplayedHasSource(x: Setting, y: Snapshot, states: Index, i: nat, r: Result)
    requires i < |x.steps| && Indexes(states, y.steps) && x.steps[i].requestDigest in states
    requires var state := states[x.steps[i].requestDigest]; state.state == Succeeded && state.result == Some(r)
    ensures HasSource(x, y, [], i, r)
  {
    var d := x.steps[i].requestDigest;
    var n :| 0 <= n < |y.steps| && y.steps[n].requestDigest == d;
    assert states[d] == y.steps[n];
    assert ShowsResult(x, Held(x, y, []), i, r);
  }

  /** The result of one replayed child. */
  method ReplayChild(x: Setting, i: nat, byDigest: map<string, Step>, states: Index, outcome: Outcome,
                     ghost y: Snapshot)
    returns (more: Option<Outcome>)
    requires TokensAreNulFree(x.k) && SettingOK(x) && IndexesSteps(byDigest, x.o) && Indexes(states, y.steps)
    requires i < |x.steps| && Gains(x, y, [], i, outcome, false)
    ensures more.Some? ==> Gains(x, y, [], i + 1, more.value, false)
    ensures Replays(x, y, states) ==> more.Some?
  {
    OwnStep(x, byDigest, i);
    if Replays(x, y, states) { ReplayedIsProven(x, y, states, i); }
    var digest := x.children[i].request.requestDigest;
    if digest !in states || states[digest].state != Succeeded || states[digest].result == None { return None; }
    var result := states[digest].result.value;
    var proven := VerifyStepResult(x.k, byDigest[digest], result);
    if !proven { return None; }
    ReplayedHasSource(x, y, states, i, result);
    GainsNext(x, y, [], i, outcome, false, result);
    return Some(Appended(outcome, result));
  }

  /** A completed operation is answered from its journal, result by result; no executor is called. */
  method ReplayPrepared(x: Setting, y: Snapshot) returns (outcome: Option<Outcome>)
    requires TokensAreNulFree(x.k) && SettingOK(x) && SnapshotOK(x.k, x.o, y)
    ensures outcome.Some? ==> Gathered(x, |x.steps|, outcome.value) && Traced(x, y, [], |x.steps|, outcome.value)
    ensures y.state == OperationState.Completed ==> outcome.Some?
  {
    var byDigest := IndexSteps(x.o);
    var states := IndexSnapshot(x, y);
    var gathered := Outcome([], []);
    TracedNone(x, y, []);
    for i := 0 to |x.children|
      invariant Gains(x, y, [], i, gathered, false)
    {
      var more := ReplayChild(x, i, byDigest, states, gathered, y);
      if more == None { return None; }
      gathered := more.value;
    }
    return Some(gathered);
  }

  /** The operation is new, or taken over with nothing running. */
  ghost predicate MayRun(x: Setting, r: Reservation) {
    r.disposition in {Acquired, Resume} && OnlyRunning(FirstOf(x.o, r), -1)
  }

  /** Where the loop starts: all pending, or as the reservation says, unless a step is still running. */
  method Resumed(x: Setting, r: Reservation) returns (start: Option<Progress>)
    requires SettingOK(x) && ReservationOK(x.k, x.o, r) && r.disposition in {Acquired, Resume}
    ensures start.Some? ==> Kept(x, FirstOf(x.o, r), [], 0, start.value) && MayRun(x, r)
    ensures Resumable(x, r) && Faithful(x, FirstOf(x.o, r)) ==>
      start.Some? && Tracks(x, FirstOf(x.o, r), [], 0, start.value)
  {
    var y := if r.disposition == Acquired then InitialSnapshot(x.o) else r.snapshot.value;
    InitialIsFine(x.k, x.o);
    if Resumable(x, r) { ResumableIsInHand(x, r); }
    for i := 0 to |y.steps|
      invariant forall j :: 0 <= j < i ==> y.steps[j].state != Running
    {
      if y.steps[i].state == Running { return None; }
    }
    var states := IndexSnapshot(x, y);
    TracedNone(x, y, []);
    return Some(Progress(states, y.state, Outcome([], []), false, None, false));
  }

  /** Dispatches a reserved operation. */
  method DispatchReserved(s: Sorts, u: OutcomeSorts, parent: Request, x: Setting, w: World, r: Reservation)
    returns (v: Verdict)
    requires TokensAreNulFree(x.k) && AreSorts(s) && AreOutcomeSorts(u) && SettingOK(x)
    requires OperationAccepted(x.k, s, parent, x.o) && w.acts == [] && w.env == x.env && ReservationOK(x.k, x.o, r)
    modifies w`acts
    ensures Orderly(x, w.acts) && (v.Done? ==> ExactOutcome(x.k, parent, v.outcome))
    ensures v.Done? ==> Yields(x, FirstOf(x.o, r), w.acts, u, v.outcome)
    ensures v.Done? ==> if w.acts == [] then CompletedBefore(r) else Concluded(x, FirstOf(x.o, r), w.acts)
    ensures v.Done? ==> NoneFailed(w.acts)
    ensures (w.acts != [] ==> MayRun(x, r)) && (CompletedBefore(r) ==> v.Done?)
    ensures !v.Done? ==> StopsRightly(x, FirstOf(x.o, r), w.acts, v)
    ensures Resumable(x, r) && Faithful(x, FirstOf(x.o, r)) ==> !v.Stopped?
  {
    match r.disposition {
      case InProgress | Conflict => return Stopped;
      case Replay =>
        if r.snapshot.value.state != OperationState.Completed { return Stopped; }
        var outcome := ReplayPrepared(x, r.snapshot.value);
        if outcome == None { return Stopped; }
        GatheredAnswersParent(s, u, parent, x, outcome.value);
        return Done(SortOutcome(u, outcome.value));
      case _ =>
    }
    ghost var first := FirstOf(x.o, r);
    var start := Resumed(x, r);
    if start == None { return Stopped; }
    ghost var faithful := Resumable(x, r) && Faithful(x, first);
    var g, stop := DispatchChildren(w, x, start.value, first, faithful);
    if stop.Some? { return stop.value; }
    v := Conclude(w, x, u, g, first);
    if v.Done? { GatheredAnswersParent(s, u, parent, x, g.outcome); }
  }

  /** The reservation replays a completed operation. */
  predicate CompletedBefore(r: Reservation) {
    r.disposition == Replay && r.snapshot.Some? && r.snapshot.value.state == OperationState.Completed
  }

  lemma AcceptedSetting(s: Sorts, t: StepSorts, parent: Request, x: Setting)
    requires AreStepSorts(t) && OperationAccepted(x.k, s, parent, x.o) && x.o.steps == t.steps(x.steps)
    requires x.steps == Map((c: Child) => StepFor(t, c), x.children)
    ensures SettingOK(x)
  {
    AcceptedIdsSorted(x.o);
    forall i | 0 <= i < |x.o.steps| ensures x.o.steps[i].id == x.o.steps[i].requestDigest {
      assert StepFits(x.k, parent, x.o.steps[i]);
    }
  }

  /** The journal grants the operation and is faithful from then on, and executors deliver proof or an error. */
  ghost predicate IsServed(x: Setting) {
    var r := x.env.reserve(x.o);
    r.Some? && Resumable(x, r.value) && Faithful(x, FirstOf(x.o, r.value))
  }

  /** The journal granted the operation under the fence of the dispatch, with nothing running. */
  ghost predicate IsGranted(x: Setting) {
    var r := x.env.reserve(x.o);
    r.Some? && ReservationOK(x.k, x.o, r.value) && r.value.fence == x.fence && MayRun(x, r.value)
  }

  /** What the journal held when it reserved the operation. */
  function ReservedFirst(x: Setting): Snapshot {
    var r := x.env.reserve(x.o);
    if r.Some? then FirstOf(x.o, r.value) else InitialSnapshot(x.o)
  }

  const NO_OPERATION := Operation("", "", "", "", "", "", "", "", ExecutorIdentity("", "", ""), [])

  /**
   * Whatever the journal answers and the executors return, every act is permitted. An outcome is returned only
   * if it consists of the delivered and journaled results of the children, passes the exact check of the parent
   * and the journal showed the operation completed.
   */
  method ExecutePrepared(k: Rules, s: Sorts, t: StepSorts, u: OutcomeSorts, parent: Request, children: seq<Child>,
                         w: World)
    returns (v: Verdict, ghost x: Setting)
    requires TokensAreNulFree(k) && AreSorts(s) && AreStepSorts(t) && AreOutcomeSorts(u) && w.acts == []
    modifies w`acts
    ensures Orderly(x, w.acts)
    ensures w.acts != [] || v.Done? ==>
      x.k == k && x.children == children && x.env == w.env && SettingOK(x) && OperationAccepted(k, s, parent, x.o)
    ensures w.acts != [] ==> IsGranted(x)
    ensures v.Done? ==> ExactOutcome(k, parent, v.outcome)
    ensures v.Done? && w.acts != [] ==> Concluded(x, ReservedFirst(x), w.acts)
    ensures v.Done? && w.acts == [] ==> w.env.reserve(x.o).Some? && CompletedBefore(w.env.reserve(x.o).value)
    ensures v.Done? ==> NoneFailed(w.acts) && Yields(x, ReservedFirst(x), w.acts, u, v.outcome)
    ensures v.Reconcile? ==> StopsRightly(x, ReservedFirst(x), w.acts, v)
    ensures x.steps != [] && IsServed(x) ==> !v.Stopped?
  {
    x := Setting(k, NO_OPERATION, "", children, [], w.env);
    if |children| == 0 { return Stopped, x; }
    var steps := BuildSteps(k, s, t, children);
    if steps == None { return Stopped, x; }
    var o := NewOperation(k, s, t, parent, steps.value);
    if o == None { return Stopped, x; }
    var r := w.env.reserve(o.value);
    if r == None { return Stopped, x; }
    var setting := Setting(k, o.value, r.value.fence, children, steps.value, w.env);
    AcceptedSetting(s, t, parent, setting);
    x := setting;
    var sound := ValidateReservation(k, o.value, r.value);
    if !sound { return Stopped, x; }
    v := DispatchReserved(s, u, parent, setting, w, r.value);
  }
}
