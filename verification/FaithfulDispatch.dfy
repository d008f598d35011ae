/** A journal that keeps the rules, and executors that deliver proof or an error: how such a dispatch proceeds. */
module FaithfulDispatch {
  import opened Wrappers
  import opened Ordering
  import opened Searching
  import opened ExecutionModel
  import opened ApplyOperation
  import opened ApplyJournal
  import opened ApplyRuns
  import opened JournalAnswers
  import opened DispatchProtocol

  /** What the journal holds after these acts, if it has taken every event. */
  function Snap(x: Setting, first: Snapshot, p: seq<Act>): Snapshot {
    if p == [] then first else Advance(x.o, Snap(x, first, p[..|p| - 1]), Latest(p))
  }

  function Advance(o: Operation, y: Snapshot, a: Act): Snapshot {
    match a
    case Asked(Commit(c)) => if Sought(o, c) < |y.steps| then Committed(y, Sought(o, c), c) else y
    case Asked(Finish(f)) => y.(state := f.state)
    case _ => y
  }

  lemma SnapNext(x: Setting, first: Snapshot, p: seq<Act>, a: Act)
    ensures Snap(x, first, p + [a]) == Advance(x.o, Snap(x, first, p), a)
  {
    assert (p + [a])[..|p|] == p;
  }

  /** The event asked for last would be accepted by the journal contract. */
  ghost predicate Acceptable(x: Setting, first: Snapshot, p: seq<Act>) {
    && p != [] && Latest(p).Asked?
    && Accepts(x.k, x.o, x.fence, Snap(x, first, p[..|p| - 1]), Latest(p).e, Snap(x, first, p))
  }

  /** What a delivered result of the last act is worth. */
  ghost predicate DeliversProof(x: Setting, p: seq<Act>) {
    p != [] && IsAttempt(Latest(p)) && Latest(p).child < |x.steps| && Came(x.env, p).Delivered? ==>
      Proves(x.k, x.steps[Latest(p).child], Came(x.env, p).result)
  }

  /** The journal takes every event the contract accepts and answers with what it then holds. */
  ghost predicate Faithful(x: Setting, first: Snapshot) {
    && (forall p :: Acceptable(x, first, p) ==> x.env.answer(p) == Some(Snap(x, first, p)))
    && (forall p :: DeliversProof(x, p))
  }

  // ---- Children and positions ----

  /** Where the step of a child stands in the operation. */
  function PosOf(x: Setting, i: nat): nat
    requires i < |x.steps|
  {
    Search(Map(StepId, x.o.steps), x.steps[i].id)
  }

  lemma ChildStands(x: Setting, i: nat)
    requires SettingOK(x) && i < |x.steps|
    ensures PosOf(x, i) < |x.o.steps| && x.o.steps[PosOf(x, i)] == x.steps[i]
  {
    assert x.steps[i] in multiset(x.o.steps);
    var j :| 0 <= j < |x.o.steps| && x.o.steps[j] == x.steps[i];
    SearchFinds(Map(StepId, x.o.steps), x.steps[i].id, j);
  }

  lemma EveryStepHasChild(x: Setting, n: nat) returns (i: nat)
    requires SettingOK(x) && n < |x.o.steps|
    ensures i < |x.steps| && PosOf(x, i) == n
  {
    assert x.o.steps[n] in multiset(x.steps);
    i :| 0 <= i < |x.steps| && x.steps[i] == x.o.steps[n];
    SearchFinds(Map(StepId, x.o.steps), x.steps[i].id, n);
  }

  lemma OperationStepsDiffer(x: Setting)
    requires SettingOK(x)
    ensures Distinct(x.o.steps)
  {
    var ids := Map(StepId, x.o.steps);
    forall i, j | 0 <= i < j < |x.o.steps| ensures x.o.steps[i] != x.o.steps[j] {
      assert Less(ids[i], ids[j]);
      LessIrreflexive(ids[i]);
    }
  }

  lemma ChildrenDiffer(x: Setting, i: nat, j: nat)
    requires SettingOK(x) && i < |x.steps| && j < |x.steps| && i != j
    ensures PosOf(x, i) != PosOf(x, j)
  {
    ChildStands(x, i);
    ChildStands(x, j);
    OperationStepsDiffer(x);
    DistinctPermutation(x.o.steps, x.steps);
  }

  // ---- What the journal holds between and during children ----

  /** The step of the child succeeded, or failed in a dispatch that has seen failures. */
  predicate ChildDone(x: Setting, y: Snapshot, j: nat, failed: bool)
    requires j < |x.steps|
  {
    PosOf(x, j) < |y.steps| &&
      (y.steps[PosOf(x, j)].state == Succeeded || (failed && y.steps[PosOf(x, j)].state == Failed))
  }

  ghost predicate DoneBefore(x: Setting, y: Snapshot, i: nat, failed: bool)
    requires i <= |x.steps|
  {
    forall j :: 0 <= j < i ==> ChildDone(x, y, j, failed)
  }

  /** A child attempted before `i` has failed. */
  ghost predicate FailedBefore(x: Setting, y: Snapshot, i: nat)
    requires i <= |x.steps|
  {
    exists j :: 0 <= j < i && StepFailed(x, y, j)
  }

  predicate StepFailed(x: Setting, y: Snapshot, j: nat)
    requires j < |x.steps|
  {
    PosOf(x, j) < |y.steps| && y.steps[PosOf(x, j)].state == Failed
  }

  /** No step but the one at `n` is running. */
  predicate OnlyRunning(y: Snapshot, n: int) {
    forall j :: 0 <= j < |y.steps| && y.steps[j].state == Running ==> j == n
  }

  /** A snapshot the dispatcher works on, with children before `i` done. */
  ghost predicate InHand(x: Setting, y: Snapshot, i: nat, failed: bool)
    requires i <= |x.steps|
  {
    Ready(x.k, x.o, x.fence, y) && DoneBefore(x, y, i, failed) && (failed ==> Derived(y) && FailedBefore(x, y, i))
  }

  /** Child `i` is next; its step is in state `state`. */
  ghost predicate Awaiting(x: Setting, y: Snapshot, i: nat, failed: bool, state: StepState)
    requires i < |x.steps|
  {
    && InHand(x, y, i, failed) && OnlyRunning(y, -1) && PosOf(x, i) < |y.steps|
    && y.steps[PosOf(x, i)].state == state
  }

  /** Child `i` is being attempted. */
  ghost predicate UnderWay(x: Setting, y: Snapshot, i: nat, failed: bool)
    requires i < |x.steps|
  {
    && Ready(x.k, x.o, x.fence, y) && DoneBefore(x, y, i, failed) && (failed ==> FailedBefore(x, y, i))
    && Derived(y) && OnlyRunning(y, PosOf(x, i))
    && PosOf(x, i) < |y.steps| && y.steps[PosOf(x, i)].state == Running
  }

  lemma OthersStayDone(x: Setting, y: Snapshot, z: Snapshot, i: nat, failed: bool, failed': bool)
    requires SettingOK(x) && i < |x.steps| && DoneBefore(x, y, i, failed) && (failed ==> failed')
    requires OthersKept(y, z, PosOf(x, i))
    ensures DoneBefore(x, z, i, failed')
  {
    forall j | 0 <= j < i ensures ChildDone(x, z, j, failed') {
      assert ChildDone(x, y, j, failed);
      ChildrenDiffer(x, i, j);
    }
  }

  lemma OthersStayFailed(x: Setting, y: Snapshot, z: Snapshot, i: nat)
    requires SettingOK(x) && i < |x.steps| && FailedBefore(x, y, i) && OthersKept(y, z, PosOf(x, i))
    ensures FailedBefore(x, z, i) && FailedBefore(x, z, i + 1)
  {
    var j :| 0 <= j < i && StepFailed(x, y, j);
    ChildrenDiffer(x, i, j);
    assert StepFailed(x, z, j);
  }

  /** Starting the next child is accepted and leaves it under way. */
  lemma StartIsAccepted(x: Setting, y: Snapshot, i: nat, failed: bool, state: StepState)
    requires SettingOK(x) && i < |x.steps| && Awaiting(x, y, i, failed, state) && state in {Pending, Failed}
    ensures var c := StartFor(x, i, state);
      && Sought(x.o, c) == PosOf(x, i) < |y.steps| && CommitOK(x.k, x.o, c, PosOf(x, i))
      && Accepts(x.k, x.o, x.fence, y, Commit(c), Committed(y, PosOf(x, i), c))
      && UnderWay(x, Committed(y, PosOf(x, i), c), i, failed)
  {
    ChildStands(x, i);
    var n, c := PosOf(x, i), StartFor(x, i, state);
    assert CommitOK(x.k, x.o, c, n);
    var z := CanCommit(x.k, x.o, x.fence, y, n, c);
    OthersStayDone(x, y, z, i, failed, failed);
    if failed { OthersStayFailed(x, y, z, i); }
  }

  lemma ReportIsCommit(x: Setting, i: nat, a: Attempt)
    requires SettingOK(x) && i < |x.steps| && (a.Delivered? ==> Proves(x.k, x.steps[i], a.result))
    ensures var c := ReportFor(x, i, a); Fence(x.fence) ==> CommitOK(x.k, x.o, c, PosOf(x, i))
  {
    ChildStands(x, i);
  }

  /** Reporting the attempt is accepted and leaves the child done. */
  lemma ReportIsAccepted(x: Setting, y: Snapshot, i: nat, failed: bool, a: Attempt)
    requires SettingOK(x) && i < |x.steps| && UnderWay(x, y, i, failed)
    requires a.Delivered? ==> Proves(x.k, x.steps[i], a.result)
    ensures var c := ReportFor(x, i, a); var z := Committed(y, PosOf(x, i), c);
      && Sought(x.o, c) == PosOf(x, i) < |y.steps| && Accepts(x.k, x.o, x.fence, y, Commit(c), z)
      && InHand(x, z, i + 1, failed || a.Broke?) && OnlyRunning(z, -1)
  {
    ReportIsCommit(x, i, a);
    var n, c := PosOf(x, i), ReportFor(x, i, a);
    var z := CanCommit(x.k, x.o, x.fence, y, n, c);
    ReportLeavesDone(x, y, z, i, failed, a.Broke?);
  }

  lemma ReportLeavesDone(x: Setting, y: Snapshot, z: Snapshot, i: nat, failed: bool, broke: bool)
    requires SettingOK(x) && i < |x.steps| && DoneBefore(x, y, i, failed) && (failed ==> FailedBefore(x, y, i))
    requires OnlyRunning(y, PosOf(x, i)) && OthersKept(y, z, PosOf(x, i)) && PosOf(x, i) < |z.steps|
    requires z.steps[PosOf(x, i)].state == if broke then Failed else Succeeded
    ensures DoneBefore(x, z, i + 1, failed || broke) && OnlyRunning(z, -1)
    ensures failed || broke ==> FailedBefore(x, z, i + 1)
  {
    OthersStayDone(x, y, z, i, failed, failed || broke);
    DoneNext(x, z, i, failed || broke);
    NoneRunningLeft(y, z, PosOf(x, i));
    if failed { OthersStayFailed(x, y, z, i); }
    if broke { assert StepFailed(x, z, i); }
  }

  lemma DoneNext(x: Setting, y: Snapshot, i: nat, failed: bool)
    requires i < |x.steps| && DoneBefore(x, y, i, failed) && ChildDone(x, y, i, failed)
    ensures DoneBefore(x, y, i + 1, failed)
  {
  }

  lemma NoneRunningLeft(y: Snapshot, z: Snapshot, n: nat)
    requires OnlyRunning(y, n) && OthersKept(y, z, n) && n < |z.steps| && z.steps[n].state != Running
    ensures OnlyRunning(z, -1)
  {
  }

  lemma AllStepsDone(x: Setting, y: Snapshot, failed: bool, n: nat)
    requires SettingOK(x) && DoneBefore(x, y, |x.steps|, failed) && n < |y.steps| == |x.o.steps|
    ensures y.steps[n].state == Succeeded || (failed && y.steps[n].state == Failed)
  {
    var i := EveryStepHasChild(x, n);
    assert ChildDone(x, y, i, failed);
  }

  lemma SettledIsReconcile(y: Snapshot, n: nat)
    requires Derived(y) && n < |y.steps| && y.steps[n].state == Failed
    requires forall j :: 0 <= j < |y.steps| ==> y.steps[j].state == Succeeded || y.steps[j].state == Failed
    ensures y.state == ReconcileRequired
  {
  }

  /** When every child is done, the operation is either all succeeded or settled with a failure. */
  lemma AllDoneMeans(x: Setting, y: Snapshot, failed: bool)
    requires SettingOK(x) && InHand(x, y, |x.steps|, failed)
    ensures !failed ==> forall n :: 0 <= n < |y.steps| ==> y.steps[n].state == Succeeded
    ensures failed ==> y.state == ReconcileRequired
  {
    forall n | 0 <= n < |y.steps|
      ensures y.steps[n].state == Succeeded || (failed && y.steps[n].state == Failed)
    {
      AllStepsDone(x, y, failed, n);
    }
    if failed {
      var j :| 0 <= j < |x.steps| && StepFailed(x, y, j);
      SettledIsReconcile(y, PosOf(x, j));
    }
  }

  // ---- A faithful journal is believed ----

  /** A commit the faithful journal will take, by a dispatcher whose index is up to date. */
  ghost predicate Trusted(x: Setting, first: Snapshot, p: seq<Act>, states: Index, c: StepCommit) {
    var y := Snap(x, first, p);
    && Faithful(x, first) && SnapshotOK(x.k, x.o, y) && Indexes(states, y.steps)
    && Accepts(x.k, x.o, x.fence, y, Commit(c), Advance(x.o, y, Asked(Commit(c))))
  }

  lemma AcceptedIsAnswer(x: Setting, y: Snapshot, z: Snapshot, states: Index, c: StepCommit)
    requires SettingOK(x) && SnapshotOK(x.k, x.o, y) && Indexes(states, y.steps)
    requires Accepts(x.k, x.o, x.fence, y, Commit(c), z)
    ensures CommitOK(x.k, x.o, c, Sought(x.o, c)) && AnswerOK(x.k, x.o, z, states, c)
  {
    NamedIsFound(x.o, c);
    var i :| CommitOK(x.k, x.o, c, i);
    HonestAnswerPasses(x.k, x.o, x.fence, y, z, states, c, i);
  }

  lemma FaithfulAnswers(x: Setting, first: Snapshot, p: seq<Act>, e: Event)
    requires Faithful(x, first)
    requires Accepts(x.k, x.o, x.fence, Snap(x, first, p), e, Advance(x.o, Snap(x, first, p), Asked(e)))
    ensures x.env.answer(p + [Asked(e)]) == Some(Snap(x, first, p + [Asked(e)]))
  {
    var q := p + [Asked(e)];
    SnapNext(x, first, p, Asked(e));
    assert q[..|q| - 1] == p;
    assert Acceptable(x, first, q);
  }

  lemma TrustedIsBelieved(x: Setting, first: Snapshot, p: seq<Act>, states: Index, c: StepCommit)
    requires SettingOK(x) && Trusted(x, first, p, states, c)
    ensures var q := p + [Asked(Commit(c))];
      && CommitOK(x.k, x.o, c, Sought(x.o, c)) && x.env.answer(q) == Some(Snap(x, first, q))
      && AnswerOK(x.k, x.o, Snap(x, first, q), states, c)
  {
    SnapNext(x, first, p, Asked(Commit(c)));
    FaithfulAnswers(x, first, p, Commit(c));
    AcceptedIsAnswer(x, Snap(x, first, p), Snap(x, first, p + [Asked(Commit(c))]), states, c);
  }

  lemma SnapAfterCommit(x: Setting, first: Snapshot, p: seq<Act>, c: StepCommit)
    requires Sought(x.o, c) < |Snap(x, first, p).steps|
    ensures Snap(x, first, p + [Asked(Commit(c))]) == Committed(Snap(x, first, p), Sought(x.o, c), c)
    ensures Advance(x.o, Snap(x, first, p), Asked(Commit(c))) == Snap(x, first, p + [Asked(Commit(c))])
  {
    SnapNext(x, first, p, Asked(Commit(c)));
  }

  lemma StartIsTrusted(x: Setting, first: Snapshot, p: seq<Act>, states: Index, i: nat, failed: bool, state: StepState)
    requires SettingOK(x) && Faithful(x, first) && i < |x.steps| && state in {Pending, Failed}
    requires Awaiting(x, Snap(x, first, p), i, failed, state) && Indexes(states, Snap(x, first, p).steps)
    ensures Trusted(x, first, p, states, StartFor(x, i, state))
  {
    StartIsAccepted(x, Snap(x, first, p), i, failed, state);
    SnapAfterCommit(x, first, p, StartFor(x, i, state));
  }

  lemma StartPutsUnderWay(x: Setting, first: Snapshot, p: seq<Act>, i: nat, failed: bool, state: StepState)
    requires SettingOK(x) && i < |x.steps| && state in {Pending, Failed}
    requires Awaiting(x, Snap(x, first, p), i, failed, state)
    ensures UnderWay(x, Snap(x, first, p + [Asked(Commit(StartFor(x, i, state)))]), i, failed)
  {
    StartIsAccepted(x, Snap(x, first, p), i, failed, state);
    SnapAfterCommit(x, first, p, StartFor(x, i, state));
  }

  lemma ReportIsTrusted(x: Setting, first: Snapshot, p: seq<Act>, states: Index, i: nat, failed: bool, a: Attempt)
    requires SettingOK(x) && Faithful(x, first) && i < |x.steps| && (a.Delivered? ==> Proves(x.k, x.steps[i], a.result))
    requires UnderWay(x, Snap(x, first, p), i, failed) && Indexes(states, Snap(x, first, p).steps)
    ensures var c := ReportFor(x, i, a); var z := Snap(x, first, p + [Asked(Commit(c))]);
      Trusted(x, first, p, states, c) && InHand(x, z, i + 1, failed || a.Broke?) && OnlyRunning(z, -1)
  {
    ReportIsAccepted(x, Snap(x, first, p), i, failed, a);
    SnapAfterCommit(x, first, p, ReportFor(x, i, a));
  }

  lemma AttemptKeepsSnap(x: Setting, first: Snapshot, p: seq<Act>, a: Act)
    requires IsAttempt(a)
    ensures Snap(x, first, p + [a]) == Snap(x, first, p)
  {
    SnapNext(x, first, p, a);
  }

  lemma SucceededStaysInHand(x: Setting, y: Snapshot, i: nat, failed: bool)
    requires SettingOK(x) && i < |x.steps| && InHand(x, y, i, failed) && PosOf(x, i) < |y.steps|
    requires y.steps[PosOf(x, i)].state == Succeeded
    ensures InHand(x, y, i + 1, failed)
  {
    DoneNext(x, y, i, failed);
    if failed { var j :| 0 <= j < i && StepFailed(x, y, j); }
  }

  /** The one finalisation a dispatch without failures asks for is accepted. */
  lemma CompletionIsBelieved(x: Setting, first: Snapshot, p: seq<Act>, f: Finalization)
    requires SettingOK(x) && Faithful(x, first) && InHand(x, Snap(x, first, p), |x.steps|, false)
    requires f == Finalization(x.o.operationId, x.fence, Snap(x, first, p).state, OperationState.Completed)
    ensures var y, q := Snap(x, first, p), p + [Asked(Finish(f))];
      && FinalizationOK(x.o, f) && x.env.answer(q) == Some(y.(state := OperationState.Completed))
      && SnapshotOK(x.k, x.o, y.(state := OperationState.Completed))
  {
    var y := Snap(x, first, p);
    AllDoneMeans(x, y, false);
    SnapNext(x, first, p, Asked(Finish(f)));
    assert Accepts(x.k, x.o, x.fence, y, Finish(f), y.(state := OperationState.Completed));
    FaithfulAnswers(x, first, p, Finish(f));
  }

  lemma IndexSize(states: Index, steps: seq<StepSnapshot>)
    requires Indexes(states, steps) && Distinct(Map(DigestOf, steps))
    ensures |states| == |steps|
  {
    var digests := Map(DigestOf, steps);
    DistinctSize(digests);
    forall d ensures d in states.Keys <==> d in digests {
      if d in states { var i :| 0 <= i < |steps| && steps[i].requestDigest == d; assert digests[i] == d; }
    }
    assert states.Keys == set d | d in digests;
  }

  /** Where a resumable reservation starts. */
  function FirstOf(o: Operation, r: Reservation): Snapshot {
    if r.snapshot.Some? then r.snapshot.value else InitialSnapshot(o)
  }

  /** A new operation, or one taken over with no step running or compensated. */
  ghost predicate Resumable(x: Setting, r: Reservation) {
    && ReservationOK(x.k, x.o, r) && r.fence == x.fence && r.disposition in {Acquired, Resume}
    && OnlyRunning(FirstOf(x.o, r), -1) && !Holds(FirstOf(x.o, r).steps, Compensated)
  }

  lemma InitialIsFine(k: Rules, o: Operation)
    ensures SnapshotOK(k, o, InitialSnapshot(o)) && OnlyRunning(InitialSnapshot(o), -1)
    ensures !Holds(InitialSnapshot(o).steps, Compensated)
  {
  }

  lemma ResumableIsInHand(x: Setting, r: Reservation)
    requires Resumable(x, r)
    ensures InHand(x, FirstOf(x.o, r), 0, false)
  {
    InitialIsFine(x.k, x.o);
  }

  // ---- There is such an outside ----

  lemma {:induction false} SnapIgnoresEnv(x: Setting, env: Env, first: Snapshot, p: seq<Act>)
    ensures Snap(x.(env := env), first, p) == Snap(x, first, p)
  {
    if p != [] { SnapIgnoresEnv(x, env, first, p[..|p| - 1]); }
  }

  /** A journal that holds what it takes, and executors that deliver these results. */
  function Diligent(x: Setting, first: Snapshot, results: seq<Result>): Env {
    Env(x.env.reserve, (p: seq<Act>) => Some(Snap(x, first, p)),
      (p: seq<Act>) => if p != [] && IsAttempt(Latest(p)) && Latest(p).child < |results|
                       then Delivered(results[Latest(p).child]) else Broke(OtherFault, false))
  }

  lemma DiligentIsFaithful(x: Setting, first: Snapshot, results: seq<Result>)
    requires |results| == |x.steps| && forall i :: 0 <= i < |x.steps| ==> Proves(x.k, x.steps[i], results[i])
    ensures Faithful(x.(env := Diligent(x, first, results)), first)
  {
    var z := x.(env := Diligent(x, first, results));
    forall p | Acceptable(z, first, p) ensures z.env.answer(p) == Some(Snap(z, first, p)) {
      SnapIgnoresEnv(x, z.env, first, p);
    }
    forall p ensures DeliversProof(z, p) {}
  }
}
