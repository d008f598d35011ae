/** The events a journal accepts, and what holds over whole runs of them. */
module ApplyRuns {
  import opened Wrappers
  import opened Ordering
  import opened ExecutionModel
  import opened ApplyOperation
  import opened ApplyJournal

  datatype Event = Commit(c: StepCommit) | Finish(f: Finalization)

  predicate Open(state: OperationState) { state == Active || state == ReconcileRequired }

  function Recorded(c: StepCommit): StepSnapshot {
    StepSnapshot(c.stepId, c.requestDigest, c.state, c.result, c.failure, c.receipt)
  }

  /** A commit records its step; the operation state is derived from the steps, never chosen. */
  function Committed(x: Snapshot, i: nat, c: StepCommit): Snapshot
    requires i < |x.steps|
  {
    var steps := x.steps[i := Recorded(c)];
    x.(state := StateFor(steps), steps := steps)
  }

  /** An accepted event takes snapshot `x` to snapshot `y`; both bind the operation and `y` validates. */
  ghost predicate Accepts(k: Rules, o: Operation, fence: string, x: Snapshot, e: Event, y: Snapshot) {
    && SnapshotOK(k, o, y) && |x.steps| == |o.steps|
    && match e
       case Commit(c) =>
         c.fence == fence && Open(x.state)
         && exists i :: CommitOK(k, o, c, i) && x.steps[i].state == c.expected && y == Committed(x, i, c)
       case Finish(f) => FinalizationOK(o, f) && f.fence == fence && x.state == f.expected && y == x.(state := f.state)
  }

  /** What a journal holds before any commit: every step pending. */
  function InitialSnapshot(o: Operation): Snapshot {
    Snapshot(o.operationId, Active,
      Map((s: Step) => StepSnapshot(s.id, s.requestDigest, Pending, None, "", ""), o.steps))
  }

  /** One accepted event; the fence may change between events, as it does when another owner resumes. */
  ghost predicate Moves(k: Rules, o: Operation, x: Snapshot, e: Event, y: Snapshot) {
    exists fence :: Accepts(k, o, fence, x, e, y)
  }

  ghost predicate Runs(k: Rules, o: Operation, trace: seq<Snapshot>, events: seq<Event>) {
    |trace| == |events| + 1 && forall i :: 0 <= i < |events| ==> Moves(k, o, trace[i], events[i], trace[i + 1])
  }

  function Last(trace: seq<Snapshot>): Snapshot
    requires |trace| > 0
  {
    trace[|trace| - 1]
  }

  lemma RunsPrepend(k: Rules, o: Operation, fence: string, x: Snapshot, e: Event, trace: seq<Snapshot>,
                    events: seq<Event>)
    requires Runs(k, o, trace, events) && Accepts(k, o, fence, x, e, trace[0])
    ensures Runs(k, o, [x] + trace, [e] + events) && Last([x] + trace) == Last(trace)
  {
    var t, es := [x] + trace, [e] + events;
    forall i | 0 <= i < |es| ensures Moves(k, o, t[i], es[i], t[i + 1]) {
      if i > 0 { assert es[i] == events[i - 1] && t[i] == trace[i - 1] && t[i + 1] == trace[i]; }
    }
  }

  // ---- No dead ends before compensation ----

  function StartOf(o: Operation, fence: string, x: Snapshot, i: nat): StepCommit
    requires i < |x.steps| && i < |o.steps|
  {
    StepCommit(o.operationId, fence, o.steps[i].id, o.steps[i].requestDigest, x.steps[i].state, Running, None, "", "")
  }

  function SuccessOf(o: Operation, fence: string, i: nat, result: Result): StepCommit
    requires i < |o.steps|
  {
    StepCommit(o.operationId, fence, o.steps[i].id, o.steps[i].requestDigest, Running, Succeeded, Some(result), "", "")
  }

  function FailureOf(o: Operation, fence: string, i: nat): StepCommit
    requires i < |o.steps|
  {
    StepCommit(o.operationId, fence, o.steps[i].id, o.steps[i].requestDigest, Running, Failed, None, "executor-failed",
      "")
  }

  /** The operation state is the one its steps call for. */
  ghost predicate Derived(x: Snapshot) { x.state == StateFor(x.steps) }

  ghost predicate Ready(k: Rules, o: Operation, fence: string, x: Snapshot) {
    SnapshotOK(k, o, x) && Open(x.state) && !Holds(x.steps, Compensated) && Fence(fence)
  }

  ghost predicate OthersKept(x: Snapshot, y: Snapshot, i: nat) {
    |y.steps| == |x.steps| && forall j :: 0 <= j < |x.steps| && j != i ==> y.steps[j] == x.steps[j]
  }

  lemma CommitKeepsOthers(x: Snapshot, i: nat, c: StepCommit)
    requires i < |x.steps| && c.state != Compensated && !Holds(x.steps, Compensated)
    ensures !Holds(Committed(x, i, c).steps, Compensated)
  {
  }

  /** A legal commit is accepted, unless it compensates a step while others are pending or running
      or none has failed. */
  lemma CommittedIsOK(k: Rules, o: Operation, fence: string, x: Snapshot, i: nat, c: StepCommit)
    requires SnapshotOK(k, o, x) && CommitOK(k, o, c, i) && c.fence == fence && x.steps[i].state == c.expected
    requires Open(x.state)
    requires var y := Committed(x, i, c); Holds(y.steps, Compensated) ==> y.state == ReconcileRequired
    ensures SnapshotOK(k, o, Committed(x, i, c)) && Accepts(k, o, fence, x, Commit(c), Committed(x, i, c))
  {
    var y := Committed(x, i, c);
    forall j | 0 <= j < |y.steps| ensures StepSnapshotOK(k, o.steps[j], y.steps[j]) {
      if j != i { assert StepSnapshotOK(k, o.steps[j], x.steps[j]); }
    }
  }

  /** A commit other than a compensation is accepted before any compensation. */
  lemma CanCommit(k: Rules, o: Operation, fence: string, x: Snapshot, i: nat, c: StepCommit) returns (y: Snapshot)
    requires Ready(k, o, fence, x) && CommitOK(k, o, c, i) && c.fence == fence && x.steps[i].state == c.expected
    requires c.state != Compensated
    ensures y == Committed(x, i, c) && Accepts(k, o, fence, x, Commit(c), y) && Ready(k, o, fence, y) && Derived(y)
    ensures y.steps[i].state == c.state && OthersKept(x, y, i)
  {
    y := Committed(x, i, c);
    CommitKeepsOthers(x, i, c);
    CommittedIsOK(k, o, fence, x, i, c);
  }

  /** A pending or failed step can always be started. */
  lemma CanStart(k: Rules, o: Operation, fence: string, x: Snapshot, i: nat) returns (y: Snapshot)
    requires Ready(k, o, fence, x) && i < |o.steps| && x.steps[i].state in {Pending, Failed}
    ensures Accepts(k, o, fence, x, Commit(StartOf(o, fence, x, i)), y)
    ensures Ready(k, o, fence, y) && Derived(y) && y.steps[i].state == Running && OthersKept(x, y, i)
  {
    var c := StartOf(o, fence, x, i);
    assert CommitOK(k, o, c, i);
    y := CanCommit(k, o, fence, x, i, c);
  }

  /** A running step with a verifiable result can always succeed. */
  lemma CanSucceed(k: Rules, o: Operation, fence: string, x: Snapshot, i: nat, result: Result) returns (y: Snapshot)
    requires Ready(k, o, fence, x) && i < |o.steps| && x.steps[i].state == Running && Proves(k, o.steps[i], result)
    ensures Accepts(k, o, fence, x, Commit(SuccessOf(o, fence, i, result)), y)
    ensures Ready(k, o, fence, y) && Derived(y) && y.steps[i].state == Succeeded && OthersKept(x, y, i)
  {
    var c := SuccessOf(o, fence, i, result);
    assert CommitOK(k, o, c, i);
    y := CanCommit(k, o, fence, x, i, c);
  }

  /** A running step can always fail. */
  lemma CanFail(k: Rules, o: Operation, fence: string, x: Snapshot, i: nat) returns (y: Snapshot)
    requires Ready(k, o, fence, x) && i < |o.steps| && x.steps[i].state == Running
    ensures Accepts(k, o, fence, x, Commit(FailureOf(o, fence, i)), y)
    ensures Ready(k, o, fence, y) && Derived(y) && y.steps[i].state == Failed && OthersKept(x, y, i)
  {
    var c := FailureOf(o, fence, i);
    assert CommitOK(k, o, c, i);
    y := CanCommit(k, o, fence, x, i, c);
  }

  /** A run of at most `n` events completes the operation. */
  ghost predicate Finishes(k: Rules, o: Operation, x: Snapshot, trace: seq<Snapshot>, events: seq<Event>, n: int) {
    Runs(k, o, trace, events) && trace[0] == x && Last(trace).state == OperationState.Completed && |events| <= n
  }

  lemma FinishesLater(k: Rules, o: Operation, fence: string, x: Snapshot, e: Event, trace: seq<Snapshot>,
                      events: seq<Event>, n: int)
    requires |trace| > 0 && Accepts(k, o, fence, x, e, trace[0]) && Finishes(k, o, trace[0], trace, events, n)
    ensures Finishes(k, o, x, [x] + trace, [e] + events, n + 1)
  {
    RunsPrepend(k, o, fence, x, e, trace, events);
  }

  /** When every step has succeeded, one finalisation completes the operation. */
  lemma CanComplete(k: Rules, o: Operation, fence: string, x: Snapshot)
    returns (trace: seq<Snapshot>, events: seq<Event>)
    requires Ready(k, o, fence, x) && SucceededUpTo(x, |o.steps|)
    ensures Finishes(k, o, x, trace, events, 1)
  {
    var f := Finalization(o.operationId, fence, x.state, OperationState.Completed);
    trace, events := [x, x.(state := OperationState.Completed)], [Finish(f)];
    assert Accepts(k, o, fence, x, Finish(f), trace[1]);
  }

  ghost predicate SucceededUpTo(x: Snapshot, n: nat) {
    forall j :: 0 <= j < n && j < |x.steps| ==> x.steps[j].state == Succeeded
  }

  /** A verifiable result for every step. */
  ghost predicate AllProvable(k: Rules, o: Operation, results: seq<Result>) {
    |results| == |o.steps| && forall j :: 0 <= j < |o.steps| ==> Proves(k, o.steps[j], results[j])
  }

  lemma SucceededNext(x: Snapshot, y: Snapshot, i: nat)
    requires SucceededUpTo(x, i) && i < |y.steps| == |x.steps| && y.steps[i].state == Succeeded
    requires forall j :: 0 <= j < i ==> y.steps[j] == x.steps[j]
    ensures SucceededUpTo(y, i + 1)
  {
  }

  lemma FinishesSooner(k: Rules, o: Operation, x: Snapshot, trace: seq<Snapshot>, events: seq<Event>, m: int, n: int)
    requires Finishes(k, o, x, trace, events, m) && m <= n
    ensures Finishes(k, o, x, trace, events, n)
  {
  }

  /** From step `i` on, with everything before it done: at most two commits a step, then one finalisation. */
  lemma DriveFrom(k: Rules, o: Operation, fence: string, x: Snapshot, results: seq<Result>, i: nat)
    returns (trace: seq<Snapshot>, events: seq<Event>)
    requires Ready(k, o, fence, x) && i <= |o.steps| && AllProvable(k, o, results) && SucceededUpTo(x, i)
    ensures Finishes(k, o, x, trace, events, 2 * (|o.steps| - i) + 1)
    decreases |o.steps| - i, 2
  {
    if i == |o.steps| {
      trace, events := CanComplete(k, o, fence, x);
    } else if x.steps[i].state == Succeeded {
      SucceededNext(x, x, i);
      trace, events := DriveFrom(k, o, fence, x, results, i + 1);
      FinishesSooner(k, o, x, trace, events, 2 * (|o.steps| - i) - 1, 2 * (|o.steps| - i) + 1);
    } else {
      trace, events := DriveStep(k, o, fence, x, results, i);
    }
  }

  lemma DriveStep(k: Rules, o: Operation, fence: string, x: Snapshot, results: seq<Result>, i: nat)
    returns (trace: seq<Snapshot>, events: seq<Event>)
    requires Ready(k, o, fence, x) && i < |o.steps| && AllProvable(k, o, results) && SucceededUpTo(x, i)
    requires x.steps[i].state != Succeeded
    ensures Finishes(k, o, x, trace, events, 2 * (|o.steps| - i) + 1)
    decreases |o.steps| - i, 1
  {
    if x.steps[i].state == Running {
      trace, events := DriveRunning(k, o, fence, x, results, i);
    } else {
      var running := CanStart(k, o, fence, x, i);
      var t, es := DriveRunning(k, o, fence, running, results, i);
      var e := Commit(StartOf(o, fence, x, i));
      FinishesLater(k, o, fence, x, e, t, es, 2 * (|o.steps| - i));
      trace, events := [x] + t, [e] + es;
    }
  }

  lemma DriveRunning(k: Rules, o: Operation, fence: string, x: Snapshot, results: seq<Result>, i: nat)
    returns (trace: seq<Snapshot>, events: seq<Event>)
    requires Ready(k, o, fence, x) && i < |o.steps| && AllProvable(k, o, results) && SucceededUpTo(x, i)
    requires x.steps[i].state == Running
    ensures Finishes(k, o, x, trace, events, 2 * (|o.steps| - i))
    decreases |o.steps| - i, 0
  {
    var e := Commit(SuccessOf(o, fence, i, results[i]));
    var y := CanSucceed(k, o, fence, x, i, results[i]);
    SucceededNext(x, y, i);
    var t, es := DriveFrom(k, o, fence, y, results, i + 1);
    FinishesLater(k, o, fence, x, e, t, es, 2 * (|o.steps| - i) - 1);
    trace, events := [x] + t, [e] + es;
  }

  /** No dead ends before compensation: completion is at most 2n commits and one finalisation away. */
  lemma NoDeadEndBeforeCompensation(k: Rules, o: Operation, fence: string, x: Snapshot, results: seq<Result>)
    requires SnapshotOK(k, o, x) && Open(x.state) && !Holds(x.steps, Compensated) && Fence(fence)
    requires |results| == |o.steps| && forall j :: 0 <= j < |o.steps| ==> Proves(k, o.steps[j], results[j])
    ensures exists trace, events ::
      Runs(k, o, trace, events) && trace[0] == x && Last(trace).state == OperationState.Completed
                                    && |events| <= 2 * |o.steps| + 1
  {
    var trace, events := DriveFrom(k, o, fence, x, results, 0);
    assert Runs(k, o, trace, events);
  }

  // ---- Compensation is a point of no return ----

  /** Pending and failed steps stay as they are; succeeded ones may only be compensated. */
  ghost predicate Unwinding(a: seq<StepSnapshot>, b: seq<StepSnapshot>) {
    |a| == |b| && forall i :: 0 <= i < |a| ==>
      b[i].state == a[i].state || (a[i].state == Succeeded && b[i].state == Compensated)
  }

  ghost predicate PastReturn(k: Rules, o: Operation, x: Snapshot) {
    SnapshotOK(k, o, x) && Holds(x.steps, Compensated)
  }

  lemma PastReturnStates(k: Rules, o: Operation, x: Snapshot)
    requires PastReturn(k, o, x)
    ensures x.state in {ReconcileRequired, Undone} && !Holds(x.steps, Running)
  {
    StatesPastReturn(x);
  }

  lemma StatesPastReturn(x: Snapshot)
    requires StateFits(x.state, x.steps) && Holds(x.steps, Compensated)
    ensures x.state in {ReconcileRequired, Undone} && !Holds(x.steps, Running)
    ensures x.state == Undone ==> forall i :: 0 <= i < |x.steps| ==> x.steps[i].state in {Compensated, Failed}
  {
  }

  /** One step moved along a legal transition, between open operation states. */
  ghost predicate OneStep(x: Snapshot, y: Snapshot, i: int) {
    && 0 <= i < |x.steps| == |y.steps| && Open(x.state) && Open(y.state)
    && StepTransition(x.steps[i].state, y.steps[i].state)
    && forall j :: 0 <= j < |x.steps| && j != i ==> y.steps[j] == x.steps[j]
  }

  lemma MoveShape(k: Rules, o: Operation, x: Snapshot, e: Event, y: Snapshot)
    requires Moves(k, o, x, e, y)
    ensures SnapshotOK(k, o, y) && StateFits(y.state, y.steps) && (y.steps == x.steps || exists i :: OneStep(x, y, i))
  {
    var fence :| Accepts(k, o, fence, x, e, y);
    if e.Commit? {
      var i :| CommitOK(k, o, e.c, i) && x.steps[i].state == e.c.expected && y == Committed(x, i, e.c);
      assert OneStep(x, y, i);
    }
  }

  lemma StepPastReturn(x: Snapshot, y: Snapshot, i: int)
    requires StateFits(x.state, x.steps) && Holds(x.steps, Compensated) && StateFits(y.state, y.steps)
    requires OneStep(x, y, i)
    ensures Holds(y.steps, Compensated) && Unwinding(x.steps, y.steps)
  {
    StatesPastReturn(x);
    var m :| 0 <= m < |x.steps| && x.steps[m].state == Compensated;
    assert y.steps[m].state == Compensated;
    StatesPastReturn(y);
    assert y.steps[i].state != Running;
  }

  lemma StaysPastReturn(k: Rules, o: Operation, x: Snapshot, e: Event, y: Snapshot)
    requires PastReturn(k, o, x) && Moves(k, o, x, e, y)
    ensures PastReturn(k, o, y) && Unwinding(x.steps, y.steps)
  {
    MoveShape(k, o, x, e, y);
    if i :| OneStep(x, y, i) { StepPastReturn(x, y, i); }
  }

  lemma RunsPrefix(k: Rules, o: Operation, trace: seq<Snapshot>, events: seq<Event>)
    requires Runs(k, o, trace, events) && |events| > 0
    ensures var n := |events| - 1;
      Runs(k, o, trace[..n + 1], events[..n]) && Moves(k, o, trace[n], events[n], trace[n + 1])
  {
    var n := |events| - 1;
    forall i | 0 <= i < n ensures Moves(k, o, trace[..n + 1][i], events[..n][i], trace[..n + 1][i + 1]) {
      assert Moves(k, o, trace[i], events[i], trace[i + 1]);
    }
  }

  lemma UnwindingOn(a: seq<StepSnapshot>, b: seq<StepSnapshot>, c: seq<StepSnapshot>)
    requires Unwinding(a, b) && Unwinding(b, c)
    ensures Unwinding(a, c)
  {
  }

  lemma {:induction false} RunStaysPastReturn(k: Rules, o: Operation, trace: seq<Snapshot>, events: seq<Event>)
    requires Runs(k, o, trace, events) && PastReturn(k, o, trace[0])
    ensures PastReturn(k, o, Last(trace)) && Unwinding(trace[0].steps, Last(trace).steps)
    decreases |events|
  {
    if |events| > 0 {
      var n := |events| - 1;
      RunsPrefix(k, o, trace, events);
      RunStaysPastReturn(k, o, trace[..n + 1], events[..n]);
      StaysPastReturn(k, o, trace[n], events[n], trace[n + 1]);
      UnwindingOn(trace[0].steps, trace[n].steps, trace[n + 1].steps);
    }
  }

  /** Once a step is compensated no step ever runs again, the operation never completes, and
      pending work stays pending. */
  lemma CompensationIsPointOfNoReturn(k: Rules, o: Operation, trace: seq<Snapshot>,
                                                         events: seq<Event>)
    requires Runs(k, o, trace, events) && PastReturn(k, o, trace[0])
    ensures PastReturn(k, o, Last(trace)) && Unwinding(trace[0].steps, Last(trace).steps)
    ensures Last(trace).state in {ReconcileRequired, Undone} && !Holds(Last(trace).steps, Running)
    ensures Last(trace).state == Undone ==>
      forall i :: 0 <= i < |Last(trace).steps| ==> Last(trace).steps[i].state in {Compensated, Failed}
  {
    RunStaysPastReturn(k, o, trace, events);
    StatesPastReturn(Last(trace));
  }

  // ---- When a compensated operation can end ----

  ghost predicate Compensable(o: Operation, x: Snapshot)
    requires |x.steps| == |o.steps|
  {
    !Holds(x.steps, Pending) &&
      forall i :: 0 <= i < |x.steps| && x.steps[i].state == Succeeded ==> o.steps[i].compensation == MODE_EXPLICIT
  }

  function UndoOf(o: Operation, fence: string, x: Snapshot, i: nat, receipt: string): StepCommit
    requires i < |x.steps| && i < |o.steps|
  {
    StepCommit(o.operationId, fence, o.steps[i].id, o.steps[i].requestDigest, Succeeded, StepState.Compensated,
      x.steps[i].result, "", receipt)
  }

  lemma CanCompensate(k: Rules, o: Operation, fence: string, x: Snapshot, i: nat, receipt: string) returns (y: Snapshot)
    requires PastReturn(k, o, x) && x.state == ReconcileRequired && Compensable(o, x) && Fence(fence)
    requires k.digest(receipt)
    requires i < |o.steps| && x.steps[i].state == Succeeded
    ensures Accepts(k, o, fence, x, Commit(UndoOf(o, fence, x, i, receipt)), y)
    ensures PastReturn(k, o, y) && y.state == ReconcileRequired && Compensable(o, y)
    ensures y.steps[i].state == Compensated && forall j :: 0 <= j < i ==> y.steps[j] == x.steps[j]
  {
    var c := UndoOf(o, fence, x, i, receipt);
    y := Committed(x, i, c);
    UndoStates(o, x, i, y);
    assert StepSnapshotOK(k, o.steps[i], x.steps[i]);
    assert CommitOK(k, o, c, i);
    CommittedIsOK(k, o, fence, x, i, c);
  }

  /** Compensating one succeeded step keeps a failed one, starts nothing and stays compensable. */
  lemma UndoStates(o: Operation, x: Snapshot, i: nat, y: Snapshot)
    requires StateFits(x.state, x.steps) && x.state == ReconcileRequired && |x.steps| == |o.steps| == |y.steps|
    requires i < |x.steps|
    requires x.steps[i].state == Succeeded && y.steps[i].state == Compensated && Derived(y)
    requires forall j :: 0 <= j < |x.steps| && j != i ==> y.steps[j] == x.steps[j]
    requires Compensable(o, x)
    ensures y.state == ReconcileRequired && Holds(y.steps, Compensated) && Compensable(o, y)
  {
    var f :| 0 <= f < |x.steps| && x.steps[f].state == Failed;
    assert y.steps[f].state == Failed && y.steps[i].state == Compensated;
  }

  /** Some run of accepted events ends the operation as compensated. */
  ghost predicate CanEnd(k: Rules, o: Operation, x: Snapshot) {
    exists trace, events :: Runs(k, o, trace, events) && trace[0] == x && Last(trace).state == Undone
  }

  lemma EndAfterMove(k: Rules, o: Operation, fence: string, x: Snapshot, e: Event, y: Snapshot)
    requires Accepts(k, o, fence, x, e, y) && CanEnd(k, o, y)
    ensures CanEnd(k, o, x)
  {
    var trace, events :| Runs(k, o, trace, events) && trace[0] == y && Last(trace).state == Undone;
    RunsPrepend(k, o, fence, x, e, trace, events);
    assert ([x] + trace)[0] == x;
  }

  /** The first `n` steps are out of play. */
  ghost predicate StoppedUpTo(x: Snapshot, n: nat)
    requires n <= |x.steps|
  {
    forall j :: 0 <= j < n ==> x.steps[j].state in {Compensated, Failed}
  }

  lemma StoppedNext(x: Snapshot, y: Snapshot, n: nat)
    requires n < |x.steps| == |y.steps| && StoppedUpTo(x, n) && y.steps[n].state == Compensated
    requires forall j :: 0 <= j < n ==> y.steps[j] == x.steps[j]
    ensures StoppedUpTo(y, n + 1)
  {
  }

  lemma UnwindFrom(k: Rules, o: Operation, fence: string, x: Snapshot, receipt: string, i: nat)
    requires PastReturn(k, o, x) && x.state == ReconcileRequired && Compensable(o, x) && Fence(fence)
    requires k.digest(receipt)
    requires i <= |o.steps| && StoppedUpTo(x, i)
    ensures CanEnd(k, o, x)
    decreases |o.steps| - i
  {
    if i == |o.steps| {
      FinishUnwinding(k, o, fence, x);
    } else if x.steps[i].state == Succeeded {
      UnwindStep(k, o, fence, x, receipt, i);
    } else {
      PastReturnStates(k, o, x);
      StoppedStep(o, x, i);
      UnwindFrom(k, o, fence, x, receipt, i + 1);
    }
  }

  lemma UnwindStep(k: Rules, o: Operation, fence: string, x: Snapshot, receipt: string, i: nat)
    requires PastReturn(k, o, x) && x.state == ReconcileRequired && Compensable(o, x) && Fence(fence)
    requires k.digest(receipt)
    requires i < |o.steps| && x.steps[i].state == Succeeded && StoppedUpTo(x, i)
    ensures CanEnd(k, o, x)
    decreases |o.steps| - i, 0
  {
    var y := CanCompensate(k, o, fence, x, i, receipt);
    StoppedNext(x, y, i);
    UnwindFrom(k, o, fence, y, receipt, i + 1);
    EndAfterMove(k, o, fence, x, Commit(UndoOf(o, fence, x, i, receipt)), y);
  }

  lemma StoppedStep(o: Operation, x: Snapshot, i: nat)
    requires |x.steps| == |o.steps| && i < |o.steps| && Compensable(o, x) && !Holds(x.steps, Running)
    requires StoppedUpTo(x, i) && x.steps[i].state != Succeeded
    ensures StoppedUpTo(x, i + 1)
  {
  }

  lemma FinishUnwinding(k: Rules, o: Operation, fence: string, x: Snapshot)
    requires PastReturn(k, o, x) && x.state == ReconcileRequired && Fence(fence) && StoppedUpTo(x, |x.steps|)
    ensures CanEnd(k, o, x)
  {
    var f := Finalization(o.operationId, fence, x.state, Undone);
    var trace, events := [x, x.(state := Undone)], [Finish(f)];
    assert Accepts(k, o, fence, x, Finish(f), trace[1]);
    assert Runs(k, o, trace, events) && trace[0] == x && Last(trace).state == Undone;
  }

  /** A token of the required alphabet; any other would do. */
  const SOME_FENCE := seq(16, i => 'A')

  /** A compensating operation can end exactly when nothing is pending and every succeeded step
      declared compensation. */
  lemma CompensationEndsExactly(k: Rules, o: Operation, x: Snapshot)
    requires PastReturn(k, o, x) && x.state == ReconcileRequired
    ensures CanEnd(k, o, x) <==> Compensable(o, x)
  {
    if Compensable(o, x) {
      var m :| 0 <= m < |x.steps| && x.steps[m].state == Compensated;
      assert StepSnapshotOK(k, o.steps[m], x.steps[m]);
      UnwindFrom(k, o, SOME_FENCE, x, x.steps[m].receipt, 0);
    }
    if CanEnd(k, o, x) {
      var trace, events :| Runs(k, o, trace, events) && trace[0] == x && Last(trace).state == Undone;
      EndIsCompensable(k, o, trace, events);
    }
  }

  lemma EndIsCompensable(k: Rules, o: Operation, trace: seq<Snapshot>, events: seq<Event>)
    requires Runs(k, o, trace, events) && PastReturn(k, o, trace[0]) && Last(trace).state == Undone
    ensures Compensable(o, trace[0])
  {
    CompensationIsPointOfNoReturn(k, o, trace, events);
    var x, y := trace[0], Last(trace);
    forall i | 0 <= i < |x.steps|
      ensures x.steps[i].state != Pending
      ensures (x.steps[i].state == Succeeded ==> o.steps[i].compensation == MODE_EXPLICIT)
    {
      assert StepSnapshotOK(k, o.steps[i], y.steps[i]);
    }
  }

  /** Final states are final: no event changes a completed or compensated snapshot. */
  lemma FinalIsFinal(k: Rules, o: Operation, x: Snapshot, e: Event, y: Snapshot)
    requires x.state in {OperationState.Completed, Undone} && Moves(k, o, x, e, y)
    ensures y == x
  {
  }
}
