/** Which snapshots a journal can hold, and when an apply can be stranded halfway through its compensation. */
module StuckRuns {
  import opened ExecutionModel
  import opened ApplyOperation
  import opened ApplyJournal
  import opened ApplyRuns

  /** Some run of accepted events leads a new journal to `x`. */
  ghost predicate Reachable(k: Rules, o: Operation, x: Snapshot) {
    exists trace, events :: Runs(k, o, trace, events) && trace[0] == InitialSnapshot(o) && Last(trace) == x
  }

  lemma RunsAppend(k: Rules, o: Operation, trace: seq<Snapshot>, events: seq<Event>, e: Event, y: Snapshot)
    requires Runs(k, o, trace, events) && Moves(k, o, Last(trace), e, y)
    ensures Runs(k, o, trace + [y], events + [e])
  {
    var t, es := trace + [y], events + [e];
    forall i | 0 <= i < |es| ensures Moves(k, o, t[i], es[i], t[i + 1]) {
      if i < |events| { assert es[i] == events[i] && t[i] == trace[i] && t[i + 1] == trace[i + 1]; }
    }
  }

  lemma ReachableStep(k: Rules, o: Operation, fence: string, x: Snapshot, e: Event, y: Snapshot)
    requires Reachable(k, o, x) && Accepts(k, o, fence, x, e, y)
    ensures Reachable(k, o, y)
  {
    var trace, events :| Runs(k, o, trace, events) && trace[0] == InitialSnapshot(o) && Last(trace) == x;
    RunsAppend(k, o, trace, events, e, y);
    var t := trace + [y];
    assert t[0] == InitialSnapshot(o) && Last(t) == y;
  }

  lemma InitialIsReachable(k: Rules, o: Operation)
    ensures Reachable(k, o, InitialSnapshot(o)) && SnapshotOK(k, o, InitialSnapshot(o)) && Derived(InitialSnapshot(o))
  {
    var trace := [InitialSnapshot(o)];
    assert Runs(k, o, trace, []) && Last(trace) == InitialSnapshot(o);
  }

  // ---- Compensation starts only when nothing is left to attempt ----

  /** Nothing is pending or running next to a compensated step. */
  predicate Settled(steps: seq<StepSnapshot>) {
    Holds(steps, Compensated) ==> !Holds(steps, Pending) && !Holds(steps, Running)
  }

  lemma MoveKeepsSettled(k: Rules, o: Operation, x: Snapshot, e: Event, y: Snapshot)
    requires Moves(k, o, x, e, y) && Settled(x.steps)
    ensures Settled(y.steps)
  {
    var fence :| Accepts(k, o, fence, x, e, y);
    if e.Commit? {
      var i :| CommitOK(k, o, e.c, i) && x.steps[i].state == e.c.expected && y == Committed(x, i, e.c);
      assert Derived(y) && StateFits(y.state, y.steps);
    }
  }

  lemma {:induction false} RunKeepsSettled(k: Rules, o: Operation, trace: seq<Snapshot>, events: seq<Event>)
    requires Runs(k, o, trace, events) && Settled(trace[0].steps)
    ensures Settled(Last(trace).steps)
    decreases |events|
  {
    if |events| > 0 {
      var n := |events| - 1;
      RunsPrefix(k, o, trace, events);
      RunKeepsSettled(k, o, trace[..n + 1], events[..n]);
      MoveKeepsSettled(k, o, trace[n], events[n], trace[n + 1]);
    }
  }

  /** No journal ever holds a compensated step next to a pending or running one, though the snapshot validator would. */
  lemma CompensationWaitsForTheRest(k: Rules, o: Operation, x: Snapshot)
    requires Reachable(k, o, x)
    ensures Settled(x.steps)
  {
    var trace, events :| Runs(k, o, trace, events) && trace[0] == InitialSnapshot(o) && Last(trace) == x;
    RunKeepsSettled(k, o, trace, events);
  }

  // ---- When a compensated operation is stranded ----

  /** Reached from a new journal, partly compensated, and no run of accepted events ends it. */
  ghost predicate Stuck(k: Rules, o: Operation, x: Snapshot) {
    Reachable(k, o, x) && PastReturn(k, o, x) && !CanEnd(k, o, x)
  }

  ghost predicate Revocable(k: Rules, step: Step, result: Result) {
    step.compensation == MODE_EXPLICIT && Proves(k, step, result)
  }

  ghost predicate Irrevocable(k: Rules, step: Step, result: Result) {
    step.compensation != MODE_EXPLICIT && Proves(k, step, result)
  }

  /** Step `i` has succeeded and cannot be taken back. */
  ghost predicate Stays(o: Operation, x: Snapshot, i: int) {
    0 <= i < |x.steps| && i < |o.steps| && x.steps[i].state == Succeeded && o.steps[i].compensation != MODE_EXPLICIT
  }

  lemma EndedCanEnd(k: Rules, o: Operation, x: Snapshot)
    requires x.state == Undone
    ensures CanEnd(k, o, x)
  {
    var trace := [x];
    assert Runs(k, o, trace, []) && trace[0] == x && Last(trace).state == Undone;
  }

  lemma CompensableMeansNoneStays(o: Operation, x: Snapshot)
    requires |x.steps| == |o.steps| && !Holds(x.steps, Pending)
    ensures Compensable(o, x) <==> !exists i :: Stays(o, x, i)
  {
    if !exists i :: Stays(o, x, i) {
      forall i | 0 <= i < |x.steps| && x.steps[i].state == Succeeded ensures o.steps[i].compensation == MODE_EXPLICIT {
        assert !Stays(o, x, i);
      }
    }
  }

  /** A journal that has begun compensating can end it exactly when every succeeded step declared compensation. */
  lemma StuckExactly(k: Rules, o: Operation, x: Snapshot)
    requires Reachable(k, o, x) && PastReturn(k, o, x)
    ensures CanEnd(k, o, x) <==> !exists i :: Stays(o, x, i)
  {
    CompensationWaitsForTheRest(k, o, x);
    StatesPastReturn(x);
    if x.state == Undone {
      EndedCanEnd(k, o, x);
    } else {
      CompensationEndsExactly(k, o, x);
      CompensableMeansNoneStays(o, x);
    }
  }

  /** An operation whose steps all declare compensation is never stranded. */
  lemma AllExplicitIsNeverStranded(k: Rules, o: Operation, x: Snapshot)
    requires forall step :: step in o.steps ==> step.compensation == MODE_EXPLICIT
    ensures !Stuck(k, o, x)
  {
    if Reachable(k, o, x) && PastReturn(k, o, x) { StuckExactly(k, o, x); }
  }

  // ---- The stranding run ----

  /** Steps `i` and `j` have succeeded; of the others those before `h` have failed and the rest is pending. */
  ghost predicate Midway(o: Operation, x: Snapshot, i: nat, j: nat, h: nat) {
    && |x.steps| == |o.steps| && i < |o.steps| && j < |o.steps| && h <= |o.steps|
    && x.steps[i].state == Succeeded && x.steps[j].state == Succeeded
    && forall m :: 0 <= m < |o.steps| && m != i && m != j ==> x.steps[m].state == if m < h then Failed else Pending
  }

  /** What a run with token `fence` carries along. */
  ghost predicate OnTheWay(k: Rules, o: Operation, fence: string, x: Snapshot) {
    Reachable(k, o, x) && Ready(k, o, fence, x) && Derived(x)
  }

  lemma StartThenSucceed(k: Rules, o: Operation, fence: string, x: Snapshot, i: nat, result: Result)
    returns (y: Snapshot)
    requires OnTheWay(k, o, fence, x) && i < |o.steps| && x.steps[i].state == Pending && Proves(k, o.steps[i], result)
    ensures OnTheWay(k, o, fence, y) && y.steps[i].state == Succeeded && OthersKept(x, y, i)
  {
    var running := CanStart(k, o, fence, x, i);
    ReachableStep(k, o, fence, x, Commit(StartOf(o, fence, x, i)), running);
    y := CanSucceed(k, o, fence, running, i, result);
    ReachableStep(k, o, fence, running, Commit(SuccessOf(o, fence, i, result)), y);
  }

  lemma StartThenFail(k: Rules, o: Operation, fence: string, x: Snapshot, i: nat) returns (y: Snapshot)
    requires OnTheWay(k, o, fence, x) && i < |o.steps| && x.steps[i].state == Pending
    ensures OnTheWay(k, o, fence, y) && y.steps[i].state == Failed && OthersKept(x, y, i)
  {
    var running := CanStart(k, o, fence, x, i);
    ReachableStep(k, o, fence, x, Commit(StartOf(o, fence, x, i)), running);
    y := CanFail(k, o, fence, running, i);
    ReachableStep(k, o, fence, running, Commit(FailureOf(o, fence, i)), y);
  }

  lemma {:induction false} FailTheRest(k: Rules, o: Operation, fence: string, x: Snapshot, i: nat, j: nat, h: nat)
    returns (y: Snapshot)
    requires OnTheWay(k, o, fence, x) && Midway(o, x, i, j, h)
    ensures OnTheWay(k, o, fence, y) && Midway(o, y, i, j, |o.steps|)
    decreases |o.steps| - h
  {
    if h == |o.steps| {
      y := x;
    } else if h == i || h == j {
      y := FailTheRest(k, o, fence, x, i, j, h + 1);
    } else {
      var failed := StartThenFail(k, o, fence, x, h);
      y := FailTheRest(k, o, fence, failed, i, j, h + 1);
    }
  }

  lemma ReachSettled(k: Rules, o: Operation, fence: string, i: nat, j: nat, result: Result, kept: Result)
    returns (x: Snapshot)
    requires Fence(fence) && i < |o.steps| && j < |o.steps| && i != j
    requires Proves(k, o.steps[i], result) && Proves(k, o.steps[j], kept)
    ensures OnTheWay(k, o, fence, x) && Midway(o, x, i, j, |o.steps|)
  {
    InitialIsReachable(k, o);
    var a := StartThenSucceed(k, o, fence, InitialSnapshot(o), i, result);
    var b := StartThenSucceed(k, o, fence, a, j, kept);
    x := FailTheRest(k, o, fence, b, i, j, 0);
  }

  /** When everything has been attempted and something failed, a succeeded explicit step can be compensated. */
  lemma CanBeginUndo(k: Rules, o: Operation, fence: string, x: Snapshot, i: nat, receipt: string) returns (y: Snapshot)
    requires Ready(k, o, fence, x) && Derived(x) && x.state == ReconcileRequired && k.digest(receipt)
    requires i < |o.steps| && x.steps[i].state == Succeeded && o.steps[i].compensation == MODE_EXPLICIT
    ensures Accepts(k, o, fence, x, Commit(UndoOf(o, fence, x, i, receipt)), y)
    ensures PastReturn(k, o, y) && OthersKept(x, y, i)
  {
    var c := UndoOf(o, fence, x, i, receipt);
    y := Committed(x, i, c);
    UndoStaysSettled(x, i, y);
    assert StepSnapshotOK(k, o.steps[i], x.steps[i]);
    assert CommitOK(k, o, c, i);
    CommittedIsOK(k, o, fence, x, i, c);
  }

  lemma UndoStaysSettled(x: Snapshot, i: nat, y: Snapshot)
    requires StateFor(x.steps) == ReconcileRequired && i < |x.steps| && x.steps[i].state == Succeeded
    requires OthersKept(x, y, i) && y.steps[i].state == Compensated
    ensures StateFor(y.steps) == ReconcileRequired && Holds(y.steps, Compensated)
  {
    var f :| 0 <= f < |x.steps| && x.steps[f].state == Failed;
    assert y.steps[f].state == Failed;
  }

  lemma SettledNeedsReconciling(o: Operation, x: Snapshot, i: nat, j: nat)
    requires |o.steps| >= 3 && Midway(o, x, i, j, |o.steps|)
    ensures StateFor(x.steps) == ReconcileRequired
  {
    var f: nat := if i != 0 && j != 0 then 0 else if i != 1 && j != 1 then 1 else 2;
    assert x.steps[f].state == Failed;
  }

  lemma ReachStuck(k: Rules, o: Operation, i: nat, j: nat, result: Result, kept: Result) returns (x: Snapshot)
    requires |o.steps| >= 3 && i < |o.steps| && j < |o.steps|
    requires Revocable(k, o.steps[i], result) && Irrevocable(k, o.steps[j], kept)
    ensures Stuck(k, o, x)
  {
    var settled := ReachSettled(k, o, SOME_FENCE, i, j, result, kept);
    SettledNeedsReconciling(o, settled, i, j);
    x := CanBeginUndo(k, o, SOME_FENCE, settled, i, result.resultDigest);
    ReachableStep(k, o, SOME_FENCE, settled, Commit(UndoOf(o, SOME_FENCE, settled, i, result.resultDigest)), x);
    StuckExactly(k, o, x);
    assert Stays(o, x, j);
  }

  lemma StuckHasThreeKinds(k: Rules, o: Operation, x: Snapshot)
    requires Stuck(k, o, x)
    ensures Holds(x.steps, Compensated) && Holds(x.steps, Failed) && exists j :: Stays(o, x, j)
  {
    StuckExactly(k, o, x);
    StatesPastReturn(x);
    if x.state == Undone { EndedCanEnd(k, o, x); }
  }

  lemma ThreeKindsAreThreeSteps(o: Operation, x: Snapshot)
    requires Holds(x.steps, Compensated) && Holds(x.steps, Failed) && (exists j :: Stays(o, x, j))
    requires |x.steps| == |o.steps|
    ensures |o.steps| >= 3
  {
    var i :| 0 <= i < |x.steps| && x.steps[i].state == Compensated;
    var f :| 0 <= f < |x.steps| && x.steps[f].state == Failed;
    var j :| Stays(o, x, j);
  }

  lemma CompensatedIsRevocable(k: Rules, o: Operation, x: Snapshot, i: nat) returns (result: Result)
    requires SnapshotOK(k, o, x) && i < |x.steps| && x.steps[i].state == Compensated
    ensures Revocable(k, o.steps[i], result)
  {
    assert StepSnapshotOK(k, o.steps[i], x.steps[i]);
    result := x.steps[i].result.value;
  }

  lemma StayingIsIrrevocable(k: Rules, o: Operation, x: Snapshot, j: int) returns (kept: Result)
    requires SnapshotOK(k, o, x) && Stays(o, x, j)
    ensures Irrevocable(k, o.steps[j], kept)
  {
    assert StepSnapshotOK(k, o.steps[j], x.steps[j]);
    kept := x.steps[j].result.value;
  }

  /**
   * An operation can be stranded exactly when it has at least three steps, one that can succeed and be compensated and
   * one that can succeed and cannot: both succeed, everything else fails, and the first is compensated.
   */
  lemma StrandedExactly(k: Rules, o: Operation)
    ensures (exists x :: Stuck(k, o, x)) <==>
      && |o.steps| >= 3
      && (exists i, result :: 0 <= i < |o.steps| && Revocable(k, o.steps[i], result))
      && (exists j, kept :: 0 <= j < |o.steps| && Irrevocable(k, o.steps[j], kept))
  {
    if x :| Stuck(k, o, x) {
      StuckHasThreeKinds(k, o, x);
      ThreeKindsAreThreeSteps(o, x);
      var i: nat :| i < |x.steps| && x.steps[i].state == Compensated;
      var result := CompensatedIsRevocable(k, o, x, i);
      var j :| Stays(o, x, j);
      var kept := StayingIsIrrevocable(k, o, x, j);
    }
    if |o.steps| >= 3 {
      if i, result :| 0 <= i < |o.steps| && Revocable(k, o.steps[i], result) {
        if j, kept :| 0 <= j < |o.steps| && Irrevocable(k, o.steps[j], kept) {
          var x := ReachStuck(k, o, i, j, result, kept);
        }
      }
    }
  }
}
