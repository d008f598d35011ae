/** What a step has gone through in any run of its operation. */
module StepHistory {
  import opened ExecutionModel
  import opened ApplyOperation
  import opened ApplyJournal
  import opened ApplyRuns

  predicate MovesAlong(from: StepState, to: StepState) {
    || (from in {Pending, Failed} && to == Running) || (from == Running && to in {Succeeded, Failed})
    || (from == Succeeded && to == Compensated)
  }

  /** The step is left as it was, or a commit names it and moves it along. */
  ghost predicate StepMoves(o: Operation, a: StepSnapshot, e: Event, b: StepSnapshot, i: nat)
    requires i < |o.steps|
  {
    || b == a
    || (e.Commit? && e.c.stepId == o.steps[i].id && e.c.expected == a.state && b == Recorded(e.c) &&
        MovesAlong(a.state, b.state))
  }

  lemma MoveOfStep(k: Rules, o: Operation, x: Snapshot, e: Event, y: Snapshot, i: nat)
    requires Moves(k, o, x, e, y) && i < |o.steps|
    ensures |x.steps| == |y.steps| == |o.steps| && StepMoves(o, x.steps[i], e, y.steps[i], i)
  {
    var fence :| Accepts(k, o, fence, x, e, y);
    if e.Commit? {
      var j :| CommitOK(k, o, e.c, j) && x.steps[j].state == e.c.expected && y == Committed(x, j, e.c);
    }
  }

  /** A succeeded step is never run again: its evidence stands until, at most, it is compensated. */
  lemma {:induction false} SuccessStands(k: Rules, o: Operation, trace: seq<Snapshot>, events: seq<Event>, m: nat,
                                         n: nat, i: nat)
    requires Runs(k, o, trace, events) && m <= n <= |events| && i < |o.steps| && |trace[m].steps| == |o.steps|
    requires trace[m].steps[i].state in {Succeeded, Compensated}
    ensures |trace[n].steps| == |o.steps|
    ensures trace[n].steps[i] == trace[m].steps[i] || trace[n].steps[i].state == Compensated
    decreases n
  {
    if m < n {
      SuccessStands(k, o, trace, events, m, n - 1, i);
      assert Moves(k, o, trace[n - 1], events[n - 1], trace[n - 1 + 1]);
      MoveOfStep(k, o, trace[n - 1], events[n - 1], trace[n], i);
    }
  }

  /** Nothing is recorded of a step, neither success nor failure, before it was recorded as running. */
  lemma {:induction false} ResultWasRunning(k: Rules, o: Operation, trace: seq<Snapshot>, events: seq<Event>, n: nat,
                                            i: nat)
    returns (m: nat)
    requires Runs(k, o, trace, events) && trace[0] == InitialSnapshot(o) && n <= |events| && i < |o.steps|
    requires |trace[n].steps| == |o.steps| && trace[n].steps[i].state in {Succeeded, Failed, Compensated}
    ensures m < n && |trace[m].steps| == |o.steps| && trace[m].steps[i].state == Running
    decreases n
  {
    assert n > 0 ==> Moves(k, o, trace[n - 1], events[n - 1], trace[n - 1 + 1]);
    MoveOfStep(k, o, trace[n - 1], events[n - 1], trace[n], i);
    m := n - 1;
    if trace[n - 1].steps[i].state != Running { m := ResultWasRunning(k, o, trace, events, n - 1, i); }
  }
}
