/** What a rollback does, over every run, to the roots the checkpoint names and to those it does not. */
module RollbackOutcomes {
  import opened RollbackModel
  import opened RollbackProtocol
  import opened RollbackTheorems

  /** A run of the plan for these graphs. */
  ghost predicate PlannedRun(start: World, log: seq<Event>, current: seq<Stack>, target: seq<Stack>) {
    && Starts(start) && Run(start, log) && DistinctStacks(current) && DistinctStacks(target)
    && IsPlan(start.journal.steps, start.disk, start.captured, current, target)
  }

  ghost predicate HasStep(j: Journal, r: Root) { exists s :: s in j.steps && s.root == r }

  lemma TouchedHasStep(w: World, e: Event, r: Root)
    requires Permits(w, e) && Touches(e, r)
    ensures HasStep(w.journal, r)
  {
    if e.Rebuild? {
      assert IsRecreated(w.journal, r);
    } else {
      var s :| NextIs(w.journal, s) && s.root == r;
      assert s in w.journal.steps;
    }
  }

  /** A root the plan does not name is never touched. */
  lemma {:induction false} UnplannedIsLeftAlone(start: World, log: seq<Event>, n: nat, r: Root)
    requires Starts(start) && Run(start, log) && n <= |log| && !HasStep(start.journal, r)
    ensures Same(start.disk, At(start, log, n).disk, r)
    decreases n
  {
    if n == 0 {
      AtStart(start, log);
    } else {
      UnplannedIsLeftAlone(start, log, n - 1, r);
      AtNext(start, log, n - 1);
      if Touches(log[n - 1], r) { TouchedHasStep(At(start, log, n - 1), log[n - 1], r); }
      UntouchedIsSame(At(start, log, n - 1), log[n - 1], r);
    }
  }

  ghost predicate OwnsNoHost(j: Journal, r: Root) { forall s :: s in j.steps && s.root == r ==> !Host(s) }

  /** A stack the checkpoint names but did not capture is left exactly as it was, in every run. */
  lemma UncapturedTargetIsLeftAlone(start: World, log: seq<Event>, current: seq<Stack>, target: seq<Stack>, r: Root)
    requires PlannedRun(start, log, current, target) && OwnsNoHost(start.journal, r)
    requires Named(target, r) && r !in start.captured
    ensures Same(start.disk, Now(start, log).disk, r)
  {
    assert log[..|log|] == log;
    PlannedActionsFit(start.journal.steps, start.disk, start.captured, current, target);
    if HasStep(start.journal, r) {
      RunKeepsInv(start, log);
      var s :| s in start.journal.steps && s.root == r;
      assert ActionFits(start.disk, start.captured, current, target, s);
      assert StepOK(start, Now(start, log), s);
    } else {
      UnplannedIsLeftAlone(start, log, |log|, r);
    }
  }

  /** No run removes a root the checkpoint names. */
  lemma TargetRootIsNeverRemoved(start: World, log: seq<Event>, current: seq<Stack>, target: seq<Stack>, n: nat)
    requires PlannedRun(start, log, current, target) && n < |log| && log[n].Remove?
    ensures !Named(target, log[n].root) && log[n].root in start.disk
  {
    AtNext(start, log, n);
    var s :| NextIs(At(start, log, n).journal, s) && s.root == log[n].root && !Host(s) && s.action == Destroyed;
    assert s in start.journal.steps;
    PlannedActionsFit(start.journal.steps, start.disk, start.captured, current, target);
    assert ActionFits(start.disk, start.captured, current, target, s);
  }

  /** A root the checkpoint names is destroyed only to be restored: its files are captured and not yet recorded. */
  lemma TargetRootIsDestroyedToRestore(start: World, log: seq<Event>, current: seq<Stack>, target: seq<Stack>, n: nat)
    requires PlannedRun(start, log, current, target) && n < |log| && log[n].TofuDestroy? && Named(target, log[n].root)
    ensures log[n].root in start.captured && !Recorded(At(start, log, n).journal, log[n].root)
  {
    AtNext(start, log, n);
    var w, r := At(start, log, n), log[n].root;
    var s :| NextIs(w.journal, s) && s.root == r && MayLeave(w.journal, s);
    assert s in start.journal.steps;
    PlannedActionsFit(start.journal.steps, start.disk, start.captured, current, target);
    assert ActionFits(start.disk, start.captured, current, target, s);
  }

  /** When the rollback is done, every current stack the checkpoint does not name is gone. */
  lemma ForeignRootsAreGone(start: World, log: seq<Event>, current: seq<Stack>, target: seq<Stack>)
    requires PlannedRun(start, log, current, target) && Now(start, log).journal.done
    ensures forall c :: c in current && c.role != HOST_ROLE && !Named(target, c.root) ==>
      c.root !in Now(start, log).disk
  {
    ConvergedRollbackReachedCheckpoint(start, log);
    PlannedActionsFit(start.journal.steps, start.disk, start.captured, current, target);
    forall c | c in current && c.role != HOST_ROLE && !Named(target, c.root) ensures c.root !in Now(start, log).disk {
      var s :| s in start.journal.steps && IsStepOf(s, c);
      assert ActionFits(start.disk, start.captured, current, target, s) && Left(start, log, s);
    }
  }
}
