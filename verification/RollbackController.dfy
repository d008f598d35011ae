/**
 * The rollback itself: plan, persist, execute step by step, stop at the first failure, resume after a crash.
 * Every effect it causes is shown to be permitted by what is persisted, so the theorems over runs apply to it.
 */
module RollbackController {
  import opened Wrappers
  import opened RollbackModel
  import opened RollbackProtocol
  import opened RollbackTheorems
  import opened RollbackMachine

  datatype StackReport = StackReport(stackId: string, root: Root, action: Action, status: Status, planExit: Option<int>)
  datatype Report = Report(order: seq<string>, stacks: seq<StackReport>, converged: bool)

  predicate Reports(x: StackReport, s: Step) { x.stackId == s.stackId && x.root == s.root && x.action == s.action }

  method MakeReport(j: Journal) returns (r: Report)
    ensures r.converged <==> ReportsConverged(j)
    ensures |r.order| == |r.stacks| == |j.steps|
    ensures forall i :: 0 <= i < |j.steps| ==> r.order[i] == j.steps[i].stackId && r.stacks[i].root == j.steps[i].root
    ensures forall i :: 0 <= i < |j.steps| ==> r.stacks[i].status == ResultOf(j, j.steps[i].root).status
    ensures forall i :: 0 <= i < |j.steps| ==> Reports(r.stacks[i], j.steps[i])
    ensures forall i :: 0 <= i < |j.steps| ==> r.stacks[i].planExit == ResultOf(j, j.steps[i].root).planExit
  {
    r := Report([], [], true);
    for i := 0 to |j.steps|
      invariant |r.order| == |r.stacks| == i
      invariant r.converged <==> forall h :: 0 <= h < i ==> Settled(j, j.steps[h].root)
      invariant forall h :: 0 <= h < i ==> r.order[h] == j.steps[h].stackId && r.stacks[h].root == j.steps[h].root
      invariant forall h :: 0 <= h < i ==> r.stacks[h].status == ResultOf(j, j.steps[h].root).status
      invariant forall h :: 0 <= h < i ==> Reports(r.stacks[h], j.steps[h])
      invariant forall h :: 0 <= h < i ==> r.stacks[h].planExit == ResultOf(j, j.steps[h].root).planExit
    {
      var s := j.steps[i];
      var outcome := ResultOf(j, s.root);
      var settled := outcome.status == Converged || outcome.status == Skipped;
      r := Report(r.order + [s.stackId],
                  r.stacks + [StackReport(s.stackId, s.root, s.action, outcome.status, outcome.planExit)],
                  r.converged && settled);
    }
  }

  /** Every stack may own its root. */
  ghost predicate AllOwned(allowed: (string, Root) -> bool, current: seq<Stack>, target: seq<Stack>) {
    forall s :: s in current || s in target ==> allowed(s.role, s.root)
  }

  /** Two journals of one rollback that agree on whether it is finished. */
  predicate SamePlan(a: Journal, b: Journal) { a.steps == b.steps && a.done == b.done }

  /** `journal` is the in-memory copy; it dies with the process. */
  class Controller {
    const machine: Machine
    var journal: Journal

    constructor (machine: Machine)
      ensures this.machine == machine
    {
      this.machine := machine;
      journal := Journal([], map[], false);
    }

    /** The machine is in a run of this rollback. */
    ghost predicate Live()
      reads this, machine
    {
      machine.Valid() && machine.stored.Some? && SamePlan(machine.stored.value, journal)
    }

    ghost predicate InSync()
      reads this, machine
    {
      Live() && machine.stored == Some(journal)
    }

    /** Every recreated root still to be run is recorded, so steps may run. */
    ghost predicate Armed()
      reads this, machine
    {
      Live() && RecreatedRecorded(machine.stored.value)
    }

    /** Returns the unfinished journal, or plans and persists a new rollback before any side effect. */
    method Prepare(current: seq<Stack>, target: seq<Stack>, allowed: (string, Root) -> bool)
      returns (out: Out, resumed: bool)
      requires machine.Valid() && DistinctStacks(current) && DistinctStacks(target)
      modifies this, machine
      ensures machine.Valid() && machine.disk == old(machine.disk)
      ensures out == Fine ==> InSync()
      ensures out == Fine && resumed ==> old(machine.stored) == Some(journal) && machine.log == old(machine.log)
      ensures out == Fine && !resumed ==>
        machine.log == [] && IsPlan(journal.steps, machine.disk, machine.captured, current, target)
      ensures old(machine.stored).Some? && !old(machine.stored).value.done ==> out == Fine && resumed
      ensures resumed ==> old(machine.stored).Some? && !old(machine.stored).value.done
      ensures old(machine.upsets) <= machine.upsets && (out == Fine ==> machine.upsets == old(machine.upsets))
      ensures machine.upsets == old(machine.upsets) && AllOwned(allowed, current, target) ==> out == Fine
    {
      if machine.stored.Some? && !machine.stored.value.done {
        journal := machine.stored.value;
        return Fine, true;
      }
      var plan := Plan(machine.disk, machine.captured, current, target, allowed);
      if plan == None { return Error, false; }
      journal := Journal(plan.value, map[], false);
      PlanStarts(machine.disk, machine.captured, current, target, plan.value);
      out := machine.Begin(journal);
      resumed := false;
    }

    /** One effect of a step; the journal on disk is not touched. */
    method Effect(e: Event) returns (out: Out)
      requires Armed() && RunsStep(e) && Permits(machine.Present(), e)
      modifies machine
      ensures Armed() && machine.stored == old(machine.stored)
      ensures out == Fine ==> machine.Present() == After(old(machine.Present()), e)
      ensures out == Fine ==> machine.disk == DiskAfter(old(machine.disk), machine.captured, e)
      ensures out == Error ==> machine.Present() == old(machine.Present())
      ensures old(machine.upsets) <= machine.upsets
      ensures out == Fine && Succeeds(e) <==> machine.upsets == old(machine.upsets)
    {
      out := machine.Perform(e);
    }

    /** Writes the checkpoint payload first and the state last; needs the executor's marker. */
    method RestoreRoot(s: Step) returns (out: Out)
      requires Armed() && NextIs(machine.stored.value, s) && Restores(s) && !Recorded(machine.stored.value, s.root)
      requires s.root in machine.captured
      modifies machine
      ensures Armed() && machine.stored == old(machine.stored)
      ensures out == Fine ==> Captured(machine.Present(), s.root)
      ensures old(machine.upsets) <= machine.upsets
      ensures out == Fine <==> machine.upsets == old(machine.upsets)
    {
      var marked := machine.HasMarker(s.root);
      if !marked { return Error; }
      var files := machine.captured[s.root];
      var writes: seq<FileKind> := [];
      if files.environment.Some? { writes := writes + [EnvironmentFile]; }
      if files.compose.Some? { writes := writes + [ComposeFile]; }
      if files.lock.Some? { writes := writes + [LockFile]; }
      ghost var payload := writes;
      writes := writes + [ConfigFile, StateFile];
      assert writes[..|writes| - 2] == payload;
      AllContentListed(files, writes);
      out := WriteFiles(s, writes);
    }

    /** Writes the listed files one by one; each write is atomic, the sequence is not. */
    method WriteFiles(s: Step, writes: seq<FileKind>) returns (out: Out)
      requires Armed() && NextIs(machine.stored.value, s) && Restores(s) && !Recorded(machine.stored.value, s.root)
      requires s.root in machine.captured && s.root in machine.disk && machine.disk[s.root].marker
      requires StateLast(machine.captured[s.root], writes)
      modifies machine
      ensures Armed() && machine.stored == old(machine.stored)
      ensures out == Fine ==> forall k :: k in writes ==>
        Holds(machine.disk, s.root, machine.captured[s.root], k) && k in WrittenTo(machine.written, s.root)
      ensures old(machine.upsets) <= machine.upsets
      ensures out == Fine <==> machine.upsets == old(machine.upsets)
    {
      for i := 0 to |writes|
        invariant Armed() && machine.stored == old(machine.stored)
        invariant s.root in machine.disk && machine.disk[s.root].marker && machine.upsets == old(machine.upsets)
        invariant forall k :: k in writes[..i] ==>
          Holds(machine.disk, s.root, machine.captured[s.root], k) && k in WrittenTo(machine.written, s.root)
      {
        assert writes[..i + 1] == writes[..i] + [writes[i]];
        PayloadIsThere(machine.disk, s.root, machine.captured[s.root], writes, i);
        out := Effect(Write(s.root, writes[i]));
        if out != Fine { return; }
      }
      assert writes[..|writes|] == writes;
      return Fine;
    }

    /** Deletes a destroyed root; a root already absent is left alone. */
    method RemoveRoot(s: Step) returns (out: Out)
      requires Armed() && NextIs(machine.stored.value, s) && !Host(s) && s.action == Destroyed
      requires MayRemove(machine.Present(), s.root)
      modifies machine
      ensures Armed() && machine.stored == old(machine.stored)
      ensures out == Fine ==> s.root !in machine.disk
      ensures s.root !in old(machine.disk) ==>
        out == Fine && machine.log == old(machine.log) && machine.disk == old(machine.disk)
      ensures old(machine.upsets) <= machine.upsets
      ensures out == Fine <==> machine.upsets == old(machine.upsets)
    {
      if s.root !in machine.disk { return Fine; }
      var e := machine.RemovalEnds(s.root);
      out := Effect(e);
      assert e.left == None ==> s.root !in Put(old(machine.disk), s.root, e.left);
      if out == Fine && e.left.Some? { return Error; }
    }

    method RunDestroyed(s: Step) returns (out: Out, x: StepResult)
      requires Armed() && InSync() && NextIs(journal, s) && !Host(s) && s.action == Destroyed
      modifies machine
      ensures Armed() && machine.stored == Some(journal)
      ensures out != Error && (out == Fine ==> ResultFits(machine.Present(), s, x) && x.status != Unset)
      ensures s.root !in old(machine.disk) ==>
        out == Fine && x.status == Converged && machine.log == old(machine.log) && machine.disk == old(machine.disk)
      ensures old(machine.upsets) <= machine.upsets
      ensures out == Fine && x.status == Converged <==> machine.upsets == old(machine.upsets)
    {
      var failed := StepResult(Failed, Recorded(journal, s.root), None);
      if HasApplied(machine.disk, s.root) {
        var e := machine.DestroyEnds(s.root);
        out := Effect(e);
        if out == Crash { return out, failed; }
        if out == Error || !e.ok { return Fine, failed; }
      }
      out := RemoveRoot(s);
      if out == Crash { return out, failed; }
      return Fine, if out == Error then failed else StepResult(Converged, Recorded(journal, s.root), None);
    }

    method RunHost(s: Step) returns (out: Out, x: StepResult)
      requires Armed() && InSync() && NextIs(journal, s) && Host(s)
      modifies machine
      ensures Armed() && machine.stored == Some(journal)
      ensures out != Error && (out == Fine ==> ResultFits(machine.Present(), s, x) && x.status != Unset)
      ensures old(machine.upsets) <= machine.upsets
      ensures out == Fine && x.status == Converged <==> machine.upsets == old(machine.upsets)
    {
      var e := machine.HostRepairEnds(s.root);
      out := Effect(e);
      if out == Crash { return out, StepResult(Failed, false, None); }
      x := StepResult(if out == Fine && e.ok then Converged else Failed, Recorded(journal, s.root), None);
      out := Fine;
    }

    /** The result `x` of step `s` may be saved, and the in-memory journal differs from the stored one at most there. */
    ghost predicate Recordable(s: Step, x: StepResult)
      reads this, machine
    {
      && Armed() && NextIs(machine.stored.value, s) && ResultFits(machine.Present(), s, x)
      && WithResult(journal, s.root, x) == WithResult(machine.stored.value, s.root, x)
    }

    function FailedResult(s: Step, exit: Option<int>): StepResult
      reads this
    {
      StepResult(Failed, Recorded(journal, s.root), exit)
    }

    /** Brings the checkpoint files into the root and persists that fact before anything runs against them. */
    method EnsureRestored(s: Step) returns (out: Out)
      requires Armed() && InSync() && NextIs(journal, s) && Restores(s) && s.root in machine.captured
      modifies this`journal, machine
      ensures Armed() && SamePlan(journal, old(journal))
      ensures out == Fine ==> InSync() && NextIs(journal, s) && Recorded(journal, s.root)
      ensures out == Error ==> Recordable(s, FailedResult(s, None))
      ensures old(machine.upsets) <= machine.upsets
      ensures out == Fine <==> machine.upsets == old(machine.upsets)
    {
      if Recorded(journal, s.root) { return Fine; }
      var native: bool := *;
      if s.action == Restored && native {
        var e := machine.DestroyEnds(s.root);
        out := Effect(e);
        if out != Fine { return; }
        if !e.ok { return Error; }
      }
      out := RestoreRoot(s);
      if out != Fine { return; }
      out := SaveRecord(s);
    }

    method SaveRecord(s: Step) returns (out: Out)
      requires Armed() && InSync() && NextIs(journal, s) && Restores(s) && !Recorded(journal, s.root)
      requires Captured(machine.Present(), s.root)
      modifies this`journal, machine
      ensures Armed() && SamePlan(journal, old(journal))
      ensures out == Fine ==> InSync() && NextIs(journal, s) && Recorded(journal, s.root)
      ensures out == Error ==> Recordable(s, FailedResult(s, None))
      ensures old(machine.upsets) <= machine.upsets
      ensures out == Fine <==> machine.upsets == old(machine.upsets)
    {
      var x := StepResult(Unset, true, None);
      ResultMayBeSaved(machine.Present(), s, x);
      UnsettledStaysNext(journal, s, x);
      journal := WithResult(journal, s.root, x);
      out := machine.Perform(Save(journal));
    }

    /** The forced apply and the plan that must then show no change. */
    method ApplyAndPlan(s: Step) returns (out: Out, x: StepResult)
      requires Armed() && InSync() && NextIs(journal, s) && Restores(s) && Recorded(journal, s.root)
      modifies machine
      ensures Armed() && machine.stored == Some(journal)
      ensures out != Error && (out == Fine ==> ResultFits(machine.Present(), s, x) && x.status != Unset)
      ensures old(machine.upsets) <= machine.upsets
      ensures out == Fine && x.status == Converged <==> machine.upsets == old(machine.upsets)
    {
      var applied := machine.ApplyEnds(s.root);
      out := Effect(applied);
      x := StepResult(Failed, true, None);
      if out == Crash { return; }
      if out == Error || !applied.ok { return Fine, x; }
      var planned := machine.PlanEnds(s.root);
      out := Effect(planned);
      if out == Crash { return; }
      if out == Error { return Fine, x; }
      return Fine, StepResult(if planned.exit == 0 then Converged else Failed, true, Some(planned.exit));
    }

    method RunRestored(s: Step) returns (out: Out, x: StepResult)
      requires Armed() && InSync() && NextIs(journal, s) && Restores(s) && s.root in machine.captured
      modifies this`journal, machine
      ensures Armed() && SamePlan(journal, old(journal))
      ensures out != Error && (out == Fine ==> Recordable(s, x) && x.status != Unset)
      ensures old(machine.upsets) <= machine.upsets
      ensures out == Fine && x.status == Converged <==> machine.upsets == old(machine.upsets)
    {
      out := EnsureRestored(s);
      x := FailedResult(s, None);
      if out == Crash { return; }
      if out == Error { return Fine, x; }
      out, x := ApplyAndPlan(s);
    }

    /** One step; the result is what the journal may record for it next. */
    method RunStep(s: Step) returns (out: Out, x: StepResult)
      requires Armed() && InSync() && NextIs(journal, s)
      modifies this`journal, machine
      ensures Armed() && SamePlan(journal, old(journal))
      ensures out != Error && (out == Fine ==> Recordable(s, x) && x.status != Unset)
      ensures old(machine.upsets) <= machine.upsets
      ensures out == Fine && x.status in {Converged, Skipped} <==>
        machine.upsets == old(machine.upsets) && (Restores(s) ==> s.root in machine.captured)
    {
      x := FailedResult(s, None);
      if Host(s) {
        out, x := RunHost(s);
        return;
      }
      if s.action == Unchanged { return Fine, StepResult(Skipped, Recorded(journal, s.root), None); }
      var resolved := machine.Resolve(s);
      if !resolved { return Fine, x; }
      if s.action == Destroyed {
        out, x := RunDestroyed(s);
      } else {
        if s.root !in machine.captured { return Fine, x; }
        out, x := RunRestored(s);
      }
    }

    /** The recreated roots whose files are not recorded, or whose root has vanished. */
    method PendingRecreations() returns (roots: set<Root>)
      requires InSync()
      ensures forall r :: r in roots ==> MayRebuild(machine.Present(), r)
      ensures forall s :: s in journal.steps && s.action == Recreated && MayRebuild(machine.Present(), s.root) ==>
        s.root in roots
    {
      roots := {};
      for i := 0 to |journal.steps|
        invariant forall r :: r in roots ==> MayRebuild(machine.Present(), r)
        invariant forall h ::
          0 <= h < i && journal.steps[h].action == Recreated && MayRebuild(machine.Present(), journal.steps[h].root) ==>
            journal.steps[h].root in roots
      {
        var s := journal.steps[i];
        if s.action == Recreated && !Settled(journal, s.root) &&
          (!Recorded(journal, s.root) || s.root !in machine.disk) {
          roots := roots + {s.root};
        }
      }
    }

    /** The recreation callback: all listed roots hold their checkpoint files, or it fails leaving
        only them disturbed. */
    method RecreateRoots(roots: set<Root>) returns (out: Out)
      requires InSync() && forall r :: r in roots ==> MayRebuild(machine.Present(), r) && r in machine.captured
      modifies machine
      ensures Live() && machine.stored == Some(journal)
      ensures out == Fine ==> forall r :: r in roots ==> Captured(machine.Present(), r)
      ensures forall r :: r !in roots ==> Same(old(machine.disk), machine.disk, r)
      ensures old(machine.upsets) <= machine.upsets
      ensures out == Fine <==> machine.upsets == old(machine.upsets)
    {
      var ok, damage := machine.RecreationEnds(roots);
      var d := Rebuilt(machine.disk, roots, if ok then RestoredRoots(machine.captured, roots) else damage);
      RebuiltElsewhere(machine.disk, roots, if ok then RestoredRoots(machine.captured, roots) else damage);
      ghost var before := machine.Present();
      out := machine.Perform(Rebuild(roots, d));
      if out == Fine && !ok { return Error; }
      if out == Fine { RebuiltRootsAreCaptured(before, roots); }
    }

    /** Records the rebuilt roots together, in one save. */
    method RecordRecreated(roots: set<Root>) returns (out: Out)
      requires InSync() && forall r :: r in roots ==> Captured(machine.Present(), r) && IsRecreated(journal, r)
      requires forall s :: s in journal.steps && s.action == Recreated && MayRebuild(machine.Present(), s.root) ==>
        s.root in roots
      modifies this`journal, machine
      ensures Live() && SamePlan(journal, old(journal))
      ensures out == Fine ==> InSync() && RecreatedInPlace(journal, machine.disk)
      ensures old(machine.upsets) <= machine.upsets
      ensures out == Fine <==> machine.upsets == old(machine.upsets)
    {
      RecordingPlaces(machine.Present(), roots);
      journal := WithRecorded(journal, roots);
      out := machine.Perform(Save(journal));
    }

    /** Rebuilds the pending recreated roots, then records them, before the first step runs.
        Without a callback, or for a root the checkpoint did not capture, nothing is rebuilt. */
    method RestoreRecreated() returns (out: Out)
      requires InSync()
      modifies this`journal, machine
      ensures Live() && SamePlan(journal, old(journal))
      ensures out == Fine ==> InSync() && RecreatedInPlace(journal, machine.disk)
      ensures old(machine.upsets) <= machine.upsets
      ensures out == Fine <==> machine.upsets == old(machine.upsets)
    {
      var roots := PendingRecreations();
      if roots == {} {
        NothingToRebuild(machine.Present());
        return Fine;
      }
      var ready := machine.TakesRecreation(roots);
      if !ready { return Error; }
      out := RecreateRoots(roots);
      if out != Fine { return; }
      out := RecordRecreated(roots);
    }

    /** Runs the plan, persisting each outcome; stops at the first failure so that a later call resumes there.
        It succeeds exactly when the outside caused no upset, so nothing but an upset keeps it from converging. */
    method Execute() returns (out: Out, report: Report)
      requires InSync()
      modifies this, machine
      ensures machine.Valid() && machine.stored.Some? && machine.stored.value.steps == old(journal).steps
      ensures out == Fine ==> machine.stored.value.done && report.converged && |report.order| == |old(journal).steps|
      ensures out == Error ==> !report.converged && (machine.stored.value.done ==> old(journal).done)
      ensures old(machine.upsets) <= machine.upsets
      ensures out == Fine <==> machine.upsets == old(machine.upsets)
    {
      out := RestoreRecreated();
      if out == Fine { out := RunSteps(); }
      if out == Fine {
        journal := journal.(done := true);
        out := machine.Perform(Save(journal));
      }
      report := MakeReport(journal);
      if out != Fine { report := report.(converged := false); }
    }

    /** Runs the first open step and persists its outcome. */
    method RunNext(i: nat) returns (out: Out, failed: bool)
      requires Armed() && InSync() && IsNext(journal, i)
      modifies this`journal, machine
      ensures Armed() && SamePlan(journal, old(journal))
      ensures out == Fine ==> InSync()
      ensures out == Fine && !failed ==> forall h :: 0 <= h <= i ==> Settled(journal, journal.steps[h].root)
      ensures old(machine.upsets) <= machine.upsets
      ensures out == Fine && !failed <==> machine.upsets == old(machine.upsets)
    {
      var s := journal.steps[i];
      NextIsCaptured(machine.start, machine.log, s);
      var x;
      out, x := RunStep(s);
      failed := x.status == Failed;
      if out == Crash { return; }
      RunKeepsInv(machine.start, machine.log);
      SettledThrough(machine.stored.value, i, x);
      out := SaveResult(s, x);
    }

    /** The steps in plan order: settled ones are skipped, the first failure ends the loop. */
    method RunSteps() returns (out: Out)
      requires Armed() && InSync()
      modifies this`journal, machine
      ensures Armed() && SamePlan(journal, old(journal))
      ensures out == Fine ==> InSync() && AllSettled(journal)
      ensures old(machine.upsets) <= machine.upsets
      ensures out == Fine <==> machine.upsets == old(machine.upsets)
    {
      var steps := journal.steps;
      var failure := false;
      for i := 0 to |steps|
        invariant Armed() && InSync() && journal.steps == steps && SamePlan(journal, old(journal))
        invariant !failure ==> forall h :: 0 <= h < i ==> Settled(journal, steps[h].root)
        invariant old(machine.upsets) <= machine.upsets && (!failure <==> machine.upsets == old(machine.upsets))
      {
        var s := steps[i];
        if Settled(journal, s.root) { continue; }
        if failure { break; }
        assert IsNext(journal, i);
        out, failure := RunNext(i);
        if out != Fine { return; }
      }
      return if failure then Error else Fine;
    }

    method SaveResult(s: Step, x: StepResult) returns (out: Out)
      requires Recordable(s, x)
      modifies this`journal, machine
      ensures Armed() && SamePlan(journal, old(journal))
      ensures out == Fine ==> InSync() && journal == WithResult(old(machine.stored.value), s.root, x)
      ensures old(machine.upsets) <= machine.upsets
      ensures out == Fine <==> machine.upsets == old(machine.upsets)
    {
      ResultMayBeSaved(machine.Present(), s, x);
      journal := WithResult(journal, s.root, x);
      out := machine.Perform(Save(journal));
    }

    /** One invocation: prepare or resume, then execute. It may die anywhere and be repeated any number of times. */
    method Invoke(current: seq<Stack>, target: seq<Stack>, allowed: (string, Root) -> bool) returns (out: Out)
      requires machine.Valid() && DistinctStacks(current) && DistinctStacks(target)
      modifies this, machine
      ensures machine.Valid()
      ensures out == Fine ==> machine.stored.Some? && machine.stored.value.done
      ensures machine.stored.Some? && machine.stored.value.done && machine.log != [] ==>
        forall s :: s in machine.start.journal.steps && !Host(s) ==> Left(machine.start, machine.log, s)
      ensures old(machine.upsets) <= machine.upsets && (out == Fine ==> machine.upsets == old(machine.upsets))
      ensures machine.upsets == old(machine.upsets) && AllOwned(allowed, current, target) ==> out == Fine
    {
      var resumed;
      out, resumed := Prepare(current, target, allowed);
      if out == Fine {
        var report;
        out, report := Execute();
      }
      if machine.stored.Some? && machine.stored.value.done {
        ConvergedRollbackReachedCheckpoint(machine.start, machine.log);
      }
    }
  }

  /** The files of every recreated step still to be run are recorded, and its root exists. */
  ghost predicate RecreatedInPlace(j: Journal, d: Disk) {
    forall s :: s in j.steps && s.action == Recreated && !Settled(j, s.root) ==> Recorded(j, s.root) && s.root in d
  }

  lemma NothingToRebuild(w: World)
    requires forall s :: s in w.journal.steps && s.action == Recreated ==> !MayRebuild(w, s.root)
    ensures RecreatedInPlace(w.journal, w.disk)
  {
  }

  /** Recording every root that may be rebuilt leaves nothing to rebuild. */
  lemma RecordingPlaces(w: World, roots: set<Root>)
    requires forall r :: r in roots ==> Captured(w, r) && IsRecreated(w.journal, r)
    requires forall s :: s in w.journal.steps && s.action == Recreated && MayRebuild(w, s.root) ==> s.root in roots
    ensures RecreatedInPlace(WithRecorded(w.journal, roots), w.disk) && MaySave(w, WithRecorded(w.journal, roots))
  {
    var j := WithRecorded(w.journal, roots);
    assert RecordsRoots(w, j, roots);
    forall s | s in j.steps && s.action == Recreated && !Settled(j, s.root)
      ensures Recorded(j, s.root) && s.root in w.disk
    {
      if s.root in roots { assert Holds(w.disk, s.root, w.captured[s.root], StateFile); }
    }
  }

  /** In a run, the checkpoint captured every root that is to be restored or recreated. */
  lemma NextIsCaptured(start: World, log: seq<Event>, s: Step)
    requires Starts(start) && Run(start, log) && s in Now(start, log).journal.steps
    ensures Restores(s) ==> s.root in Now(start, log).captured
  {
    RunKeepsInv(start, log);
    assert StepOK(start, Now(start, log), s);
  }

  /** Settling the next step leaves every step up to it settled. */
  lemma SettledThrough(j: Journal, i: nat, x: StepResult)
    requires DistinctSteps(j.steps) && i < |j.steps| && NextIs(j, j.steps[i])
    ensures x.status in {Converged, Skipped} ==> forall h :: 0 <= h <= i ==>
      Settled(WithResult(j, j.steps[i].root, x), j.steps[h].root)
  {
    var n :| IsNext(j, n) && j.steps[n] == j.steps[i];
    assert n == i;
  }

  /** Every captured file is listed, and the state only at the end. */
  ghost predicate StateLast(f: RootFiles, writes: seq<FileKind>) {
    && (forall k :: Content(f, k).Some? ==> k in writes)
    && (forall i :: 0 <= i < |writes| && writes[i] == StateFile ==>
        forall k :: k != StateFile && Content(f, k).Some? ==> k in writes[..i])
  }

  lemma PayloadIsThere(d: Disk, r: Root, f: RootFiles, writes: seq<FileKind>, i: nat)
    requires i < |writes| && StateLast(f, writes) && forall k :: k in writes[..i] ==> Holds(d, r, f, k)
    ensures writes[i] == StateFile ==> forall k :: k != StateFile ==> Holds(d, r, f, k)
  {
  }

  lemma AllContentListed(f: RootFiles, writes: seq<FileKind>)
    requires |writes| >= 2 && writes[|writes| - 2] == ConfigFile && writes[|writes| - 1] == StateFile
    requires StateFile !in writes[..|writes| - 2]
    requires (f.lock.Some? ==> LockFile in writes[..|writes| - 2])
    requires (f.compose.Some? ==> ComposeFile in writes[..|writes| - 2])
    requires f.environment.Some? ==> EnvironmentFile in writes[..|writes| - 2]
    ensures StateLast(f, writes)
  {
    var n := |writes| - 2;
    assert writes == writes[..n] + [ConfigFile, StateFile];
    assert writes[..n + 1] == writes[..n] + [ConfigFile];
  }

  /** `states` replaces exactly the listed roots; one it does not hold is gone. */
  function Rebuilt(d: Disk, roots: set<Root>, states: Disk): Disk {
    map r | r in d.Keys + roots && (if r in roots then r in states else r in d) ::
      if r in roots then states[r] else d[r]
  }

  lemma RebuiltElsewhere(d: Disk, roots: set<Root>, states: Disk)
    ensures forall r :: r !in roots ==> Same(d, Rebuilt(d, roots, states), r)
  {
  }

  function RestoredRoots(captured: map<Root, RootFiles>, roots: set<Root>): Disk {
    map r | r in roots && r in captured :: RootState(true, CapturedFiles(captured[r]))
  }

  lemma RebuiltRootsAreCaptured(w: World, roots: set<Root>)
    requires forall r :: r in roots ==> r in w.captured
    ensures forall r :: r in roots ==>
      Captured(After(w, Rebuild(roots, Rebuilt(w.disk, roots, RestoredRoots(w.captured, roots)))), r)
  {
    var d := Rebuilt(w.disk, roots, RestoredRoots(w.captured, roots));
    forall r | r in roots ensures Captured(After(w, Rebuild(roots, d)), r) {
      CapturedFilesMatch(d, r, w.captured[r]);
      forall k ensures k in ALL_KINDS {
        match k
        case StateFile =>
        case ConfigFile =>
        case LockFile =>
        case ComposeFile =>
        case EnvironmentFile =>
      }
    }
  }

  function CapturedFiles(f: RootFiles): map<FileKind, string> {
    map k | k in ALL_KINDS && Content(f, k).Some? :: Content(f, k).value
  }

  lemma CapturedFilesMatch(d: Disk, r: Root, f: RootFiles)
    requires r in d && d[r].files == CapturedFiles(f)
    ensures Matches(d, r, f)
  {
    forall k ensures Holds(d, r, f, k) {
      match k case StateFile => case ConfigFile => case LockFile => case ComposeFile => case EnvironmentFile =>
    }
  }

  lemma ResultMayBeSaved(w: World, s: Step, x: StepResult)
    requires NextIs(w.journal, s) && ResultFits(w, s, x) && RecreatedRecorded(w.journal)
    ensures MaySave(w, WithResult(w.journal, s.root, x)) && RecreatedRecorded(WithResult(w.journal, s.root, x))
  {
  }

  /** Replacing the result of the next step by an unsettled one leaves it next. */
  lemma UnsettledStaysNext(j: Journal, s: Step, x: StepResult)
    requires NextIs(j, s) && x.status in {Unset, Failed}
    ensures NextIs(WithResult(j, s.root, x), s)
  {
    var i :| IsNext(j, i) && j.steps[i] == s;
    assert IsNext(WithResult(j, s.root, x), i);
  }

  lemma PlanStarts(d: Disk, captured: map<Root, RootFiles>, current: seq<Stack>, target: seq<Stack>, plan: seq<Step>)
    requires IsPlan(plan, d, captured, current, target) && DistinctStacks(current) && DistinctStacks(target)
    ensures Starts(World(d, Journal(plan, map[], false), map[], map[], captured))
  {
    PlanNamesEachRootOnce(plan, d, captured, current, target);
    CheckpointOnlyFacts(captured, current, target);
    forall s | s in plan && Restores(s) ensures s.root in captured {
      var i :| 0 <= i < |plan| && plan[i] == s;
      if i >= |current| { assert plan[i] == plan[|current|..][i - |current|]; }
    }
  }
}
