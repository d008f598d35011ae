/** Accepted operations a durable journal takes and can be stranded with: any parent split into steps of both modes. */
module StrandedExample {
  import opened Ordering
  import opened ExecutionModel
  import opened RequestChecks
  import opened Invocation
  import opened ApplyOperation
  import opened ApplyCoverage
  import opened ApplyJournal
  import opened StuckRuns
  import opened OperationShape
  import opened SortWitness
  import opened SealExample
  import opened JournalAgreement

  const EXECUTOR := ExecutorIdentity("e", "v", "d")

  /** The instances whose steps declare compensation. */
  const REVOCABLE := "undo"

  function ModeOf(t: RuntimeTarget): string { if t.instanceRef == REVOCABLE then MODE_EXPLICIT else MODE_NONE }

  function CheckOf(t: RuntimeTarget): HealthTarget { PlacedHealth(t.requirementId, t.instanceRef) }

  function PlacedParent(targets: seq<RuntimeTarget>): Request { PlacedRequest(targets, Map(CheckOf, targets)) }

  /** One step for one placed target and its health check. */
  function PlacedStep(t: RuntimeTarget): Step {
    Step(t.requirementId, t.requirementId, "d", "d", "d", "d", "d", "d", EXECUTOR, [RuntimeKey(t)], [RuntimeKey(t)],
      ModeOf(t))
  }

  function PlacedOperation(targets: seq<RuntimeTarget>): Operation {
    Operation(OPERATION_VERSION, "d", "d", "d", "d", "d", "d", "d", EXECUTOR, Map(PlacedStep, targets))
  }

  function PlacedResult(t: RuntimeTarget): Result {
    Result(API_VERSION, EXECUTOR, "d", "d", "d", "d", "d", "d", t.requirementId,
           [RuntimeOutcome(t.requirementId, t.instanceRef, STATUS_APPLIED, OBSERVED)],
           [HealthOutcome(t.requirementId, t.instanceRef, STATUS_HEALTHY, OBSERVED)], "d")
  }

  /** Each target has a requirement of its own. */
  ghost predicate OwnRequirements(targets: seq<RuntimeTarget>) {
    Placed(targets) && Distinct(Map(TargetRequirement, targets))
  }

  // ---- The operation is accepted ----

  lemma {:induction false} PlacedExpectations(targets: seq<RuntimeTarget>)
    ensures AllRuntime(Map(PlacedStep, targets)) == Map(RuntimeKey, targets)
    ensures AllHealth(Map(PlacedStep, targets)) == Map(RuntimeKey, targets)
  {
    if targets != [] {
      var init, last := targets[..|targets| - 1], targets[|targets| - 1];
      PlacedExpectations(init);
      StepAppended(Map(PlacedStep, init), PlacedStep(last));
      assert Map(PlacedStep, targets) == Map(PlacedStep, init) + [PlacedStep(last)];
      assert Map(RuntimeKey, targets) == Map(RuntimeKey, init) + [RuntimeKey(last)];
    }
  }

  lemma PlacedStepsSorted(targets: seq<RuntimeTarget>)
    requires OwnRequirements(targets)
    ensures StepsSorted(Map(PlacedStep, targets)) && StrictlySorted(Map(RuntimeKey, targets), ByRequirement)
  {
    var steps, keys := Map(PlacedStep, targets), Map(RuntimeKey, targets);
    DistinctRequirementsSortStrictly(targets);
    forall h, i | 0 <= h < i < |steps| && h == i - 1 ensures Less(steps[h].id, steps[i].id) {
      assert ByRequirement(keys[h], keys[i]);
    }
  }

  lemma ChecksAreSorted(targets: seq<RuntimeTarget>)
    requires OwnRequirements(targets)
    ensures Checked(Map(CheckOf, targets))
  {
    var health, keys := Map(CheckOf, targets), Map(RuntimeKey, targets);
    PlacedStepsSorted(targets);
    forall i, j | 0 <= i < j < |health| ensures HealthLess(health[i], health[j]) {
      assert ByRequirement(keys[i], keys[j]);
    }
    forall i | 0 <= i < |health|
      ensures Token(health[i].requirementId) && Token(health[i].targetRef)
    {
      assert targets[i] in targets;
    }
  }

  lemma PlacedTargetIsBound(targets: seq<RuntimeTarget>, t: RuntimeTarget)
    requires Distinct(Map(TargetRequirement, targets)) && t in targets
    ensures BindsTarget(targets, RuntimeKey(t))
  {
    var ids := Map(TargetRequirement, targets);
    var i :| 0 <= i < |targets| && targets[i] == t;
    forall j | i < j < |targets| ensures targets[j].requirementId != t.requirementId { assert ids[i] != ids[j]; }
    assert LastWith(targets, t.requirementId, t);
  }

  lemma PlacedStepFits(targets: seq<RuntimeTarget>, t: RuntimeTarget)
    requires OwnRequirements(targets) && t in targets
    ensures StepFits(LENIENT, PlacedParent(targets), PlacedStep(t)) && ChecksHealth(PlacedStep(t))
  {
    PlacedTargetIsBound(targets, t);
  }

  lemma PlacedStepsFit(targets: seq<RuntimeTarget>)
    requires OwnRequirements(targets)
    ensures forall step :: step in Map(PlacedStep, targets) ==>
      StepFits(LENIENT, PlacedParent(targets), step) && ChecksHealth(step)
  {
    var steps := Map(PlacedStep, targets);
    forall i | 0 <= i < |steps|
      ensures StepFits(LENIENT, PlacedParent(targets), steps[i]) && ChecksHealth(steps[i])
    {
      PlacedStepFits(targets, targets[i]);
    }
  }

  lemma PlacedKeysDiffer(targets: seq<RuntimeTarget>)
    requires OwnRequirements(targets)
    ensures Distinct(Map(RuntimeKey, targets))
  {
    var ids := Map(TargetRequirement, targets);
    forall i, j | 0 <= i < j < |targets| ensures RuntimeKey(targets[i]) != RuntimeKey(targets[j]) {
      assert ids[i] != ids[j];
    }
  }

  lemma PlacedStepsCover(targets: seq<RuntimeTarget>)
    requires OwnRequirements(targets)
    ensures StepsCover(LENIENT, PlacedParent(targets), Map(PlacedStep, targets))
  {
    var steps := Map(PlacedStep, targets);
    PlacedExpectations(targets);
    PlacedStepsFit(targets);
    PlacedKeysDiffer(targets);
    assert Map(StepId, steps) == Map(TargetRequirement, targets);
    assert Map(Requirement, Map(RuntimeKey, targets)) == Map(TargetRequirement, targets);
    forall h | h in Map(CheckOf, targets) ensures HealthKey(h) in Map(RuntimeKey, targets) {
      var i :| 0 <= i < |targets| && Map(CheckOf, targets)[i] == h;
      assert Map(RuntimeKey, targets)[i] == HealthKey(h);
    }
  }

  /** Accepted for its parent, and in the shape the durable journal asks for. */
  lemma PlacedOperationIsJournaled(s: Sorts, targets: seq<RuntimeTarget>)
    requires AreSorts(s) && OwnRequirements(targets)
    ensures OperationAccepted(LENIENT, s, PlacedParent(targets), PlacedOperation(targets))
    ensures ShapeOK(LENIENT, PlacedOperation(targets))
  {
    ChecksAreSorted(targets);
    PlacedRequestIsValid(s, targets, Map(CheckOf, targets));
    PlacedStepsCover(targets);
    PlacedStepsSorted(targets);
    PlacedStepsFit(targets);
    AcceptedIsJournaledExactly(LENIENT, s, PlacedParent(targets), PlacedOperation(targets));
  }

  // ---- When it can be stranded ----

  lemma PlacedStepIsProven(t: RuntimeTarget)
    requires Token(t.requirementId) && Token(t.instanceRef)
    ensures Proves(LENIENT, PlacedStep(t), PlacedResult(t))
  {
  }

  predicate Both(targets: seq<RuntimeTarget>) {
    && |targets| >= 3 && (exists t :: t in targets && t.instanceRef == REVOCABLE)
    && exists t :: t in targets && t.instanceRef != REVOCABLE
  }

  lemma PlacedCanBeStranded(targets: seq<RuntimeTarget>)
    requires Placed(targets) && Both(targets)
    ensures exists x :: Stuck(LENIENT, PlacedOperation(targets), x)
  {
    var o := PlacedOperation(targets);
    var i :| 0 <= i < |targets| && targets[i].instanceRef == REVOCABLE;
    var j :| 0 <= j < |targets| && targets[j].instanceRef != REVOCABLE;
    assert targets[i] in targets && targets[j] in targets;
    PlacedStepIsProven(targets[i]);
    PlacedStepIsProven(targets[j]);
    assert Revocable(LENIENT, o.steps[i], PlacedResult(targets[i]));
    assert Irrevocable(LENIENT, o.steps[j], PlacedResult(targets[j]));
    StrandedExactly(LENIENT, o);
  }

  lemma StrandedNeedsBoth(targets: seq<RuntimeTarget>, x: Snapshot)
    requires Stuck(LENIENT, PlacedOperation(targets), x)
    ensures Both(targets)
  {
    var o := PlacedOperation(targets);
    StrandedExactly(LENIENT, o);
    var i, result :| 0 <= i < |o.steps| && Revocable(LENIENT, o.steps[i], result);
    var j, kept :| 0 <= j < |o.steps| && Irrevocable(LENIENT, o.steps[j], kept);
    assert targets[i] in targets && targets[j] in targets;
  }

  /** Such an operation is always accepted and journaled, and can be stranded exactly when it has three steps of both
      modes. */
  lemma AcceptedIsStrandedExactly(s: Sorts, targets: seq<RuntimeTarget>)
    requires AreSorts(s) && OwnRequirements(targets)
    ensures OperationAccepted(LENIENT, s, PlacedParent(targets), PlacedOperation(targets))
    ensures ShapeOK(LENIENT, PlacedOperation(targets))
    ensures (exists x :: Stuck(LENIENT, PlacedOperation(targets), x)) <==> Both(targets)
  {
    PlacedOperationIsJournaled(s, targets);
    if Both(targets) { PlacedCanBeStranded(targets); }
    if x :| Stuck(LENIENT, PlacedOperation(targets), x) { StrandedNeedsBoth(targets, x); }
  }

  function ThreeTargets(): seq<RuntimeTarget> {
    [PlacedTarget("a", REVOCABLE), PlacedTarget("b", "i"), PlacedTarget("c", "i")]
  }

  lemma ThreeTargetsAreOrdered()
    ensures StrictlySorted(ThreeTargets(), TargetLess)
  {
    var l := ThreeTargets();
    assert Less("a", "b") && Less("b", "c") && Less("a", "c");
    assert TargetLess(l[0], l[1]) && TargetLess(l[1], l[2]) && TargetLess(l[0], l[2]);
  }

  lemma ThreeTargetsExist()
    ensures OwnRequirements(ThreeTargets()) && Both(ThreeTargets())
  {
    var l := ThreeTargets();
    ThreeTargetsAreOrdered();
    assert Map(TargetRequirement, l) == ["a", "b", "c"];
    assert l[0] in l && l[1] in l;
  }

  /** A durable journal can hold an accepted operation that nothing ends. */
  lemma SomeAcceptedOperationIsStranded()
    ensures exists k, s, parent, o, x ::
      TokensAreNulFree(k) && AreSorts(s) && OperationAccepted(k, s, parent, o) && ShapeOK(k, o) && Stuck(k, o, x)
  {
    SortsExist();
    ThreeTargetsExist();
    AcceptedIsStrandedExactly(SomeSorts(), ThreeTargets());
  }
}
