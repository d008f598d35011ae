/** A parent request split into child steps: building, checking and proving each step. */
module ApplyOperation {
  import opened Wrappers
  import opened Ordering
  import opened ExecutionModel
  import opened Sealing
  import opened RequestDraft
  import opened Invocation

  const OPERATION_VERSION := "kombify.runtime-apply-operation/v1alpha1"
  const MODE_NONE := "none"
  const MODE_EXPLICIT := "explicit"

  /** A requirement id with the instance or health target it is expected on. */
  type Expectation = (string, string)

  datatype Step = Step(
    id: string, requestDigest: string, planHash: string, manifestHash: string, generationReceiptHash: string,
    requirementsHash: string, evidenceBundleHash: string, artifactSetHash: string, executor: ExecutorIdentity,
    runtime: seq<Expectation>, health: seq<Expectation>, compensation: string)

  datatype Operation = Operation(
    apiVersion: string, operationId: string, parentRequestDigest: string, planHash: string, manifestHash: string,
    generationReceiptHash: string, requirementsHash: string, evidenceBundleHash: string, executor: ExecutorIdentity,
    steps: seq<Step>)

  function Requirement(e: Expectation): string { e.0 }
  function StepId(s: Step): string { s.id }
  predicate ByRequirement(a: Expectation, b: Expectation) { Less(a.0, b.0) }
  predicate ByStepId(a: Step, b: Step) { Less(a.id, b.id) }

  /** The sorts of the journal side; they need not be those of the executor side. */
  datatype StepSorts = StepSorts(expectations: seq<Expectation> -> seq<Expectation>, steps: seq<Step> -> seq<Step>)

  ghost predicate AreStepSorts(s: StepSorts) {
    SortsBy(s.expectations, ByRequirement) && SortsBy(s.steps, ByStepId)
  }

  predicate Mode(compensation: string) { compensation == MODE_NONE || compensation == MODE_EXPLICIT }

  // ---- Building a step ----

  predicate HealthTargetsRuntime(h: HealthTarget, t: RuntimeTarget) {
    && h.siteRefs == t.siteRefs && h.nodeRefs == t.nodeRefs
    && (if h.runtimeRequirementId != "" then h.runtimeRequirementId == t.requirementId else NamesOwner(h, t))
  }

  predicate NamesOwner(h: HealthTarget, t: RuntimeTarget) {
    || (h.targetKind == "module" && h.targetRef == t.moduleRef)
    || (h.targetKind == "provider" && h.targetRef == t.providerRef)
    || (h.targetKind == "runtime" && h.targetRef == t.instanceRef)
  }

  ghost predicate OneRuntime(h: HealthTarget, targets: seq<RuntimeTarget>) {
    exists i :: 0 <= i < |targets| && HealthTargetsRuntime(h, targets[i])
      && forall j :: 0 <= j < |targets| && HealthTargetsRuntime(h, targets[j]) ==> j == i
  }

  method HealthTargetsOneRuntime(h: HealthTarget, targets: seq<RuntimeTarget>) returns (one: bool)
    ensures one <==> OneRuntime(h, targets)
  {
    var matches := 0;
    ghost var first, second := 0, 0;
    for i := 0 to |targets|
      invariant matches == 0 ==> forall j :: 0 <= j < i ==> !HealthTargetsRuntime(h, targets[j])
      invariant matches >= 1 ==> 0 <= first < i && HealthTargetsRuntime(h, targets[first])
      invariant matches == 1 ==> forall j :: 0 <= j < i && HealthTargetsRuntime(h, targets[j]) ==> j == first
      invariant matches >= 2 ==> first < second < i && HealthTargetsRuntime(h, targets[second])
    {
      if HealthTargetsRuntime(h, targets[i]) {
        if matches == 0 { first := i; } else { second := i; }
        matches := matches + 1;
      }
    }
    return matches == 1;
  }

  ghost predicate Divisible(k: Rules, s: Sorts, r: Request, compensation: string) {
    Valid(k, s, r) && Mode(compensation) && forall h :: h in r.healthTargets ==> OneRuntime(h, r.runtimeTargets)
  }

  function StepOf(t: StepSorts, r: Request, compensation: string): Step {
    Step(r.requestDigest, r.requestDigest, r.planHash, r.manifestHash, r.generationReceiptHash, r.requirementsHash,
         r.evidenceBundleHash, r.artifactSetHash, r.executor,
         t.expectations(Map(RuntimeKey, r.runtimeTargets)), t.expectations(Map(HealthKey, r.healthTargets)),
           compensation)
  }

  method RuntimeExpectations(targets: seq<RuntimeTarget>) returns (r: seq<Expectation>)
    ensures r == Map(RuntimeKey, targets)
  {
    r := [];
    for i := 0 to |targets|
      invariant |r| == i && forall j :: 0 <= j < i ==> r[j] == RuntimeKey(targets[j])
    {
      r := r + [RuntimeKey(targets[i])];
    }
  }

  method HealthExpectations(health: seq<HealthTarget>, targets: seq<RuntimeTarget>)
    returns (r: Option<seq<Expectation>>)
    ensures r.Some? <==> forall h :: h in health ==> OneRuntime(h, targets)
    ensures r.Some? ==> r.value == Map(HealthKey, health)
  {
    var expected: seq<Expectation> := [];
    for i := 0 to |health|
      invariant |expected| == i
      invariant forall j :: 0 <= j < i ==> expected[j] == HealthKey(health[j]) && OneRuntime(health[j], targets)
    {
      var one := HealthTargetsOneRuntime(health[i], targets);
      if !one {
        assert health[i] in health;
        return None;
      }
      expected := expected + [HealthKey(health[i])];
    }
    return Some(expected);
  }

  /** The step names the request by its digest, carries its whole authority and expects its targets and health. */
  predicate Represents(step: Step, r: Request, compensation: string) {
    && step.id == step.requestDigest == r.requestDigest && step.compensation == compensation
    && step.executor == r.executor && step.planHash == r.planHash && step.manifestHash == r.manifestHash
    && step.generationReceiptHash == r.generationReceiptHash && step.requirementsHash == r.requirementsHash
    && step.evidenceBundleHash == r.evidenceBundleHash && step.artifactSetHash == r.artifactSetHash
    && multiset(step.runtime) == multiset(Map(RuntimeKey, r.runtimeTargets))
    && multiset(step.health) == multiset(Map(HealthKey, r.healthTargets))
  }

  /** The step of a valid request, each of whose health targets belongs to exactly one of its runtime targets. */
  method NewStep(k: Rules, s: Sorts, t: StepSorts, r: Request, compensation: string) returns (step: Option<Step>)
    requires TokensAreNulFree(k)
    ensures step.Some? <==>
      && Valid(k, s, r) && compensation in {MODE_NONE, MODE_EXPLICIT}
      && forall h :: h in r.healthTargets ==> OneRuntime(h, r.runtimeTargets)
    ensures step.Some? && AreStepSorts(t) ==> Represents(step.value, r, compensation)
    ensures step == if Divisible(k, s, r, compensation) then Some(StepOf(t, r, compensation)) else None
  {
    var valid := ValidateRequest(k, s, r);
    if !valid || !Mode(compensation) { return None; }
    var runtime := RuntimeExpectations(r.runtimeTargets);
    runtime := t.expectations(runtime);
    var health := HealthExpectations(r.healthTargets, r.runtimeTargets);
    if health == None { return None; }
    return Some(Step(r.requestDigest, r.requestDigest, r.planHash, r.manifestHash, r.generationReceiptHash,
                     r.requirementsHash,
                     r.evidenceBundleHash, r.artifactSetHash, r.executor,
                     runtime, t.expectations(health.value), compensation));
  }

  // ---- Proving a step ----

  predicate SameAuthority(step: Step, r: Result) {
    && r.executor == step.executor && r.planHash == step.planHash && r.manifestHash == step.manifestHash
    && r.generationReceiptHash == step.generationReceiptHash && r.requirementsHash == step.requirementsHash
    && r.evidenceBundleHash == step.evidenceBundleHash && r.artifactSetHash == step.artifactSetHash
    && r.requestDigest == step.requestDigest
  }

  predicate ProvesRuntime(expected: seq<Expectation>, actual: seq<RuntimeOutcome>) {
    Map(OutcomeKey, actual) == expected && forall o :: o in actual ==> o.status == STATUS_APPLIED
  }

  predicate ProvesHealth(expected: seq<Expectation>, actual: seq<HealthOutcome>) {
    Map(HealthOutcomeKey, actual) == expected && forall o :: o in actual ==> o.status == STATUS_HEALTHY
  }

  /** The result is the verified result of exactly this step. */
  ghost predicate Proves(k: Rules, step: Step, r: Result) {
    ResultOK(k, r) && SameAuthority(step, r) && ProvesRuntime(step.runtime, r.runtime) &&
      ProvesHealth(step.health, r.health)
  }

  method VerifyStepRuntime(expected: seq<Expectation>, actual: seq<RuntimeOutcome>) returns (ok: bool)
    ensures ok <==> ProvesRuntime(expected, actual)
  {
    if |actual| != |expected| { return false; }
    for i := 0 to |expected|
      invariant forall j :: 0 <= j < i ==> OutcomeKey(actual[j]) == expected[j] && actual[j].status == STATUS_APPLIED
    {
      if OutcomeKey(actual[i]) != expected[i] {
        assert Map(OutcomeKey, actual)[i] != expected[i];
        return false;
      }
      if actual[i].status != STATUS_APPLIED {
        assert actual[i] in actual;
        return false;
      }
    }
    assert Map(OutcomeKey, actual) == expected;
    return true;
  }

  method VerifyStepHealth(expected: seq<Expectation>, actual: seq<HealthOutcome>) returns (ok: bool)
    ensures ok <==> ProvesHealth(expected, actual)
  {
    if |actual| != |expected| { return false; }
    for i := 0 to |expected|
      invariant forall j :: 0 <= j < i ==>
        HealthOutcomeKey(actual[j]) == expected[j] && actual[j].status == STATUS_HEALTHY
    {
      if HealthOutcomeKey(actual[i]) != expected[i] {
        assert Map(HealthOutcomeKey, actual)[i] != expected[i];
        return false;
      }
      if actual[i].status != STATUS_HEALTHY {
        assert actual[i] in actual;
        return false;
      }
    }
    assert Map(HealthOutcomeKey, actual) == expected;
    return true;
  }

  method VerifyStepResult(k: Rules, step: Step, r: Result) returns (ok: bool)
    requires TokensAreNulFree(k)
    ensures ok <==> Proves(k, step, r)
  {
    ok := ValidateResult(k, r);
    if !ok { return; }
    if !SameAuthority(step, r) { return false; }
    ok := VerifyStepRuntime(step.runtime, r.runtime);
    if !ok { return; }
    ok := VerifyStepHealth(step.health, r.health);
  }

  // ---- Invoke and the journal agree ----

  function TargetRequirement(t: RuntimeTarget): string { t.requirementId }

  /** The order the journal expects is the order the request is sealed in. */
  lemma SortedExpectationsAreSealedOrder(k: Rules, s: Sorts, t: StepSorts, r: Request)
    requires TokensAreNulFree(k) && AreSorts(s) && AreStepSorts(t) && Valid(k, s, r)
    ensures Distinct(Map(TargetRequirement, r.runtimeTargets)) ==>
      t.expectations(Map(RuntimeKey, r.runtimeTargets)) == Map(RuntimeKey, r.runtimeTargets)
    ensures t.expectations(Map(HealthKey, r.healthTargets)) == Map(HealthKey, r.healthTargets)
  {
    SealedTokens(k, s, r);
    var keys, health := Map(RuntimeKey, r.runtimeTargets), Map(HealthKey, r.healthTargets);
    if Distinct(Map(TargetRequirement, r.runtimeTargets)) {
      DistinctRequirementsSortStrictly(r.runtimeTargets);
      SortedFormIsUnique(keys, t.expectations(keys), ByRequirement);
    }
    assert StrictlySorted(health, ByRequirement) by {
      forall i, j | 0 <= i < j < |health| ensures ByRequirement(health[i], health[j]) {
        assert HealthLess(r.healthTargets[i], r.healthTargets[j]);
      }
    }
    SortedFormIsUnique(health, t.expectations(health), ByRequirement);
  }

  lemma DistinctRequirementsSortStrictly(targets: seq<RuntimeTarget>)
    requires StrictlySorted(targets, TargetLess) && Distinct(Map(TargetRequirement, targets))
    ensures StrictlySorted(Map(RuntimeKey, targets), ByRequirement)
  {
    forall i, j | 0 <= i < j < |targets| ensures ByRequirement(RuntimeKey(targets[i]), RuntimeKey(targets[j])) {
      assert TargetLess(targets[i], targets[j]);
      assert Map(TargetRequirement, targets)[i] != Map(TargetRequirement, targets)[j];
    }
  }

  lemma AnswersKeys(k: Rules, r: Request, o: Outcome)
    requires Answers(k, r, o)
    ensures Map(OutcomeKey, o.runtime) == Map(RuntimeKey, r.runtimeTargets)
    ensures Map(HealthOutcomeKey, o.health) == Map(HealthKey, r.healthTargets)
    ensures forall x :: x in o.runtime ==> x.status == STATUS_APPLIED
    ensures forall x :: x in o.health ==> x.status == STATUS_HEALTHY
  {
    forall i | 0 <= i < |o.runtime| ensures OutcomeKey(o.runtime[i]) == RuntimeKey(r.runtimeTargets[i]) {
      assert RuntimeAnswer(k, r.runtimeTargets[i], o.runtime[i]);
    }
    forall i | 0 <= i < |o.health| ensures HealthOutcomeKey(o.health[i]) == HealthKey(r.healthTargets[i]) {
      assert HealthAnswer(k, r.healthTargets[i], o.health[i]);
    }
  }

  /** An invocation's result proves its own step exactly when the journal's sort left the sealed order alone. */
  lemma InvokedResultProvesStepExactly(k: Rules, s: Sorts, t: StepSorts, r: Request, o: Outcome, compensation: string)
    requires TokensAreNulFree(k) && AreSorts(s) && AreStepSorts(t) && Divisible(k, s, r, compensation)
    requires ExactOutcome(k, r, o) && ResultOK(k, ResultOf(k, r, o))
    ensures Proves(k, StepOf(t, r, compensation), ResultOf(k, r, o)) <==>
      t.expectations(Map(RuntimeKey, r.runtimeTargets)) == Map(RuntimeKey, r.runtimeTargets)
  {
    OutcomeCheckMeansAnswers(k, s, r, o);
    AnswersKeys(k, r, o);
    SortedExpectationsAreSealedOrder(k, s, t, r);
  }

  /** With distinct requirement ids every completed invocation proves the step built from the same request. */
  lemma InvokeAndJournalAgree(k: Rules, s: Sorts, t: StepSorts, r: Request, o: Outcome, compensation: string)
    requires TokensAreNulFree(k) && AreSorts(s) && AreStepSorts(t) && Divisible(k, s, r, compensation)
    requires Distinct(Map(TargetRequirement, r.runtimeTargets))
    requires ExactOutcome(k, r, o) && ResultOK(k, ResultOf(k, r, o))
    ensures Proves(k, StepOf(t, r, compensation), ResultOf(k, r, o))
  {
    SortedExpectationsAreSealedOrder(k, s, t, r);
    InvokedResultProvesStepExactly(k, s, t, r, o, compensation);
  }

  /** Targets in sealed order with a repeated requirement id: some legal sort makes the journal refuse every result. */
  lemma RepeatedRequirementCanDisagree(t: StepSorts, targets: seq<RuntimeTarget>)
    requires AreStepSorts(t) && StrictlySorted(targets, TargetLess) && !Distinct(Map(TargetRequirement, targets))
    ensures exists t' :: AreStepSorts(t') && t'.expectations(Map(RuntimeKey, targets)) != Map(RuntimeKey, targets)
  {
    var i, j :| 0 <= i < j < |targets| && Map(TargetRequirement, targets)[i] == Map(TargetRequirement, targets)[j];
    TargetKeysAreStrict(targets);
    TieHasAnotherSort(t, Map(RuntimeKey, targets), i, j);
  }

  lemma TieHasAnotherSort(t: StepSorts, keys: seq<Expectation>, i: nat, j: nat)
    requires AreStepSorts(t) && StrictlySorted(keys, PairLess) && i < j < |keys| && keys[i].0 == keys[j].0
    ensures exists t' :: AreStepSorts(t') && t'.expectations(keys) != keys
  {
    AdjacentTie(keys, i, j);
    var swapped := keys[..i] + [keys[i + 1], keys[i]] + keys[i + 2..];
    SwapKeepsSorted(keys, i);
    assert PairLess(keys[i], keys[i + 1]);
    PairLessIrreflexive(keys[i]);
    assert swapped[i] != keys[i];
    var t' := t.(expectations := (l: seq<Expectation>) => if l == keys then swapped else t.expectations(l));
    assert SortsBy(t'.expectations, ByRequirement);
    assert AreStepSorts(t') && t'.expectations(keys) != keys;
  }

  lemma PairLessIrreflexive(p: (string, string))
    ensures !PairLess(p, p)
  {
    LessIrreflexive(p.0);
    LessIrreflexive(p.1);
  }

  lemma TargetKeysAreStrict(targets: seq<RuntimeTarget>)
    requires StrictlySorted(targets, TargetLess)
    ensures StrictlySorted(Map(RuntimeKey, targets), PairLess)
  {
    forall i, j | 0 <= i < j < |targets| ensures PairLess(RuntimeKey(targets[i]), RuntimeKey(targets[j])) {
      assert TargetLess(targets[i], targets[j]);
    }
  }

  lemma AdjacentTie(keys: seq<Expectation>, i: nat, j: nat)
    requires StrictlySorted(keys, PairLess) && i < j < |keys| && keys[i].0 == keys[j].0
    ensures keys[i + 1].0 == keys[i].0
  {
    if i + 1 < j {
      assert PairLess(keys[i], keys[i + 1]) && PairLess(keys[i + 1], keys[j]);
      if Less(keys[i].0, keys[i + 1].0) { LessAsymmetric(keys[i].0, keys[i + 1].0); }
    }
  }

  lemma SwapKeepsSorted(keys: seq<Expectation>, i: nat)
    requires StrictlySorted(keys, PairLess) && i + 1 < |keys| && keys[i + 1].0 == keys[i].0
    ensures var swapped := keys[..i] + [keys[i + 1], keys[i]] + keys[i + 2..];
            multiset(swapped) == multiset(keys) && Sorted(swapped, ByRequirement)
  {
    var swapped := keys[..i] + [keys[i + 1], keys[i]] + keys[i + 2..];
    assert keys == keys[..i] + [keys[i], keys[i + 1]] + keys[i + 2..];
    var ids, swappedIds := Map(Requirement, keys), Map(Requirement, swapped);
    assert ids == swappedIds;
    forall a, b | 0 <= a < b < |swapped| ensures !ByRequirement(swapped[b], swapped[a]) {
      assert PairLess(keys[a], keys[b]);
      LessIrreflexive(ids[a]);
      if Less(ids[a], ids[b]) { LessAsymmetric(ids[a], ids[b]); }
      assert swappedIds[a] == ids[a] && swappedIds[b] == ids[b];
    }
  }
}
