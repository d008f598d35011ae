/** A completed operation, replayed: its journaled outcomes are what the parent request demands. */
module ApplyReplay {
  import opened Ordering
  import opened ExecutionModel
  import opened Sealing
  import opened Invocation
  import opened ApplyOperation
  import opened ApplyCoverage
  import opened ApplyJournal

  function JournaledRuntime(steps: seq<StepSnapshot>): seq<RuntimeOutcome>
    requires forall i :: 0 <= i < |steps| ==> steps[i].result.Some?
  {
    if steps == [] then [] else JournaledRuntime(steps[..|steps| - 1]) + steps[|steps| - 1].result.value.runtime
  }

  function JournaledHealth(steps: seq<StepSnapshot>): seq<HealthOutcome>
    requires forall i :: 0 <= i < |steps| ==> steps[i].result.Some?
  {
    if steps == [] then [] else JournaledHealth(steps[..|steps| - 1]) + steps[|steps| - 1].result.value.health
  }

  ghost predicate AllProven(k: Rules, steps: seq<Step>, x: seq<StepSnapshot>) {
    |x| == |steps| && forall i :: 0 <= i < |x| ==> x[i].result.Some? && Proves(k, steps[i], x[i].result.value)
  }

  lemma MapOutcomes(a: seq<RuntimeOutcome>, b: seq<RuntimeOutcome>)
    ensures Map(OutcomeKey, a + b) == Map(OutcomeKey, a) + Map(OutcomeKey, b)
  {
  }

  lemma MapHealthOutcomes(a: seq<HealthOutcome>, b: seq<HealthOutcome>)
    ensures Map(HealthOutcomeKey, a + b) == Map(HealthOutcomeKey, a) + Map(HealthOutcomeKey, b)
  {
  }

  /** The outcomes are, in order, what the steps expect, all applied and all healthy. */
  ghost predicate ExactlyExpected(steps: seq<Step>, runtime: seq<RuntimeOutcome>, health: seq<HealthOutcome>) {
    && Map(OutcomeKey, runtime) == AllRuntime(steps) && Map(HealthOutcomeKey, health) == AllHealth(steps)
    && (forall r :: r in runtime ==> r.status == STATUS_APPLIED)
    && (forall h :: h in health ==> h.status == STATUS_HEALTHY)
  }

  lemma {:induction false} ExpectedNext(steps: seq<Step>, step: Step, runtime: seq<RuntimeOutcome>,
                                        health: seq<HealthOutcome>, r: Result)
    requires ExactlyExpected(steps, runtime, health)
    requires ProvesRuntime(step.runtime, r.runtime) && ProvesHealth(step.health, r.health)
    ensures ExactlyExpected(steps + [step], runtime + r.runtime, health + r.health)
  {
    StepAppended(steps, step);
    MapOutcomes(runtime, r.runtime);
    MapHealthOutcomes(health, r.health);
  }

  /** The journaled outcomes are exactly what the steps expect. */
  lemma {:induction false} JournaledMatchesSteps(k: Rules, steps: seq<Step>, x: seq<StepSnapshot>)
    requires AllProven(k, steps, x)
    ensures ExactlyExpected(steps, JournaledRuntime(x), JournaledHealth(x))
  {
    if x != [] {
      var n := |x| - 1;
      JournaledMatchesSteps(k, steps[..n], x[..n]);
      var last := x[n].result.value;
      assert Proves(k, steps[n], last);
      ExpectedNext(steps[..n], steps[n], JournaledRuntime(x[..n]), JournaledHealth(x[..n]), last);
      assert steps[..n] + [steps[n]] == steps;
    }
  }

  ghost predicate CompletedReplay(k: Rules, s: Sorts, parent: Request, o: Operation, r: Reservation) {
    && r.disposition == Replay && r.snapshot.Some? && r.snapshot.value.state == OperationState.Completed
    && OperationAccepted(k, s, parent, o) && ReservationOK(k, o, r)
  }

  lemma ReplayIsProven(k: Rules, s: Sorts, parent: Request, o: Operation, r: Reservation)
    requires CompletedReplay(k, s, parent, o, r)
    ensures AllProven(k, o.steps, r.snapshot.value.steps)
  {
    CompletedIsProven(k, o, r.snapshot.value);
  }

  lemma CompletedIsProven(k: Rules, o: Operation, x: Snapshot)
    requires SnapshotOK(k, o, x) && x.state == OperationState.Completed
    ensures AllProven(k, o.steps, x.steps)
  {
    forall i | 0 <= i < |x.steps| ensures x.steps[i].result.Some? && Proves(k, o.steps[i], x.steps[i].result.value) {
      assert StepSnapshotOK(k, o.steps[i], x.steps[i]);
    }
  }

  /** An accepted completed replay: the journaled outcomes are the parent's targets and health
      checks, each exactly once. */
  lemma CompletedReplayProvesParent(k: Rules, s: Sorts, parent: Request, o: Operation, r: Reservation)
    requires CompletedReplay(k, s, parent, o, r)
    ensures AllProven(k, o.steps, r.snapshot.value.steps)
    ensures var x := r.snapshot.value.steps;
      && multiset(Map(OutcomeKey, JournaledRuntime(x))) == multiset(Map(RuntimeKey, parent.runtimeTargets))
      && multiset(Map(HealthOutcomeKey, JournaledHealth(x))) == multiset(Map(HealthKey, parent.healthTargets))
      && (forall a :: a in JournaledRuntime(x) ==> a.status == STATUS_APPLIED)
      && (forall h :: h in JournaledHealth(x) ==> h.status == STATUS_HEALTHY)
    ensures Distinct(Map(TargetRequirement, parent.runtimeTargets)) && Distinct(Map(HealthId, parent.healthTargets))
    ensures forall i :: 0 <= i < |o.steps| ==>
      SameAuthority(o.steps[i], r.snapshot.value.steps[i].result.value) && StepAuthority(k, parent, o.steps[i])
  {
    ReplayIsProven(k, s, parent, o, r);
    var x := r.snapshot.value.steps;
    JournaledMatchesSteps(k, o.steps, x);
    CoverageIsPartition(k, parent, o.steps);
    forall i | 0 <= i < |o.steps|
      ensures SameAuthority(o.steps[i], x[i].result.value) && StepAuthority(k, parent, o.steps[i])
    {
      assert Proves(k, o.steps[i], x[i].result.value);
      assert o.steps[i] in o.steps;
    }
  }

  // ---- The merged outcome answers the parent ----

  predicate JoinedLess(a: (string, string), b: (string, string)) { Less(Joined(a), Joined(b)) }
  predicate OutcomeLess(a: RuntimeOutcome, b: RuntimeOutcome) { JoinedLess(OutcomeKey(a), OutcomeKey(b)) }
  predicate HealthOutcomeLess(a: HealthOutcome, b: HealthOutcome) { Less(a.requirementId, b.requirementId) }

  /** The outcomes of all children, in any order, put through the final sorts. */
  ghost predicate Merges(k: Rules, steps: seq<Step>, x: seq<StepSnapshot>, merged: Outcome) {
    && AllProven(k, steps, x)
    && multiset(merged.runtime) == multiset(JournaledRuntime(x)) && Sorted(merged.runtime, OutcomeLess)
    && multiset(merged.health) == multiset(JournaledHealth(x)) && Sorted(merged.health, HealthOutcomeLess)
  }

  lemma {:induction false} JournaledAreWellFormed(k: Rules, steps: seq<Step>, x: seq<StepSnapshot>)
    requires AllProven(k, steps, x)
    ensures forall a :: a in JournaledRuntime(x) ==> RuntimeOutcomeOK(k, a)
    ensures forall h :: h in JournaledHealth(x) ==> HealthOutcomeOK(k, h)
  {
    if x != [] {
      var n := |x| - 1;
      JournaledAreWellFormed(k, steps[..n], x[..n]);
      ProvenIsWellFormed(k, steps[n], x[n].result.value);
    }
  }

  lemma ProvenIsWellFormed(k: Rules, step: Step, r: Result)
    requires Proves(k, step, r)
    ensures forall a :: a in r.runtime ==> RuntimeOutcomeOK(k, a)
    ensures forall h :: h in r.health ==> HealthOutcomeOK(k, h)
  {
    forall a | a in r.runtime ensures RuntimeOutcomeOK(k, a) {
      var i :| 0 <= i < |r.runtime| && r.runtime[i] == a;
    }
    forall h | h in r.health ensures HealthOutcomeOK(k, h) {
      var i :| 0 <= i < |r.health| && r.health[i] == h;
    }
  }

  /** Sorted outcomes whose keys are those of strictly ordered targets stand target by target. */
  lemma MergedRuntimeKeys(targets: seq<RuntimeTarget>, merged: seq<RuntimeOutcome>)
    requires StrictlySorted(targets, TargetLess) && Sorted(merged, OutcomeLess)
    requires forall i :: 0 <= i < |targets| ==> NulFree(targets[i].requirementId) && NulFree(targets[i].instanceRef)
    requires multiset(Map(OutcomeKey, merged)) == multiset(Map(RuntimeKey, targets))
    ensures Map(OutcomeKey, merged) == Map(RuntimeKey, targets)
  {
    var keys, found := Map(RuntimeKey, targets), Map(OutcomeKey, merged);
    forall i, j | 0 <= i < j < |keys| ensures JoinedLess(keys[i], keys[j]) {
      assert TargetLess(targets[i], targets[j]);
      JoinedKeysOrderLikePairs(keys[i], keys[j]);
    }
    forall i, j | 0 <= i < j < |found| ensures !JoinedLess(found[j], found[i]) {
      assert !OutcomeLess(merged[j], merged[i]);
    }
    SortedFormIsUnique(keys, found, JoinedLess);
  }

  lemma MergedHealthKeys(targets: seq<HealthTarget>, merged: seq<HealthOutcome>)
    requires StrictlySorted(targets, HealthLess) && Sorted(merged, HealthOutcomeLess)
    requires multiset(Map(HealthOutcomeKey, merged)) == multiset(Map(HealthKey, targets))
    ensures Map(HealthOutcomeKey, merged) == Map(HealthKey, targets)
  {
    var keys, found := Map(HealthKey, targets), Map(HealthOutcomeKey, merged);
    forall i, j | 0 <= i < j < |keys| ensures ByRequirement(keys[i], keys[j]) {
      assert HealthLess(targets[i], targets[j]);
    }
    forall i, j | 0 <= i < j < |found| ensures !ByRequirement(found[j], found[i]) {
      assert !HealthOutcomeLess(merged[j], merged[i]);
    }
    SortedFormIsUnique(keys, found, ByRequirement);
  }

  lemma KeyedOutcomeAnswers(k: Rules, parent: Request, merged: Outcome)
    requires Map(OutcomeKey, merged.runtime) == Map(RuntimeKey, parent.runtimeTargets)
    requires Map(HealthOutcomeKey, merged.health) == Map(HealthKey, parent.healthTargets)
    requires forall a :: a in merged.runtime ==> RuntimeOutcomeOK(k, a)
    requires forall h :: h in merged.health ==> HealthOutcomeOK(k, h)
    ensures Answers(k, parent, merged)
  {
    var runtime, health := Map(OutcomeKey, merged.runtime), Map(HealthOutcomeKey, merged.health);
    assert |runtime| == |parent.runtimeTargets| && |health| == |parent.healthTargets|;
    forall i | 0 <= i < |merged.runtime| ensures RuntimeAnswer(k, parent.runtimeTargets[i], merged.runtime[i]) {
      assert runtime[i] == RuntimeKey(parent.runtimeTargets[i]) && merged.runtime[i] in merged.runtime;
    }
    forall i | 0 <= i < |merged.health| ensures HealthAnswer(k, parent.healthTargets[i], merged.health[i]) {
      assert health[i] == HealthKey(parent.healthTargets[i]) && merged.health[i] in merged.health;
    }
  }

  /** The completed snapshot of an accepted operation. */
  ghost predicate CompletedFor(k: Rules, s: Sorts, parent: Request, o: Operation, x: Snapshot) {
    x.state == OperationState.Completed && SnapshotOK(k, o, x) && OperationAccepted(k, s, parent, o)
  }

  lemma AcceptedPartitions(k: Rules, s: Sorts, parent: Request, o: Operation)
    requires OperationAccepted(k, s, parent, o)
    ensures Partitions(parent, o.steps)
  {
    CoverageIsPartition(k, parent, o.steps);
  }

  lemma CompletedOutcomes(k: Rules, parent: Request, o: Operation, x: seq<StepSnapshot>)
    requires Partitions(parent, o.steps) && AllProven(k, o.steps, x)
    ensures multiset(Map(OutcomeKey, JournaledRuntime(x))) == multiset(Map(RuntimeKey, parent.runtimeTargets))
    ensures multiset(Map(HealthOutcomeKey, JournaledHealth(x))) == multiset(Map(HealthKey, parent.healthTargets))
  {
    JournaledMatchesSteps(k, o.steps, x);
  }

  lemma MergedKeepsOutcomes(k: Rules, steps: seq<Step>, x: seq<StepSnapshot>, merged: Outcome)
    requires Merges(k, steps, x, merged)
    ensures forall a :: a in merged.runtime ==> RuntimeOutcomeOK(k, a)
    ensures forall h :: h in merged.health ==> HealthOutcomeOK(k, h)
    ensures multiset(Map(OutcomeKey, merged.runtime)) == multiset(Map(OutcomeKey, JournaledRuntime(x)))
    ensures multiset(Map(HealthOutcomeKey, merged.health)) == multiset(Map(HealthOutcomeKey, JournaledHealth(x)))
  {
    JournaledAreWellFormed(k, steps, x);
    MapPermutation(OutcomeKey, merged.runtime, JournaledRuntime(x));
    MapPermutation(HealthOutcomeKey, merged.health, JournaledHealth(x));
    forall a | a in merged.runtime ensures RuntimeOutcomeOK(k, a) { assert a in multiset(merged.runtime); }
    forall h | h in merged.health ensures HealthOutcomeOK(k, h) { assert h in multiset(merged.health); }
  }

  /** What the outcomes have to line up with. */
  ghost predicate Ordered(parent: Request) {
    && StrictlySorted(parent.runtimeTargets, TargetLess) && StrictlySorted(parent.healthTargets, HealthLess)
    && forall i :: 0 <= i < |parent.runtimeTargets| ==>
         NulFree(parent.runtimeTargets[i].requirementId) && NulFree(parent.runtimeTargets[i].instanceRef)
  }

  lemma SealedIsOrdered(k: Rules, s: Sorts, parent: Request)
    requires TokensAreNulFree(k) && AreSorts(s) && Valid(k, s, parent)
    ensures Ordered(parent)
  {
    SealedTokens(k, s, parent);
  }

  lemma SortedOutcomeAnswers(k: Rules, parent: Request, merged: Outcome)
    requires Ordered(parent)
    requires Sorted(merged.runtime, OutcomeLess) && Sorted(merged.health, HealthOutcomeLess)
    requires forall a :: a in merged.runtime ==> RuntimeOutcomeOK(k, a)
    requires forall h :: h in merged.health ==> HealthOutcomeOK(k, h)
    requires multiset(Map(OutcomeKey, merged.runtime)) == multiset(Map(RuntimeKey, parent.runtimeTargets))
    requires multiset(Map(HealthOutcomeKey, merged.health)) == multiset(Map(HealthKey, parent.healthTargets))
    ensures Answers(k, parent, merged)
  {
    MergedRuntimeKeys(parent.runtimeTargets, merged.runtime);
    MergedHealthKeys(parent.healthTargets, merged.health);
    KeyedOutcomeAnswers(k, parent, merged);
  }

  /**
   * The circle closes: split a parent into steps, journal their results to completion, merge and sort them in any way,
   * and the merged outcome passes the exact-outcome check of the parent, target by target.
   */
  lemma MergedOutcomeAnswersParent(k: Rules, s: Sorts, parent: Request, o: Operation, x: Snapshot, merged: Outcome)
    requires TokensAreNulFree(k) && AreSorts(s) && CompletedFor(k, s, parent, o, x)
    requires Merges(k, o.steps, x.steps, merged)
    ensures ExactOutcome(k, parent, merged)
  {
    CompletedIsProven(k, o, x);
    AcceptedPartitions(k, s, parent, o);
    CompletedOutcomes(k, parent, o, x.steps);
    MergedKeepsOutcomes(k, o.steps, x.steps, merged);
    SealedIsOrdered(k, s, parent);
    SortedOutcomeAnswers(k, parent, merged);
    OutcomeCheckMeansAnswers(k, s, parent, merged);
  }
}
