/** The steps of an operation consume the authority of the parent exactly once. */
module ApplyCoverage {
  import opened Wrappers
  import opened Ordering
  import opened ExecutionModel
  import opened Sealing
  import opened RequestChecks
  import opened RequestDraft
  import opened Invocation
  import opened ApplyOperation

  function AllRuntime(steps: seq<Step>): seq<Expectation> {
    if steps == [] then [] else AllRuntime(steps[..|steps| - 1]) + steps[|steps| - 1].runtime
  }

  function AllHealth(steps: seq<Step>): seq<Expectation> {
    if steps == [] then [] else AllHealth(steps[..|steps| - 1]) + steps[|steps| - 1].health
  }

  predicate StepAuthority(k: Rules, parent: Request, step: Step) {
    && step.id == step.requestDigest && step.runtime != []
    && k.digest(step.requestDigest) && k.digest(step.artifactSetHash)
    && step.planHash == parent.planHash && step.manifestHash == parent.manifestHash
    && step.generationReceiptHash == parent.generationReceiptHash && step.requirementsHash == parent.requirementsHash
    && step.evidenceBundleHash == parent.evidenceBundleHash && Mode(step.compensation)
    && step.executor.id != "" && step.executor.version != "" && k.digest(step.executor.digest)
  }

  ghost predicate SortedByRequirement(l: seq<Expectation>) {
    forall h, i :: 0 <= h < i < |l| && h == i - 1 ==> Less(l[h].0, l[i].0)
  }

  /** The expectation names the last parent target with its requirement id. */
  ghost predicate BindsTarget(targets: seq<RuntimeTarget>, e: Expectation) {
    exists t :: LastWith(targets, e.0, t) && t.instanceRef == e.1
  }

  ghost predicate RuntimeFits(targets: seq<RuntimeTarget>, l: seq<Expectation>) {
    SortedByRequirement(l) && forall e :: e in l ==> BindsTarget(targets, e)
  }

  predicate HealthFits(l: seq<Expectation>) {
    forall e :: e in l ==> e.0 != "" && e.1 != ""
  }

  ghost predicate StepFits(k: Rules, parent: Request, step: Step) {
    StepAuthority(k, parent, step) && RuntimeFits(parent.runtimeTargets, step.runtime) && HealthFits(step.health)
  }

  /** No step, requirement or health expectation is used twice. */
  ghost predicate NoneTwice(steps: seq<Step>) {
    Distinct(Map(StepId, steps)) && Distinct(Map(Requirement, AllRuntime(steps))) && Distinct(AllHealth(steps))
  }

  ghost predicate StepsCover(k: Rules, parent: Request, steps: seq<Step>) {
    && (forall step :: step in steps ==> StepFits(k, parent, step)) && NoneTwice(steps)
    && |AllRuntime(steps)| == |parent.runtimeTargets| && |AllHealth(steps)| == |parent.healthTargets|
    && forall h :: h in parent.healthTargets ==> HealthKey(h) in AllHealth(steps)
  }

  predicate BindsParent(parent: Request, o: Operation) {
    && o.apiVersion == OPERATION_VERSION && o.operationId == parent.requestDigest
    && o.parentRequestDigest == parent.requestDigest
    && o.planHash == parent.planHash && o.manifestHash == parent.manifestHash
    && o.generationReceiptHash == parent.generationReceiptHash && o.requirementsHash == parent.requirementsHash
    && o.evidenceBundleHash == parent.evidenceBundleHash && o.executor == parent.executor
  }

  ghost predicate StepsSorted(steps: seq<Step>) {
    steps != [] && forall h, i :: 0 <= h < i < |steps| && h == i - 1 ==> Less(steps[h].id, steps[i].id)
  }

  ghost predicate OperationAccepted(k: Rules, s: Sorts, parent: Request, o: Operation) {
    Valid(k, s, parent) && BindsParent(parent, o) && StepsSorted(o.steps) && StepsCover(k, parent, o.steps)
  }

  lemma {:induction false} AllAppend(a: seq<Step>, b: seq<Step>)
    ensures AllRuntime(a + b) == AllRuntime(a) + AllRuntime(b)
    ensures AllHealth(a + b) == AllHealth(a) + AllHealth(b)
  {
    if b == [] {
      assert a + b == a;
    } else {
      var init, last := b[..|b| - 1], b[|b| - 1];
      AllAppend(a, init);
      assert b == init + [last] && a + b == (a + init) + [last];
      StepAppended(init, last);
      StepAppended(a + init, last);
      Associative(AllRuntime(a), AllRuntime(init), last.runtime);
      Associative(AllHealth(a), AllHealth(init), last.health);
    }
  }

  lemma MapAppend(a: seq<Expectation>, b: seq<Expectation>)
    ensures Map(Requirement, a + b) == Map(Requirement, a) + Map(Requirement, b)
  {
  }

  lemma NoneTwicePrefix(a: seq<Step>, b: seq<Step>)
    ensures NoneTwice(a + b) ==> NoneTwice(a)
  {
    AllAppend(a, b);
    assert Map(StepId, a + b) == Map(StepId, a) + Map(StepId, b);
    DistinctPrefix(Map(StepId, a), Map(StepId, b));
    MapAppend(AllRuntime(a), AllRuntime(b));
    DistinctPrefix(Map(Requirement, AllRuntime(a)), Map(Requirement, AllRuntime(b)));
    DistinctPrefix(AllHealth(a), AllHealth(b));
  }

  lemma StepAppended(done: seq<Step>, step: Step)
    ensures AllRuntime(done + [step]) == AllRuntime(done) + step.runtime
    ensures AllHealth(done + [step]) == AllHealth(done) + step.health
    ensures Map(StepId, done + [step]) == Map(StepId, done) + [step.id]
  {
    assert (done + [step])[..|done|] == done;
  }

  predicate Found(m: map<string, RuntimeTarget>, e: Expectation) {
    e.0 in m && e.1 == m[e.0].instanceRef
  }

  /** The index answers exactly which expectations name a parent target. */
  ghost predicate Looks(m: map<string, RuntimeTarget>, targets: seq<RuntimeTarget>) {
    forall e: Expectation :: BindsTarget(targets, e) <==> Found(m, e)
  }

  /** What the loop over runtime expectations checks of the one at `i`. */
  predicate FitsAt(m: map<string, RuntimeTarget>, l: seq<Expectation>, i: nat)
    requires i < |l|
  {
    (i > 0 ==> Less(l[i - 1].0, l[i].0)) && Found(m, l[i])
  }

  ghost predicate FitsUpTo(m: map<string, RuntimeTarget>, l: seq<Expectation>, n: nat)
    requires n <= |l|
  {
    forall i :: 0 <= i < n ==> FitsAt(m, l, i)
  }

  lemma FitsNext(m: map<string, RuntimeTarget>, l: seq<Expectation>, i: nat)
    requires i < |l| && FitsUpTo(m, l, i) && FitsAt(m, l, i)
    ensures FitsUpTo(m, l, i + 1)
  {
  }

  lemma MisfitEnds(m: map<string, RuntimeTarget>, l: seq<Expectation>, i: nat)
    requires i < |l| && !FitsAt(m, l, i)
    ensures !FitsUpTo(m, l, |l|)
  {
  }

  lemma FittingRuntime(m: map<string, RuntimeTarget>, targets: seq<RuntimeTarget>, l: seq<Expectation>)
    requires Looks(m, targets)
    ensures FitsUpTo(m, l, |l|) <==> RuntimeFits(targets, l)
  {
    if RuntimeFits(targets, l) {
      forall i | 0 <= i < |l| ensures FitsAt(m, l, i) { assert l[i] in l; }
    }
    if FitsUpTo(m, l, |l|) {
      forall h, i | 0 <= h < i < |l| && h == i - 1 ensures Less(l[h].0, l[i].0) { assert FitsAt(m, l, i); }
      forall e | e in l ensures BindsTarget(targets, e) {
        var i :| 0 <= i < |l| && l[i] == e;
        assert FitsAt(m, l, i);
      }
    }
  }

  /** Tracks the exact authority consumed by the steps validated so far. */
  class OperationCoverage {
    var targets: map<string, RuntimeTarget>
    var stepIds: set<string>
    var digests: set<string>
    var runtime: set<string>
    var health: set<Expectation>

    constructor (targets: map<string, RuntimeTarget>)
      ensures this.targets == targets && stepIds == {} && digests == {} && runtime == {} && health == {}
    {
      this.targets := targets;
      stepIds, digests, runtime, health := {}, {}, {}, {};
    }

    ghost predicate Covers(parent: Request, done: seq<Step>)
      reads this
    {
      && Looks(targets, parent.runtimeTargets)
      && Seen(stepIds, Map(StepId, done)) && (forall step :: step in done ==> step.id == step.requestDigest)
      && digests == stepIds
      && Seen(runtime, Map(Requirement, AllRuntime(done))) && Seen(health, AllHealth(done))
    }

    method ValidateRuntime(expectations: seq<Expectation>, ghost before: seq<string>) returns (ok: bool)
      requires Seen(runtime, before)
      modifies this`runtime
      ensures ok <==>
        FitsUpTo(targets, expectations, |expectations|) && Distinct(before + Map(Requirement, expectations))
      ensures ok ==> Seen(runtime, before + Map(Requirement, expectations))
    {
      ghost var keys := before + Map(Requirement, expectations);
      SeenStarts(runtime, before, Map(Requirement, expectations));
      for i := 0 to |expectations|
        invariant SeenUpTo(runtime, keys, |before| + i)
        invariant FitsUpTo(targets, expectations, i)
      {
        if !FitsAt(targets, expectations, i) {
          MisfitEnds(targets, expectations, i);
          return false;
        }
        FitsNext(targets, expectations, i);
        var first;
        first, runtime := MarkSeen(runtime, expectations[i].0, keys, |before| + i);
        if !first { return false; }
      }
      SeenEnds(runtime, keys);
      return true;
    }

    method ValidateHealth(expectations: seq<Expectation>, ghost before: seq<Expectation>) returns (ok: bool)
      requires Seen(health, before)
      modifies this`health
      ensures ok <==> HealthFits(expectations) && Distinct(before + expectations)
      ensures ok ==> Seen(health, before + expectations)
    {
      ghost var keys := before + expectations;
      SeenStarts(health, before, expectations);
      for i := 0 to |expectations|
        invariant SeenUpTo(health, keys, |before| + i)
        invariant forall j :: 0 <= j < i ==> expectations[j].0 != "" && expectations[j].1 != ""
      {
        var e := expectations[i];
        assert e in expectations;
        if e.0 == "" || e.1 == "" { return false; }
        var first;
        first, health := MarkSeen(health, e, keys, |before| + i);
        if !first { return false; }
      }
      SeenEnds(health, keys);
      return true;
    }

    method ValidateStep(k: Rules, parent: Request, step: Step, ghost done: seq<Step>) returns (ok: bool)
      requires Covers(parent, done)
      modifies this
      ensures ok <==> StepFits(k, parent, step) && NoneTwice(done + [step])
      ensures ok ==> Covers(parent, done + [step])
    {
      StepAppended(done, step);
      MapAppend(AllRuntime(done), step.runtime);
      DistinctGrows(Map(StepId, done), step.id);
      if step.id != step.requestDigest || |step.runtime| == 0 { return false; }
      if step.id in stepIds { return false; }
      stepIds := stepIds + {step.id};
      if step.requestDigest in digests { return false; }
      digests := digests + {step.requestDigest};
      if !StepAuthority(k, parent, step) { return false; }
      FittingRuntime(targets, parent.runtimeTargets, step.runtime);
      ok := ValidateRuntime(step.runtime, Map(Requirement, AllRuntime(done)));
      if !ok { return; }
      ok := ValidateHealth(step.health, AllHealth(done));
    }

    method ValidateComplete(parent: Request, ghost done: seq<Step>) returns (ok: bool)
      requires Covers(parent, done)
      ensures ok <==> |AllRuntime(done)| == |parent.runtimeTargets| && |AllHealth(done)| == |parent.healthTargets|
                      && forall h :: h in parent.healthTargets ==> HealthKey(h) in AllHealth(done)
    {
      SeenSize(runtime, Map(Requirement, AllRuntime(done)));
      SeenSize(health, AllHealth(done));
      if |runtime| != |parent.runtimeTargets| || |health| != |parent.healthTargets| { return false; }
      for i := 0 to |parent.healthTargets|
        invariant forall j :: 0 <= j < i ==> HealthKey(parent.healthTargets[j]) in AllHealth(done)
      {
        if HealthKey(parent.healthTargets[i]) !in health {
          assert parent.healthTargets[i] in parent.healthTargets;
          return false;
        }
      }
      return true;
    }
  }

  lemma SeenStarts<T(!new)>(seen: set<T>, before: seq<T>, more: seq<T>)
    requires Seen(seen, before)
    ensures SeenUpTo(seen, before + more, |before|)
  {
    assert (before + more)[..|before|] == before;
    SeenPrefix(seen, before + more, |before|);
  }

  lemma SeenEnds<T(!new)>(seen: set<T>, keys: seq<T>)
    requires SeenUpTo(seen, keys, |keys|)
    ensures Seen(seen, keys)
  {
    assert keys[..|keys|] == keys;
    SeenPrefix(seen, keys, |keys|);
  }

  lemma LastIsUnique(targets: seq<RuntimeTarget>, id: string, a: RuntimeTarget, b: RuntimeTarget)
    requires LastWith(targets, id, a) && LastWith(targets, id, b)
    ensures a == b
  {
  }

  lemma TargetLookup(m: map<string, RuntimeTarget>, targets: seq<RuntimeTarget>, e: Expectation)
    requires Indexed(m, targets)
    ensures BindsTarget(targets, e) <==> Found(m, e)
  {
    if BindsTarget(targets, e) {
      var t :| LastWith(targets, e.0, t) && t.instanceRef == e.1;
      assert t in targets;
      LastIsUnique(targets, e.0, t, m[e.0]);
    }
  }

  lemma {:induction false} SeenSize<T(!new)>(seen: set<T>, keys: seq<T>)
    requires Seen(seen, keys)
    ensures |seen| == |keys|
  {
    if |keys| == 0 {
      assert seen == {};
    } else {
      var init, last := keys[..|keys| - 1], keys[|keys| - 1];
      assert keys == init + [last];
      DistinctGrows(init, last);
      SeenSize(seen - {last}, init);
    }
  }

  method ValidateOperationSteps(k: Rules, parent: Request, steps: seq<Step>) returns (ok: bool)
    ensures ok <==> StepsCover(k, parent, steps)
  {
    var targets := IndexByRequirement(parent.runtimeTargets);
    forall e: Expectation ensures BindsTarget(parent.runtimeTargets, e) <==> Found(targets, e) {
      TargetLookup(targets, parent.runtimeTargets, e);
    }
    var coverage := new OperationCoverage(targets);
    ghost var done: seq<Step> := [];
    for i := 0 to |steps|
      invariant done == steps[..i] && coverage.Covers(parent, done)
      invariant forall step :: step in done ==> StepFits(k, parent, step)
    {
      var step := steps[i];
      assert done + [step] == steps[..i + 1] && step in steps;
      assert done + [step] + steps[i + 1..] == steps;
      NoneTwicePrefix(done + [step], steps[i + 1..]);
      var fine := coverage.ValidateStep(k, parent, step, done);
      if !fine { return false; }
      done := done + [step];
    }
    assert done == steps && NoneTwice(steps);
    ok := coverage.ValidateComplete(parent, steps);
  }

  method CheckSorted(steps: seq<Step>) returns (ok: bool)
    ensures ok <==> StepsSorted(steps)
  {
    if |steps| == 0 { return false; }
    for i := 0 to |steps|
      invariant forall h, j :: 0 <= h < j < i && h == j - 1 ==> Less(steps[h].id, steps[j].id)
    {
      if i > 0 && !Less(steps[i - 1].id, steps[i].id) { return false; }
    }
    return true;
  }

  method ValidateOperationForRequest(k: Rules, s: Sorts, parent: Request, o: Operation) returns (ok: bool)
    requires TokensAreNulFree(k)
    ensures ok <==> OperationAccepted(k, s, parent, o)
  {
    ok := ValidateRequest(k, s, parent);
    if !ok { return; }
    if !BindsParent(parent, o) { return false; }
    ok := CheckSorted(o.steps);
    if !ok { return; }
    ok := ValidateOperationSteps(k, parent, o.steps);
  }

  /** Builds the operation of a parent from child steps in any order. */
  method NewOperation(k: Rules, s: Sorts, t: StepSorts, parent: Request, steps: seq<Step>)
    returns (o: Option<Operation>)
    requires TokensAreNulFree(k)
    ensures o.Some? ==> OperationAccepted(k, s, parent, o.value) && o.value.steps == t.steps(steps)
    ensures o == None ==> !exists x :: OperationAccepted(k, s, parent, x) && x.steps == t.steps(steps)
  {
    var valid := ValidateRequest(k, s, parent);
    if !valid { return None; }
    var operation := Operation(OPERATION_VERSION, parent.requestDigest, parent.requestDigest, parent.planHash,
                               parent.manifestHash,
                               parent.generationReceiptHash, parent.requirementsHash, parent.evidenceBundleHash,
                               parent.executor,
                               t.steps(steps));
    var ok := ValidateOperationForRequest(k, s, parent, operation);
    if !ok {
      assert forall x :: BindsParent(parent, x) && x.steps == operation.steps ==> x == operation;
      return None;
    }
    return Some(operation);
  }

  // ---- Acceptance is a partition of the parent ----

  /** Every parent target and health check is expected exactly once, and requirement ids decide the instance. */
  ghost predicate Partitions(parent: Request, steps: seq<Step>) {
    && multiset(AllRuntime(steps)) == multiset(Map(RuntimeKey, parent.runtimeTargets))
    && multiset(AllHealth(steps)) == multiset(Map(HealthKey, parent.healthTargets))
    && Distinct(Map(TargetRequirement, parent.runtimeTargets))
  }

  lemma {:induction false} RuntimeOfSteps(steps: seq<Step>)
    ensures forall e :: e in AllRuntime(steps) <==> exists step :: step in steps && e in step.runtime
    ensures forall e :: e in AllHealth(steps) <==> exists step :: step in steps && e in step.health
  {
    if steps != [] {
      RuntimeOfSteps(steps[..|steps| - 1]);
      assert steps == steps[..|steps| - 1] + [steps[|steps| - 1]];
    }
  }

  lemma RequirementsOfKeys(targets: seq<RuntimeTarget>)
    ensures Map(Requirement, Map(RuntimeKey, targets)) == Map(TargetRequirement, targets)
  {
  }

  lemma DistinctRequirementsDistinctPairs(l: seq<Expectation>)
    requires Distinct(Map(Requirement, l))
    ensures Distinct(l)
  {
    forall i, j | 0 <= i < j < |l| ensures l[i] != l[j] { assert Map(Requirement, l)[i] != Map(Requirement, l)[j]; }
  }

  lemma BoundIsKey(targets: seq<RuntimeTarget>, e: Expectation)
    requires BindsTarget(targets, e)
    ensures e in Map(RuntimeKey, targets)
  {
    var t :| LastWith(targets, e.0, t) && t.instanceRef == e.1;
    var i :| 0 <= i < |targets| && targets[i].requirementId == e.0 && targets[i] == t &&
      forall j :: i < j < |targets| ==> targets[j].requirementId != e.0;
    assert Map(RuntimeKey, targets)[i] == e;
  }

  lemma KeyIsBound(targets: seq<RuntimeTarget>, e: Expectation)
    requires Distinct(Map(TargetRequirement, targets)) && e in Map(RuntimeKey, targets)
    ensures BindsTarget(targets, e)
  {
    var i :| 0 <= i < |targets| && Map(RuntimeKey, targets)[i] == e;
    forall j | i < j < |targets| ensures targets[j].requirementId != e.0 {
      assert Map(TargetRequirement, targets)[i] != Map(TargetRequirement, targets)[j];
    }
    assert LastWith(targets, e.0, targets[i]);
  }

  /** Pigeonhole over the coverage maps: full coverage without repetition is a partition. */
  lemma CoverageIsPartition(k: Rules, parent: Request, steps: seq<Step>)
    requires Distinct(Map(HealthId, parent.healthTargets)) && StepsCover(k, parent, steps)
    ensures Partitions(parent, steps)
  {
    var runtime, keys := AllRuntime(steps), Map(RuntimeKey, parent.runtimeTargets);
    RuntimeOfSteps(steps);
    forall e | e in runtime ensures e in keys { BoundIsKey(parent.runtimeTargets, e); }
    DistinctRequirementsDistinctPairs(runtime);
    Pigeonhole(runtime, keys);
    MapPermutation(Requirement, runtime, keys);
    RequirementsOfKeys(parent.runtimeTargets);
    DistinctPermutation(Map(Requirement, runtime), Map(TargetRequirement, parent.runtimeTargets));
    HealthCovered(parent, steps);
  }

  lemma DistinctHealthKeys(health: seq<HealthTarget>)
    requires Distinct(Map(HealthId, health))
    ensures Distinct(Map(HealthKey, health))
  {
    forall i, j | 0 <= i < j < |health| ensures HealthKey(health[i]) != HealthKey(health[j]) {
      assert Map(HealthId, health)[i] != Map(HealthId, health)[j];
    }
  }

  lemma HealthCovered(parent: Request, steps: seq<Step>)
    requires Distinct(Map(HealthId, parent.healthTargets)) && |AllHealth(steps)| == |parent.healthTargets|
    requires forall h :: h in parent.healthTargets ==> HealthKey(h) in AllHealth(steps)
    ensures multiset(AllHealth(steps)) == multiset(Map(HealthKey, parent.healthTargets))
  {
    DistinctHealthKeys(parent.healthTargets);
    Pigeonhole(Map(HealthKey, parent.healthTargets), AllHealth(steps));
  }

  /** The step checks accept exactly the partitions of the parent into well-formed steps. */
  lemma AcceptedExactlyWhenPartitioned(k: Rules, parent: Request, steps: seq<Step>)
    requires Distinct(Map(HealthId, parent.healthTargets))
    requires forall h :: h in parent.healthTargets ==> h.requirementId != "" && h.targetRef != ""
    ensures StepsCover(k, parent, steps) <==>
      && Partitions(parent, steps) && Distinct(Map(StepId, steps))
      && forall step :: step in steps ==> StepAuthority(k, parent, step) && SortedByRequirement(step.runtime)
  {
    if StepsCover(k, parent, steps) { CoverageIsPartition(k, parent, steps); }
    if Partitions(parent, steps) { PartitionCovers(parent, steps); }
  }

  lemma PartitionCovers(parent: Request, steps: seq<Step>)
    requires Partitions(parent, steps) && Distinct(Map(HealthId, parent.healthTargets))
    requires forall h :: h in parent.healthTargets ==> h.requirementId != "" && h.targetRef != ""
    ensures forall step :: step in steps ==> HealthFits(step.health) && forall e :: e in step.runtime ==>
      BindsTarget(parent.runtimeTargets, e)
    ensures Distinct(Map(Requirement, AllRuntime(steps))) && Distinct(AllHealth(steps))
    ensures |AllRuntime(steps)| == |parent.runtimeTargets| && |AllHealth(steps)| == |parent.healthTargets|
    ensures forall h :: h in parent.healthTargets ==> HealthKey(h) in AllHealth(steps)
  {
    var runtime, keys := AllRuntime(steps), Map(RuntimeKey, parent.runtimeTargets);
    var health, checks := AllHealth(steps), Map(HealthKey, parent.healthTargets);
    RuntimeOfSteps(steps);
    PermutationMembers(runtime, keys);
    PermutationMembers(health, checks);
    MapPermutation(Requirement, runtime, keys);
    RequirementsOfKeys(parent.runtimeTargets);
    DistinctPermutation(Map(Requirement, runtime), Map(TargetRequirement, parent.runtimeTargets));
    DistinctHealthKeys(parent.healthTargets);
    DistinctPermutation(health, checks);
    forall step, e | step in steps && e in step.runtime ensures BindsTarget(parent.runtimeTargets, e) {
      assert e in runtime;
      KeyIsBound(parent.runtimeTargets, e);
    }
    forall step, e | step in steps && e in step.health ensures e.0 != "" && e.1 != "" {
      assert e in health;
      assert e in checks;
      var i :| 0 <= i < |checks| && checks[i] == e;
      assert parent.healthTargets[i] in parent.healthTargets;
    }
    forall h | h in parent.healthTargets ensures HealthKey(h) in health {
      var i :| 0 <= i < |checks| && parent.healthTargets[i] == h;
      assert checks[i] == HealthKey(h);
    }
  }
}
