/** The operation shape a durable journal insists on, and which accepted operations have it. */
module OperationShape {
  import opened Ordering
  import opened ExecutionModel
  import opened Sealing
  import opened RequestChecks
  import opened Invocation
  import opened ApplyOperation
  import opened ApplyCoverage

  predicate NamedExecutor(k: Rules, e: ExecutorIdentity) { e.id != "" && e.version != "" && k.digest(e.digest) }

  predicate HeaderShape(k: Rules, o: Operation) {
    && o.apiVersion == OPERATION_VERSION && o.operationId == o.parentRequestDigest && k.digest(o.operationId)
    && k.digest(o.planHash) && k.digest(o.manifestHash) && k.digest(o.generationReceiptHash)
    && k.digest(o.requirementsHash) && k.digest(o.evidenceBundleHash) && NamedExecutor(k, o.executor)
  }

  /** What the loop over a list of expectations checks of the one at `i`. */
  predicate ShapedAt(l: seq<Expectation>, i: nat)
    requires i < |l|
  {
    l[i].0 != "" && l[i].1 != "" && (i > 0 ==> Less(l[i - 1].0, l[i].0))
  }

  ghost predicate ShapedUpTo(l: seq<Expectation>, n: nat)
    requires n <= |l|
  {
    forall i :: 0 <= i < n ==> ShapedAt(l, i)
  }

  ghost predicate ListShape(l: seq<Expectation>) { ShapedUpTo(l, |l|) }

  predicate StepHeader(k: Rules, o: Operation, step: Step) {
    && step.id == step.requestDigest && k.digest(step.id) && k.digest(step.artifactSetHash)
    && step.planHash == o.planHash && step.manifestHash == o.manifestHash
    && step.generationReceiptHash == o.generationReceiptHash && step.requirementsHash == o.requirementsHash
    && step.evidenceBundleHash == o.evidenceBundleHash && NamedExecutor(k, step.executor)
    && step.runtime != [] && step.health != [] && Mode(step.compensation)
  }

  ghost predicate StepShape(k: Rules, o: Operation, step: Step) {
    StepHeader(k, o, step) && ListShape(step.runtime) && ListShape(step.health)
  }

  function RuntimeIds(steps: seq<Step>): seq<string> { Map(Requirement, AllRuntime(steps)) }

  /** Health duplicates are found by joined keys. */
  function HealthIds(steps: seq<Step>): seq<string> { Map(Joined, AllHealth(steps)) }

  ghost predicate StepsShape(k: Rules, o: Operation, steps: seq<Step>) {
    && (forall step :: step in steps ==> StepShape(k, o, step))
    && Distinct(RuntimeIds(steps)) && Distinct(HealthIds(steps))
  }

  /** The operation can be journaled. */
  ghost predicate ShapeOK(k: Rules, o: Operation) {
    HeaderShape(k, o) && StepsSorted(o.steps) && StepsShape(k, o, o.steps)
  }

  // ---- The validator ----

  lemma MapConcat<A, B>(f: A -> B, a: seq<A>, b: seq<A>)
    ensures Map(f, a + b) == Map(f, a) + Map(f, b)
  {
  }

  lemma ShapedNext(l: seq<Expectation>, i: nat)
    requires i < |l| && ShapedUpTo(l, i)
    ensures ShapedAt(l, i) ==> ShapedUpTo(l, i + 1)
    ensures !ShapedAt(l, i) ==> !ListShape(l)
  {
  }

  /** The loop over one list: named, in strictly increasing order, no key used before. */
  method TakeExpectations(l: seq<Expectation>, key: Expectation -> string, seen: set<string>, ghost before: seq<string>)
    returns (ok: bool, seen': set<string>)
    requires Seen(seen, before)
    ensures ok <==> ListShape(l) && Distinct(before + Map(key, l))
    ensures ok ==> Seen(seen', before + Map(key, l))
  {
    ghost var keys := before + Map(key, l);
    SeenStarts(seen, before, Map(key, l));
    seen' := seen;
    for i := 0 to |l|
      invariant SeenUpTo(seen', keys, |before| + i) && ShapedUpTo(l, i)
    {
      ShapedNext(l, i);
      if !ShapedAt(l, i) { return false, seen'; }
      var first;
      first, seen' := MarkSeen(seen', key(l[i]), keys, |before| + i);
      if !first { return false, seen'; }
    }
    SeenEnds(seen', keys);
    return true, seen';
  }

  method TakeStep(k: Rules, o: Operation, step: Step, runtime: set<string>, health: set<string>, ghost done: seq<Step>)
    returns (ok: bool, runtime': set<string>, health': set<string>)
    requires Seen(runtime, RuntimeIds(done)) && Seen(health, HealthIds(done))
    ensures ok <==> StepShape(k, o, step) && Distinct(RuntimeIds(done + [step])) && Distinct(HealthIds(done + [step]))
    ensures ok ==> Seen(runtime', RuntimeIds(done + [step])) && Seen(health', HealthIds(done + [step]))
  {
    StepAppended(done, step);
    MapConcat(Requirement, AllRuntime(done), step.runtime);
    MapConcat(Joined, AllHealth(done), step.health);
    runtime', health' := runtime, health;
    if !StepHeader(k, o, step) { return false, runtime', health'; }
    ok, runtime' := TakeExpectations(step.runtime, Requirement, runtime, RuntimeIds(done));
    if !ok { return; }
    ok, health' := TakeExpectations(step.health, Joined, health, HealthIds(done));
  }

  lemma ShapePrefix(k: Rules, o: Operation, a: seq<Step>, b: seq<Step>)
    ensures StepsShape(k, o, a + b) ==> StepsShape(k, o, a)
  {
    AllAppend(a, b);
    MapConcat(Requirement, AllRuntime(a), AllRuntime(b));
    MapConcat(Joined, AllHealth(a), AllHealth(b));
    DistinctPrefix(RuntimeIds(a), RuntimeIds(b));
    DistinctPrefix(HealthIds(a), HealthIds(b));
  }

  method TakeSteps(k: Rules, o: Operation) returns (ok: bool)
    ensures ok <==> StepsShape(k, o, o.steps)
  {
    var runtime: set<string>, health: set<string> := {}, {};
    for i := 0 to |o.steps|
      invariant StepsShape(k, o, o.steps[..i])
      invariant Seen(runtime, RuntimeIds(o.steps[..i])) && Seen(health, HealthIds(o.steps[..i]))
    {
      assert o.steps[..i + 1] == o.steps[..i] + [o.steps[i]] && o.steps[..i + 1] + o.steps[i + 1..] == o.steps;
      ShapePrefix(k, o, o.steps[..i + 1], o.steps[i + 1..]);
      assert o.steps[i] in o.steps[..i + 1];
      ok, runtime, health := TakeStep(k, o, o.steps[i], runtime, health, o.steps[..i]);
      if !ok { return; }
    }
    assert o.steps[..|o.steps|] == o.steps;
    ok := true;
  }

  method ValidateOperationShape(k: Rules, o: Operation) returns (ok: bool)
    ensures ok <==> ShapeOK(k, o)
  {
    if !HeaderShape(k, o) { return false; }
    ok := CheckSorted(o.steps);
    if !ok { return; }
    ok := TakeSteps(k, o);
  }

  // ---- Which accepted operations can be journaled ----

  /** What acceptance does not ask for: every step checks some health, in requirement order. */
  ghost predicate ChecksHealth(step: Step) { step.health != [] && SortedByRequirement(step.health) }

  lemma AcceptedHeader(k: Rules, s: Sorts, parent: Request, o: Operation)
    requires OperationAccepted(k, s, parent, o) && !k.token("")
    ensures HeaderShape(k, o) && forall step :: step in o.steps ==> StepAuthority(k, parent, step)
    ensures forall step :: step in o.steps ==> (StepHeader(k, o, step) <==> step.health != [])
  {
  }

  lemma FittingRuntimeIsShaped(k: Rules, targets: seq<RuntimeTarget>, l: seq<Expectation>)
    requires RuntimeFits(targets, l) && !k.token("")
    requires forall t :: t in targets ==> k.token(t.requirementId) && k.token(t.instanceRef)
    ensures ListShape(l)
  {
    forall i | 0 <= i < |l| ensures ShapedAt(l, i) {
      assert l[i] in l;
      var t :| LastWith(targets, l[i].0, t) && t.instanceRef == l[i].1;
    }
  }

  lemma FittingHealthIsShaped(l: seq<Expectation>)
    requires HealthFits(l)
    ensures ListShape(l) <==> SortedByRequirement(l)
  {
    if SortedByRequirement(l) {
      forall i | 0 <= i < |l| ensures ShapedAt(l, i) { assert l[i] in l; }
    }
    if ListShape(l) {
      forall h, i | 0 <= h < i < |l| && h == i - 1 ensures Less(l[h].0, l[i].0) { assert ShapedAt(l, i); }
    }
  }

  lemma JoinedStaysDistinct(l: seq<Expectation>)
    requires Distinct(l) && forall e :: e in l ==> NulFree(e.0)
    ensures Distinct(Map(Joined, l))
  {
    forall i, j | 0 <= i < j < |l| ensures Joined(l[i]) != Joined(l[j]) {
      assert l[i] in l && l[j] in l;
      JoinedKeysOrderLikePairs(l[i], l[j]);
    }
  }

  lemma AcceptedHealthIds(k: Rules, parent: Request, steps: seq<Step>)
    requires StepsCover(k, parent, steps) && Distinct(Map(HealthId, parent.healthTargets))
    requires forall h :: h in parent.healthTargets ==> NulFree(h.requirementId)
    ensures Distinct(HealthIds(steps))
  {
    CoverageIsPartition(k, parent, steps);
    var keys := Map(HealthKey, parent.healthTargets);
    forall e | e in AllHealth(steps) ensures NulFree(e.0) {
      assert e in multiset(AllHealth(steps));
      var i :| 0 <= i < |keys| && keys[i] == e;
      assert parent.healthTargets[i] in parent.healthTargets;
    }
    JoinedStaysDistinct(AllHealth(steps));
  }

  lemma ParentTokens(k: Rules, s: Sorts, parent: Request)
    requires TokensAreNulFree(k) && Valid(k, s, parent)
    ensures forall t :: t in parent.runtimeTargets ==> k.token(t.requirementId) && k.token(t.instanceRef)
    ensures forall h :: h in parent.healthTargets ==> NulFree(h.requirementId)
    ensures Distinct(Map(HealthId, parent.healthTargets))
  {
    forall t | t in parent.runtimeTargets ensures TargetOK(k, t) {}
    forall h | h in parent.healthTargets ensures HealthOK(k, h) {}
  }

  lemma AcceptedStepShapes(k: Rules, parent: Request, o: Operation)
    requires !k.token("") && StepsCover(k, parent, o.steps)
    requires forall t :: t in parent.runtimeTargets ==> k.token(t.requirementId) && k.token(t.instanceRef)
    requires forall step :: step in o.steps ==> (StepHeader(k, o, step) <==> step.health != [])
    ensures forall step :: step in o.steps ==> (StepShape(k, o, step) <==> ChecksHealth(step))
  {
    forall step | step in o.steps ensures StepShape(k, o, step) <==> ChecksHealth(step) {
      assert StepFits(k, parent, step);
      FittingRuntimeIsShaped(k, parent.runtimeTargets, step.runtime);
      FittingHealthIsShaped(step.health);
    }
  }

  /** An accepted operation can be journaled exactly when every step checks some health, in requirement order. */
  lemma AcceptedIsJournaledExactly(k: Rules, s: Sorts, parent: Request, o: Operation)
    requires TokensAreNulFree(k) && !k.token("") && OperationAccepted(k, s, parent, o)
    ensures ShapeOK(k, o) <==> forall step :: step in o.steps ==> ChecksHealth(step)
  {
    AcceptedHeader(k, s, parent, o);
    ParentTokens(k, s, parent);
    AcceptedStepShapes(k, parent, o);
    AcceptedHealthIds(k, parent, o.steps);
  }
}
