/** One guarded execution of a sealed request and the exact outcome it must return. */
module Invocation {
  import opened Wrappers
  import opened Ordering
  import opened ExecutionModel
  import opened Sealing
  import opened RequestDraft

  function OutcomeKey(o: RuntimeOutcome): (string, string) { (o.requirementId, o.instanceRef) }
  function HealthOutcomeKey(o: HealthOutcome): (string, string) { (o.requirementId, o.targetRef) }
  function HealthKey(h: HealthTarget): (string, string) { (h.requirementId, h.targetRef) }

  predicate RuntimeOutcomeOK(k: Rules, o: RuntimeOutcome) {
    o.status == STATUS_APPLIED && k.token(o.requirementId) && k.token(o.instanceRef) && k.runtimeObservation(o.observed)
  }

  predicate HealthOutcomeOK(k: Rules, o: HealthOutcome) {
    o.status == STATUS_HEALTHY && k.token(o.requirementId) && k.token(o.targetRef) && k.healthObservation(o.observed)
  }

  ghost predicate RuntimeShape(k: Rules, l: seq<RuntimeOutcome>) {
    && (forall i :: 0 <= i < |l| ==> RuntimeOutcomeOK(k, l[i]))
    && (forall h, i :: 0 <= h < i < |l| && h == i - 1 ==> Less(JoinedOutcomeKey(l[h]), JoinedOutcomeKey(l[i])))
  }

  ghost predicate HealthShape(k: Rules, l: seq<HealthOutcome>) {
    && (forall i :: 0 <= i < |l| ==> HealthOutcomeOK(k, l[i]))
    && (forall h, i :: 0 <= h < i < |l| && h == i - 1 ==> Less(l[h].requirementId, l[i].requirementId))
  }

  ghost predicate ResultOK(k: Rules, r: Result) {
    && r.apiVersion == API_VERSION && k.digest(r.resultDigest) && IdentityOK(k, r.executor)
    && k.digest(r.planHash) && k.digest(r.manifestHash) && k.digest(r.generationReceiptHash)
    && k.digest(r.requirementsHash)
    && k.digest(r.evidenceBundleHash) && k.digest(r.artifactSetHash) && k.digest(r.requestDigest)
    && RuntimeShape(k, r.runtime) && HealthShape(k, r.health)
    && r.resultDigest == k.hashResult(r.(resultDigest := ""))
  }

  predicate RuntimeAnswer(k: Rules, t: RuntimeTarget, o: RuntimeOutcome) {
    OutcomeKey(o) == RuntimeKey(t) && o.status == STATUS_APPLIED && k.runtimeObservation(o.observed)
  }

  predicate HealthAnswer(k: Rules, h: HealthTarget, o: HealthOutcome) {
    HealthOutcomeKey(o) == HealthKey(h) && o.status == STATUS_HEALTHY && k.healthObservation(o.observed)
  }

  /** Each sealed target is answered once, in order, with the only accepted status and a well-formed observation. */
  predicate Answers(k: Rules, r: Request, o: Outcome) {
    && |o.runtime| == |r.runtimeTargets| && |o.health| == |r.healthTargets|
    && (forall i :: 0 <= i < |o.runtime| ==> RuntimeAnswer(k, r.runtimeTargets[i], o.runtime[i]))
    && (forall i :: 0 <= i < |o.health| ==> HealthAnswer(k, r.healthTargets[i], o.health[i]))
  }

  /** What the outcome check decides: well-formed, sorted by joined key, and target by target. */
  ghost predicate ExactOutcome(k: Rules, r: Request, o: Outcome) {
    && RuntimeShape(k, o.runtime) && HealthShape(k, o.health)
    && |o.runtime| == |r.runtimeTargets| && |o.health| == |r.healthTargets|
    && (forall i :: 0 <= i < |o.runtime| ==> OutcomeKey(o.runtime[i]) == RuntimeKey(r.runtimeTargets[i]))
    && (forall i :: 0 <= i < |o.health| ==> HealthOutcomeKey(o.health[i]) == HealthKey(r.healthTargets[i]))
  }

  /** The result bound to an outcome; its digest is computed over the rest. */
  function ResultOf(k: Rules, r: Request, o: Outcome): Result {
    var blank := Result(API_VERSION, r.executor, r.planHash, r.manifestHash, r.generationReceiptHash,
                        r.requirementsHash,
                        r.evidenceBundleHash, r.artifactSetHash, r.requestDigest, o.runtime, o.health, "");
    blank.(resultDigest := k.hashResult(blank))
  }

  function JoinedOutcomeKey(o: RuntimeOutcome): string { Joined(OutcomeKey(o)) }
  function HealthRequirement(o: HealthOutcome): string { o.requirementId }

  /** The adjacent comparison already excludes every duplicate. */
  lemma SortedKeysAreDistinct(keys: seq<string>)
    ensures (forall h, i :: 0 <= h < i < |keys| && h == i - 1 ==> Less(keys[h], keys[i])) ==> Distinct(keys)
  {
    if forall h, i :: 0 <= h < i < |keys| && h == i - 1 ==> Less(keys[h], keys[i]) {
      AdjacentStringsSorted(keys);
      forall i, j | 0 <= i < j < |keys| ensures keys[i] != keys[j] { LessIrreflexive(keys[i]); }
    }
  }

  method ValidateRuntimeOutcomes(k: Rules, l: seq<RuntimeOutcome>) returns (ok: bool)
    ensures ok <==> RuntimeShape(k, l)
  {
    for i := 0 to |l|
      invariant forall j :: 0 <= j < i ==> RuntimeOutcomeOK(k, l[j])
      invariant forall h, j :: 0 <= h < j < i && h == j - 1 ==> Less(JoinedOutcomeKey(l[h]), JoinedOutcomeKey(l[j]))
    {
      if !RuntimeOutcomeOK(k, l[i]) { return false; }
      if i > 0 && !Less(JoinedOutcomeKey(l[i - 1]), JoinedOutcomeKey(l[i])) { return false; }
    }
    SortedKeysAreDistinct(Map(JoinedOutcomeKey, l));
    ok := AllDistinct(Map(JoinedOutcomeKey, l));
  }

  method ValidateHealthOutcomes(k: Rules, l: seq<HealthOutcome>) returns (ok: bool)
    ensures ok <==> HealthShape(k, l)
  {
    for i := 0 to |l|
      invariant forall j :: 0 <= j < i ==> HealthOutcomeOK(k, l[j])
      invariant forall h, j :: 0 <= h < j < i && h == j - 1 ==> Less(l[h].requirementId, l[j].requirementId)
    {
      if !HealthOutcomeOK(k, l[i]) { return false; }
      if i > 0 && !Less(l[i - 1].requirementId, l[i].requirementId) { return false; }
    }
    SortedKeysAreDistinct(Map(HealthRequirement, l));
    ok := AllDistinct(Map(HealthRequirement, l));
  }

  datatype Refusal =
    InvalidRequest | Cancelled | IdentityMismatch | ExecutorPanic | ExecutorFailed | SetMismatch | InvalidResult

  /** A malformed or unsorted outcome is an invalid result, a well-formed one for other targets a set mismatch. */
  method ValidateExactOutcome(k: Rules, r: Request, o: Outcome) returns (refusal: Option<Refusal>)
    requires TokensAreNulFree(k)
    ensures refusal == None <==> ExactOutcome(k, r, o)
    ensures refusal == Some(InvalidResult) <==> !(RuntimeShape(k, o.runtime) && HealthShape(k, o.health))
    ensures refusal in {None, Some(InvalidResult), Some(SetMismatch)}
  {
    var ok := ValidateRuntimeOutcomes(k, o.runtime);
    if !ok { return Some(InvalidResult); }
    ok := ValidateHealthOutcomes(k, o.health);
    if !ok { return Some(InvalidResult); }
    if |o.runtime| != |r.runtimeTargets| || |o.health| != |r.healthTargets| { return Some(SetMismatch); }
    for i := 0 to |r.runtimeTargets|
      invariant forall j :: 0 <= j < i ==> OutcomeKey(o.runtime[j]) == RuntimeKey(r.runtimeTargets[j])
    {
      if OutcomeKey(o.runtime[i]) != RuntimeKey(r.runtimeTargets[i]) { return Some(SetMismatch); }
    }
    for i := 0 to |r.healthTargets|
      invariant forall j :: 0 <= j < i ==> HealthOutcomeKey(o.health[j]) == HealthKey(r.healthTargets[j])
    {
      if HealthOutcomeKey(o.health[i]) != HealthKey(r.healthTargets[i]) { return Some(SetMismatch); }
    }
    return None;
  }

  method ValidateResult(k: Rules, r: Result) returns (ok: bool)
    requires TokensAreNulFree(k)
    ensures ok <==> ResultOK(k, r)
  {
    if r.apiVersion != API_VERSION || !k.digest(r.resultDigest) || !IdentityOK(k, r.executor) { return false; }
    var hashes :=
      [r.planHash, r.manifestHash, r.generationReceiptHash, r.requirementsHash, r.evidenceBundleHash, r.artifactSetHash,
      r.requestDigest];
    for i := 0 to |hashes|
      invariant forall j :: 0 <= j < i ==> k.digest(hashes[j])
    {
      if !k.digest(hashes[i]) { return false; }
    }
    assert forall j :: 0 <= j < 7 ==> k.digest(hashes[j]);
    assert k.digest(hashes[0]) && k.digest(hashes[1]) && k.digest(hashes[2]) && k.digest(hashes[3]);
    assert k.digest(hashes[4]) && k.digest(hashes[5]) && k.digest(hashes[6]);
    ok := ValidateRuntimeOutcomes(k, r.runtime);
    if !ok { return; }
    ok := ValidateHealthOutcomes(k, r.health);
    if !ok { return; }
    return k.hashResult(r.(resultDigest := "")) == r.resultDigest;
  }

  datatype Invoked = Returned(result: Result) | Refused(code: Refusal)

  /** What came of calling an adapter: it may return an error or panic. */
  datatype Reply = Answered(outcome: Outcome) | Errored | Panicked

  /** An adapter; without an identity, asking for it panics. `calls` records every request it was given. */
  class Executor {
    const identity: Option<ExecutorIdentity>
    const answer: Request -> Reply
    var calls: seq<Request>

    constructor (identity: Option<ExecutorIdentity>, answer: Request -> Reply)
      ensures this.identity == identity && this.answer == answer && calls == []
    {
      this.identity, this.answer, calls := identity, answer, [];
    }

    method Execute(r: Request) returns (reply: Reply)
      modifies this
      ensures reply == answer(r) && calls == old(calls) + [r]
    {
      calls := calls + [r];
      reply := answer(r);
    }
  }

  /** Checks the outcome and binds it into a result. */
  method BindOutcome(k: Rules, r: Request, o: Outcome) returns (out: Invoked)
    requires TokensAreNulFree(k)
    ensures out.Returned? <==> ExactOutcome(k, r, o) && ResultOK(k, ResultOf(k, r, o))
    ensures out.Returned? ==> out.result == ResultOf(k, r, o)
    ensures out.Refused? ==> out.code in {SetMismatch, InvalidResult}
    ensures out == Refused(SetMismatch) <==>
      !ExactOutcome(k, r, o) && RuntimeShape(k, o.runtime) && HealthShape(k, o.health)
  {
    var refusal := ValidateExactOutcome(k, r, o);
    if refusal.Some? { return Refused(refusal.value); }
    var result := Result(API_VERSION, r.executor, r.planHash, r.manifestHash, r.generationReceiptHash,
                         r.requirementsHash,
                         r.evidenceBundleHash, r.artifactSetHash, r.requestDigest, o.runtime, o.health, "");
    result := result.(resultDigest := k.hashResult(result));
    var sound := ValidateResult(k, result);
    return if sound then Returned(result) else Refused(InvalidResult);
  }

  /** The reply is an exact outcome that binds into a valid result, and the caller still wants it. */
  ghost predicate Completes(k: Rules, r: Request, reply: Reply, after: bool) {
    reply.Answered? && !after && ExactOutcome(k, r, reply.outcome) && ResultOK(k, ResultOf(k, r, reply.outcome))
  }

  ghost predicate WellShaped(k: Rules, o: Outcome) { RuntimeShape(k, o.runtime) && HealthShape(k, o.health) }

  /** A result is returned exactly for a complete reply, and binds it; every other reply has its own refusal. */
  ghost predicate Concludes(k: Rules, r: Request, reply: Reply, after: bool, out: Invoked) {
    && (out.Returned? <==> Completes(k, r, reply, after))
    && (out.Returned? ==> out.result == ResultOf(k, r, reply.outcome))
    && (out == Refused(ExecutorPanic) <==> reply.Panicked?)
    && (out == Refused(ExecutorFailed) <==> reply.Errored?)
    && (out == Refused(Cancelled) <==> reply.Answered? && after)
    && (out == Refused(SetMismatch) <==>
        reply.Answered? && !after && WellShaped(k, reply.outcome) && !ExactOutcome(k, r, reply.outcome))
    && (out.Refused? ==> out.code in {ExecutorPanic, ExecutorFailed, Cancelled, SetMismatch, InvalidResult})
  }

  method Conclude(k: Rules, r: Request, reply: Reply, after: bool) returns (out: Invoked)
    requires TokensAreNulFree(k)
    ensures Concludes(k, r, reply, after, out)
  {
    match reply {
      case Panicked => return Refused(ExecutorPanic);
      case Errored => return Refused(ExecutorFailed);
      case Answered(outcome) =>
        if after { return Refused(Cancelled); }
        out := BindOutcome(k, r, outcome);
    }
  }

  // ---- Freshness ----

  /** The validity window of the binding, start included and end excluded, holds the instant. */
  predicate Fresh(k: Rules, b: Binding, at: int) {
    && k.time(b.issuedAt).Some? && k.time(b.validUntil).Some?
    && k.time(b.issuedAt).value <= at < k.time(b.validUntil).value
  }

  predicate AllFresh(k: Rules, bindings: seq<Binding>, at: int) { forall b :: b in bindings ==> Fresh(k, b, at) }

  /** The instant is a proper one; a request with bindings is run at its own authorization time, inside every window. */
  predicate Timely(k: Rules, r: Request, at: Option<int>) {
    && at.Some?
    && (if r.accessBindings == [] && r.backupBindings == [] then r.authorizationTime == ""
        else k.time(r.authorizationTime) == at && AllFresh(k, r.accessBindings + r.backupBindings, at.value))
  }

  method BindingsAreFresh(k: Rules, bindings: seq<Binding>, at: int) returns (ok: bool)
    ensures ok <==> AllFresh(k, bindings, at)
  {
    for i := 0 to |bindings|
      invariant forall j :: 0 <= j < i ==> Fresh(k, bindings[j], at)
    {
      var issued, until := k.time(bindings[i].issuedAt), k.time(bindings[i].validUntil);
      if issued == None || until == None || at < issued.value || !(at < until.value) {
        assert bindings[i] in bindings;
        return false;
      }
    }
    return true;
  }

  method ValidateAccessFreshness(k: Rules, bindings: seq<Binding>, authorized: string, at: Option<int>)
    returns (ok: bool)
    ensures ok ==> at.Some?
    ensures at.Some? && bindings == [] ==> (ok <==> authorized == "")
    ensures at.Some? && bindings != [] ==> (ok <==> k.time(authorized) == at && AllFresh(k, bindings, at.value))
  {
    if at == None { return false; }
    if bindings == [] { return authorized == ""; }
    if k.time(authorized) != at { return false; }
    ok := BindingsAreFresh(k, bindings, at.value);
  }

  /** `at` is absent when the instant is zero or not in UTC. */
  method ValidateExternalFreshness(k: Rules, r: Request, at: Option<int>) returns (ok: bool)
    ensures ok <==> Timely(k, r, at)
  {
    if r.accessBindings == [] && r.backupBindings == [] {
      ok := ValidateAccessFreshness(k, [], r.authorizationTime, at);
      return;
    }
    ok := ValidateAccessFreshness(k, r.accessBindings, r.authorizationTime, at);
    if !ok && r.accessBindings != [] { return; }
    if at == None || k.time(r.authorizationTime) != at { return false; }
    ok := BindingsAreFresh(k, r.backupBindings, at.value);
  }

  /** The executor is called on a valid, wanted and timely request sealed for it. */
  predicate Admitted(valid: bool, before: bool, identity: Option<ExecutorIdentity>, r: Request, timely: bool) {
    valid && !before && identity == Some(r.executor) && timely
  }

  /** Otherwise the first of the five failing checks names the refusal. */
  predicate RefusesFirst(valid: bool, before: bool, identity: Option<ExecutorIdentity>, r: Request, timely: bool,
                         out: Invoked) {
    && (!valid ==> out == Refused(InvalidRequest))
    && (valid && before ==> out == Refused(Cancelled))
    && (valid && !before && identity == None ==> out == Refused(ExecutorPanic))
    && (valid && !before && identity.Some? && identity.value != r.executor ==> out == Refused(IdentityMismatch))
    && (valid && !before && identity == Some(r.executor) && !timely ==> out == Refused(InvalidRequest))
  }

  /** The executor runs at most once, and exactly on an admitted request. */
  method InvokeAt(k: Rules, s: Sorts, executor: Executor, r: Request, at: Option<int>, before: bool,
                  after: bool)
    returns (out: Invoked)
    requires TokensAreNulFree(k)
    modifies executor
    ensures var valid, timely := Valid(k, s, r), Timely(k, r, at);
      && RefusesFirst(valid, before, executor.identity, r, timely, out)
      && (Admitted(valid, before, executor.identity, r, timely) ==>
          executor.calls == old(executor.calls) + [r] && Concludes(k, r, executor.answer(r), after, out))
      && (!Admitted(valid, before, executor.identity, r, timely) ==> executor.calls == old(executor.calls))
  {
    var valid := ValidateRequest(k, s, r);
    if !valid { return Refused(InvalidRequest); }
    if before { return Refused(Cancelled); }
    if executor.identity == None { return Refused(ExecutorPanic); }
    if executor.identity.value != r.executor { return Refused(IdentityMismatch); }
    var timely := ValidateExternalFreshness(k, r, at);
    if !timely { return Refused(InvalidRequest); }
    var reply := executor.Execute(r);
    out := Conclude(k, r, reply, after);
  }

  // ---- Answering each sealed target once, in order, is exactly what passes ----

  lemma SealedTokens(k: Rules, s: Sorts, r: Request)
    requires TokensAreNulFree(k) && AreSorts(s) && Valid(k, s, r)
    ensures StrictlySorted(r.runtimeTargets, TargetLess) && StrictlySorted(r.healthTargets, HealthLess)
    ensures forall i :: 0 <= i < |r.runtimeTargets| ==>
      k.token(r.runtimeTargets[i].requirementId) && k.token(r.runtimeTargets[i].instanceRef)
    ensures forall i :: 0 <= i < |r.healthTargets| ==>
      k.token(r.healthTargets[i].requirementId) && k.token(r.healthTargets[i].targetRef)
  {
    ValidIsStrict(k, s, r);
    forall i | 0 <= i < |r.runtimeTargets| ensures TargetOK(k, r.runtimeTargets[i]) {
      assert r.runtimeTargets[i] in r.runtimeTargets;
    }
    forall i | 0 <= i < |r.healthTargets| ensures HealthOK(k, r.healthTargets[i]) {
      assert r.healthTargets[i] in r.healthTargets;
    }
  }

  lemma RuntimeAnswersAreSorted(k: Rules, targets: seq<RuntimeTarget>, l: seq<RuntimeOutcome>)
    requires TokensAreNulFree(k) && |l| == |targets| && StrictlySorted(targets, TargetLess)
    requires forall i :: 0 <= i < |l| ==> k.token(targets[i].requirementId) && k.token(targets[i].instanceRef)
    requires forall i :: 0 <= i < |l| ==> RuntimeAnswer(k, targets[i], l[i])
    ensures RuntimeShape(k, l)
  {
    forall h, i | 0 <= h < i < |l| && h == i - 1 ensures Less(JoinedOutcomeKey(l[h]), JoinedOutcomeKey(l[i])) {
      assert TargetLess(targets[i - 1], targets[i]);
      assert RuntimeAnswer(k, targets[i - 1], l[i - 1]) && RuntimeAnswer(k, targets[i], l[i]);
      JoinedKeysOrderLikePairs(OutcomeKey(l[i - 1]), OutcomeKey(l[i]));
    }
  }

  lemma HealthAnswersAreSorted(k: Rules, targets: seq<HealthTarget>, l: seq<HealthOutcome>)
    requires |l| == |targets| && StrictlySorted(targets, HealthLess)
    requires forall i :: 0 <= i < |l| ==> k.token(targets[i].requirementId) && k.token(targets[i].targetRef)
    requires forall i :: 0 <= i < |l| ==> HealthAnswer(k, targets[i], l[i])
    ensures HealthShape(k, l)
  {
    forall h, i | 0 <= h < i < |l| && h == i - 1 ensures Less(l[h].requirementId, l[i].requirementId) {
      assert HealthLess(targets[i - 1], targets[i]);
      assert HealthAnswer(k, targets[i - 1], l[i - 1]) && HealthAnswer(k, targets[i], l[i]);
    }
  }

  lemma AnswersPass(k: Rules, r: Request, o: Outcome)
    requires TokensAreNulFree(k)
    requires StrictlySorted(r.runtimeTargets, TargetLess) && StrictlySorted(r.healthTargets, HealthLess)
    requires forall i :: 0 <= i < |r.runtimeTargets| ==>
      k.token(r.runtimeTargets[i].requirementId) && k.token(r.runtimeTargets[i].instanceRef)
    requires forall i :: 0 <= i < |r.healthTargets| ==>
      k.token(r.healthTargets[i].requirementId) && k.token(r.healthTargets[i].targetRef)
    ensures ExactOutcome(k, r, o) <==> Answers(k, r, o)
  {
    if Answers(k, r, o) {
      RuntimeAnswersAreSorted(k, r.runtimeTargets, o.runtime);
      HealthAnswersAreSorted(k, r.healthTargets, o.health);
    }
    if ExactOutcome(k, r, o) {
      forall i | 0 <= i < |o.runtime| ensures RuntimeAnswer(k, r.runtimeTargets[i], o.runtime[i]) {
        assert RuntimeOutcomeOK(k, o.runtime[i]);
      }
      forall i | 0 <= i < |o.health| ensures HealthAnswer(k, r.healthTargets[i], o.health[i]) {
        assert HealthOutcomeOK(k, o.health[i]);
      }
    }
  }

  /** On a sealed request the outcome check is the plain answer relation: its sort checks never bite. */
  lemma OutcomeCheckMeansAnswers(k: Rules, s: Sorts, r: Request, o: Outcome)
    requires TokensAreNulFree(k) && AreSorts(s) && Valid(k, s, r)
    ensures ExactOutcome(k, r, o) <==> Answers(k, r, o)
  {
    SealedTokens(k, s, r);
    AnswersPass(k, r, o);
  }

  ghost predicate ResultHashesAreDigests(k: Rules) {
    forall r :: k.digest(k.hashResult(r))
  }

  /** Such an outcome always becomes a valid result. */
  lemma AnswersMakeValidResults(k: Rules, s: Sorts, r: Request, o: Outcome)
    requires TokensAreNulFree(k) && AreSorts(s) && Valid(k, s, r) && ResultHashesAreDigests(k) && Answers(k, r, o)
    ensures ResultOK(k, ResultOf(k, r, o))
  {
    OutcomeCheckMeansAnswers(k, s, r, o);
    var result := ResultOf(k, r, o);
    assert result.(resultDigest := "").(resultDigest := result.resultDigest) == result;
  }
}
