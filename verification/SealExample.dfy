/** Requests that seal: the hypotheses of the sealing results can be met. */
module SealExample {
  import opened Wrappers
  import opened Ordering
  import opened ExecutionModel
  import opened Canonical
  import opened Closures
  import opened BindingClosures
  import opened Sealing
  import opened SealOrder
  import opened SortWitness

  /** Rules that ask of tokens only that they are not empty and NUL-free, and accept everything else. */
  const LENIENT := Rules(
    (s: string) => s != "" && NulFree(s), (s: string) => true, (s: string) => Some(0),
    (t: RuntimeTarget) => true, (h: HealthTarget) => true, (side: Side, b: Binding) => true, (a: Artifact) => true,
    (a: Agent, m: string) => true, (a: Adapter) => true, (d: DaemonTarget) => true,
    (o: Observation) => true, (o: Observation) => true,
    (c: string) => "d", (a: seq<Artifact>) => "d", (side: Side, b: Binding) => "d", (r: Request) => "d",
      (r: Result) => "d")

  /** A target of requirement `id`, placed on one node and owning nothing. */
  function PlacedTarget(id: string, instance: string): RuntimeTarget {
    RuntimeTarget(id, instance, "", "", "", "", "", "", "", "", ["s"], ["n"], [], [], None, NO_CLAIMS, NO_CLAIMS)
  }

  /** A health check of requirement `id`, for the runtime of the given name. */
  function PlacedHealth(id: string, target: string): HealthTarget {
    HealthTarget(id, "", "runtime", target, "", None, ["s"], ["n"])
  }

  function PlacedRequest(targets: seq<RuntimeTarget>, health: seq<HealthTarget>): Request {
    Request(API_VERSION, ExecutorIdentity("e", "v", "d"), "d", "d", "d", "d", "d", "", "d", targets, health, [], [], [],
      "d")
  }

  predicate Token(s: string) { s != "" && NulFree(s) }

  ghost predicate Placed(targets: seq<RuntimeTarget>) {
    && 1 <= |targets| <= MAX_TARGETS && StrictlySorted(targets, TargetLess)
    && forall t :: t in targets ==>
       Token(t.requirementId) && Token(t.instanceRef) && t == PlacedTarget(t.requirementId, t.instanceRef)
  }

  ghost predicate Checked(health: seq<HealthTarget>) {
    && |health| <= MAX_TARGETS && StrictlySorted(health, HealthLess)
    && forall h :: h in health ==>
       Token(h.requirementId) && Token(h.targetRef) && h == PlacedHealth(h.requirementId, h.targetRef)
  }

  lemma PlacedTargetIsOK(id: string, instance: string)
    requires Token(id) && Token(instance)
    ensures TargetOK(LENIENT, PlacedTarget(id, instance)) && StrictTarget(PlacedTarget(id, instance))
  {
  }

  lemma PlacedAreOK(targets: seq<RuntimeTarget>)
    requires Placed(targets)
    ensures forall t :: t in targets ==> TargetOK(LENIENT, t) && StrictTarget(t)
  {
    forall t | t in targets ensures TargetOK(LENIENT, t) && StrictTarget(t) {
      PlacedTargetIsOK(t.requirementId, t.instanceRef);
    }
  }

  lemma PlacedKeysAreDistinct(targets: seq<RuntimeTarget>)
    requires Placed(targets)
    ensures Distinct(Map(RuntimeKey, targets))
  {
    forall i, j | 0 <= i < j < |targets| ensures RuntimeKey(targets[i]) != RuntimeKey(targets[j]) {
      assert TargetLess(targets[i], targets[j]);
      PairLessAsymmetric(RuntimeKey(targets[i]), RuntimeKey(targets[j]));
    }
  }

  lemma CheckedAreOK(health: seq<HealthTarget>)
    requires Checked(health)
    ensures forall h :: h in health ==> HealthOK(LENIENT, h) && StrictHealth(h)
    ensures Distinct(Map(HealthId, health))
  {
    forall i, j | 0 <= i < j < |health| ensures HealthId(health[i]) != HealthId(health[j]) {
      assert HealthLess(health[i], health[j]);
      LessIrreflexive(HealthId(health[i]));
    }
  }

  lemma {:induction false} NoReferences(targets: seq<RuntimeTarget>)
    requires forall t :: t in targets ==>
      t.artifactRefs == [] && t.adapter == None && t.access == NO_CLAIMS && t.backup == NO_CLAIMS
    ensures RuntimeRefs(targets) == [] && AllHandoffs(targets) == []
    ensures AllBindingRefs(targets, Access) == [] && AllBindingRefs(targets, Backup) == []
  {
    if targets != [] { NoReferences(targets[..|targets| - 1]); }
  }

  lemma NothingOwned(targets: seq<RuntimeTarget>)
    requires Placed(targets)
    ensures ExactOwnership(targets, [], "d")
    ensures BindingsPartitioned(targets, [], Access) && BindingsPartitioned(targets, [], Backup)
  {
    NoReferences(targets);
  }

  lemma PlacedTopologyIsOK(s: Sorts, targets: seq<RuntimeTarget>, health: seq<HealthTarget>)
    requires Placed(targets) && Checked(health)
    ensures TopologyOK(LENIENT, s, PlacedRequest(targets, health))
  {
    PlacedAreOK(targets);
    PlacedKeysAreDistinct(targets);
    CheckedAreOK(health);
    NothingOwned(targets);
  }

  lemma PlacedIsFixed(s: Sorts, targets: seq<RuntimeTarget>, health: seq<HealthTarget>)
    requires AreSorts(s) && Placed(targets) && Checked(health)
    ensures CanonicalRequest(s, PlacedRequest(targets, health)) == PlacedRequest(targets, health)
    ensures ArtifactSetHash(LENIENT, s, []) == Some("d")
  {
    PlacedAreOK(targets);
    CheckedAreOK(health);
    StrictIsCanonical(s, PlacedRequest(targets, health));
    StrictArtifactSetHash(LENIENT, s, []);
  }

  lemma PlacedAuthorityIsOK(targets: seq<RuntimeTarget>, health: seq<HealthTarget>)
    requires Placed(targets) && Checked(health)
    ensures var r := PlacedRequest(targets, health); AuthorityOK(LENIENT, r) && RequestDigest(LENIENT, r) == "d"
  {
  }

  lemma ValidFromParts(k: Rules, s: Sorts, r: Request)
    requires AuthorityOK(k, r) && TopologyOK(k, s, r) && CanonicalRequest(s, r) == r
    requires ArtifactSetHash(k, s, r.artifacts) == Some(r.artifactSetHash) && r.requestDigest == RequestDigest(k, r)
    ensures Valid(k, s, r)
  {
  }

  /** Under lenient rules, and whatever the sorts, placed targets and their checks form a valid request. */
  lemma PlacedRequestIsValid(s: Sorts, targets: seq<RuntimeTarget>, health: seq<HealthTarget>)
    requires AreSorts(s) && Placed(targets) && Checked(health)
    ensures TokensAreNulFree(LENIENT) && Valid(LENIENT, s, PlacedRequest(targets, health))
  {
    PlacedIsFixed(s, targets, health);
    PlacedAuthorityIsOK(targets, health);
    PlacedTopologyIsOK(s, targets, health);
    ValidFromParts(LENIENT, s, PlacedRequest(targets, health));
  }

  /** The hypotheses of the sealing results can be met together. */
  lemma SomeRequestIsValid()
    ensures exists k, s, r :: TokensAreNulFree(k) && AreSorts(s) && Valid(k, s, r)
  {
    SortsExist();
    var targets := [PlacedTarget("r", "i")];
    assert Placed(targets);
    PlacedRequestIsValid(SomeSorts(), targets, []);
  }
}
