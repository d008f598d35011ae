/** Request validation and sealing. */
module Sealing {
  import opened Wrappers
  import opened Ordering
  import opened ExecutionModel
  import opened Canonical
  import opened Closures
  import opened BindingClosures

  // ---- List and element checks ----

  ghost predicate RefList(k: Rules, values: seq<string>, min: nat, max: nat) {
    && min <= |values| <= max
    && (forall i :: 0 <= i < |values| ==> k.token(values[i]))
    && (forall h, i :: 0 <= h < i < |values| && h == i - 1 ==> Less(values[h], values[i]))
  }

  predicate RunsOn(d: DaemonTarget, engine: string) { engine != "" && d.engine == engine }

  ghost predicate DaemonsOK(k: Rules, engine: string, daemons: seq<DaemonTarget>) {
    && |daemons| <= MAX_REFS
    && (forall i :: 0 <= i < |daemons| ==>
        k.daemon(daemons[i]) && k.token(daemons[i].ref) && k.token(daemons[i].instanceRef))
    && (forall h, i :: 0 <= h < i < |daemons| && h == i - 1 ==>
        Less(Joined(DaemonKey(daemons[h])), Joined(DaemonKey(daemons[i]))))
    && (forall i :: 0 <= i < |daemons| ==> RunsOn(daemons[i], engine))
  }

  function AgentRefs(agents: seq<Agent>): seq<string> {
    if agents == [] then [] else AgentRefs(agents[..|agents| - 1]) + agents[|agents| - 1].artifactRefs
  }

  /** No artifact is handed off by two authorities of one adapter. */
  ghost predicate AdapterOK(k: Rules, a: Adapter) {
    && k.adapter(a) && RefList(k, a.artifactRefs, 1, MAX_ARTIFACTS) && |a.agents| <= MAX_AGENTS
    && (forall i :: 0 <= i < |a.agents| ==>
        k.agent(a.agents[i], a.moduleRef) && RefList(k, a.agents[i].artifactRefs, 1, MAX_ARTIFACTS))
    && (forall h, i :: 0 <= h < i < |a.agents| && h == i - 1 ==> Less(a.agents[h].id, a.agents[i].id))
    && Distinct(a.artifactRefs + AgentRefs(a.agents))
  }

  /** The capabilities each side may claim. */
  predicate CapabilityOK(k: Rules, side: Side, c: Capability) {
    && k.digest(c.contractHash)
    && match side
       case Access => c.ref == "private-remote-access" || c.ref == "public-publish-egress"
       case Backup => c.ref == "offsite-object-backup"
  }

  ghost predicate ClaimsOK(k: Rules, side: Side, c: BindingClaims) {
    && RefList(k, c.refs, 0, MAX_BINDINGS) && |c.capabilities| <= MAX_BINDINGS
    && (forall i :: 0 <= i < |c.capabilities| ==> CapabilityOK(k, side, c.capabilities[i]))
    && (forall h, i :: 0 <= h < i < |c.capabilities| && h == i - 1 ==>
        Less(c.capabilities[h].ref, c.capabilities[i].ref))
    && (c.refs == [] <==> c.capabilities == [])
  }

  ghost predicate TargetOK(k: Rules, t: RuntimeTarget) {
    && k.target(t) && k.token(t.requirementId) && k.token(t.instanceRef)
    && RefList(k, t.siteRefs, 1, MAX_REFS) && RefList(k, t.nodeRefs, 1, MAX_REFS)
    && DaemonsOK(k, t.runtimeEngine, t.daemons)
    && RefList(k, t.artifactRefs, if t.moduleRef != "" || t.unitRef != "" then 1 else 0, MAX_ARTIFACTS)
    && (t.adapter.Some? ==> AdapterOK(k, t.adapter.value))
    && ClaimsOK(k, Access, t.access) && ClaimsOK(k, Backup, t.backup)
  }

  predicate ProbeOK(p: Probe) {
    && (forall i :: 0 <= i < |p.expectedStatuses| ==> 100 <= p.expectedStatuses[i] <= 599)
    && (forall i, j :: 0 <= i < j < |p.expectedStatuses| ==> p.expectedStatuses[i] != p.expectedStatuses[j])
  }

  ghost predicate HealthOK(k: Rules, h: HealthTarget) {
    && k.health(h) && k.token(h.requirementId) && k.token(h.targetRef)
    && RefList(k, h.siteRefs, 0, MAX_REFS) && RefList(k, h.nodeRefs, 0, MAX_REFS)
    && (h.probe.Some? ==> ProbeOK(h.probe.value))
  }

  function ProjectionHash(k: Rules, s: Sorts, side: Side, b: Binding): string {
    k.hashBinding(side, b.(projectionHash := "", targetNodeRefs := s.strings(b.targetNodeRefs)))
  }

  ghost predicate BindingOK(k: Rules, s: Sorts, side: Side, b: Binding) {
    && k.binding(side, b) && k.token(b.id) && RefList(k, b.targetNodeRefs, 1, MAX_REFS)
    && b.projectionHash == ProjectionHash(k, s, side, b)
  }

  ghost predicate ArtifactOK(k: Rules, a: Artifact) {
    && k.artifact(a) && k.token(a.id)
    && a.executionClass in {CLASS_EXECUTABLE, CLASS_HANDOFF, CLASS_PLAN}
    && RefList(k, a.siteRefs, if a.ownerKind == OWNER_INSTANCE then 1 else 0, MAX_REFS)
    && RefList(k, a.nodeRefs, if a.ownerKind == OWNER_INSTANCE then 1 else 0, MAX_REFS)
    && |a.content| <= MAX_ARTIFACT_BYTES && k.hashContent(a.content) == a.digest
  }

  function TotalContent(artifacts: seq<Artifact>): nat {
    if artifacts == [] then 0 else TotalContent(artifacts[..|artifacts| - 1]) + |artifacts[|artifacts| - 1].content|
  }

  ghost predicate ArtifactsOK(k: Rules, artifacts: seq<Artifact>) {
    && (forall a :: a in artifacts ==> ArtifactOK(k, a))
    && TotalContent(artifacts) <= MAX_TOTAL_ARTIFACT_BYTES
    && Distinct(Map(ArtifactId, artifacts))
  }

  function HealthId(h: HealthTarget): string { h.requirementId }

  /** Health bound to a runtime requirement has the placement of that requirement's last target. */
  ghost predicate HealthBound(targets: seq<RuntimeTarget>, health: seq<HealthTarget>) {
    forall h :: h in health && h.runtimeRequirementId != "" ==>
      exists i :: 0 <= i < |targets| && targets[i].requirementId == h.runtimeRequirementId
        && (forall j :: i < j < |targets| ==> targets[j].requirementId != h.runtimeRequirementId)
        && h.siteRefs == targets[i].siteRefs && h.nodeRefs == targets[i].nodeRefs
  }

  function JoinedNodes(nodes: seq<string>): string {
    if nodes == [] then "" else if |nodes| == 1 then nodes[0] else nodes[0] + [NUL] + JoinedNodes(nodes[1..])
  }

  /** The authority a binding stands for; no two bindings of a side may share one. */
  function Scope(side: Side, b: Binding): string {
    match side
    case Access => b.siteRef + [NUL] + b.capabilityRef
    case Backup => b.siteRef + [NUL] + b.capabilityRef + [NUL] + JoinedNodes(b.targetNodeRefs)
  }

  ghost predicate BindingListOK(k: Rules, s: Sorts, bindings: seq<Binding>, side: Side) {
    && |bindings| <= MAX_BINDINGS && (forall b :: b in bindings ==> BindingOK(k, s, side, b))
    && Distinct(Map(BindingId, bindings)) && Distinct(Map((b: Binding) => Scope(side, b), bindings))
  }

  ghost predicate TopologyOK(k: Rules, s: Sorts, r: Request) {
    && (forall t :: t in r.runtimeTargets ==> TargetOK(k, t)) && Distinct(Map(RuntimeKey, r.runtimeTargets))
    && (forall h :: h in r.healthTargets ==> HealthOK(k, h)) && Distinct(Map(HealthId, r.healthTargets))
    && HealthBound(r.runtimeTargets, r.healthTargets)
    && BindingListOK(k, s, r.accessBindings, Access) && BindingListOK(k, s, r.backupBindings, Backup)
    && ArtifactsOK(k, r.artifacts)
    && ExactOwnership(r.runtimeTargets, r.artifacts, r.planHash)
    && BindingsPartitioned(r.runtimeTargets, r.accessBindings, Access)
    && BindingsPartitioned(r.runtimeTargets, r.backupBindings, Backup)
  }

  predicate AuthorityOK(k: Rules, r: Request) {
    && r.apiVersion == API_VERSION && IdentityOK(k, r.executor)
    && k.digest(r.planHash) && k.digest(r.manifestHash) && k.digest(r.generationReceiptHash)
    && k.digest(r.requirementsHash) && k.digest(r.evidenceBundleHash)
    && k.digest(r.artifactSetHash) && k.digest(r.requestDigest)
    && 1 <= |r.runtimeTargets| <= MAX_TARGETS && |r.healthTargets| <= MAX_TARGETS && |r.artifacts| <= MAX_ARTIFACTS
    && (if r.accessBindings == [] && r.backupBindings == [] then r.authorizationTime == ""
      else k.time(r.authorizationTime).Some?)
  }

  /** Artifact identities leave the content out; the digest binds it. */
  function WithoutContent(a: Artifact): Artifact { a.(content := "") }

  ghost function ArtifactSetHash(k: Rules, s: Sorts, artifacts: seq<Artifact>): Option<string> {
    var canonical := Map((a: Artifact) => CanonicalArtifact(s, a), s.artifacts(artifacts));
    if ArtifactsOK(k, canonical) then Some(k.hashArtifacts(Map(WithoutContent, canonical))) else None
  }

  function RequestDigest(k: Rules, r: Request): string { k.hashRequest(r.(requestDigest := "")) }

  ghost predicate Valid(k: Rules, s: Sorts, r: Request) {
    && AuthorityOK(k, r) && TopologyOK(k, s, r)
    && r == CanonicalRequest(s, r)
    && ArtifactSetHash(k, s, r.artifacts) == Some(r.artifactSetHash)
    && r.requestDigest == RequestDigest(k, r)
  }

  function Reproject(k: Rules, s: Sorts, side: Side, b: Binding): Binding {
    b.(projectionHash := ProjectionHash(k, s, side, b))
  }

  /** Canonical form with fresh projection hashes; the two request digests are still blank. */
  function Prepared(k: Rules, s: Sorts, input: Request): Request {
    var r := CanonicalRequest(s,
      input.(apiVersion := if input.apiVersion == "" then API_VERSION else input.apiVersion));
    r.(accessBindings := Map((b: Binding) => Reproject(k, s, Access, b), r.accessBindings),
       backupBindings := Map((b: Binding) => Reproject(k, s, Backup, b), r.backupBindings),
       artifactSetHash := "", requestDigest := "")
  }

  ghost function Seal(k: Rules, s: Sorts, input: Request): Option<Request> {
    var r := Prepared(k, s, input);
    match ArtifactSetHash(k, s, r.artifacts)
    case None => None
    case Some(hash) =>
      var bound := r.(artifactSetHash := hash);
      var sealed := bound.(requestDigest := RequestDigest(k, bound));
      if Valid(k, s, sealed) then Some(sealed) else None
  }

  // ---- Validation forces strict order ----

  lemma RefListStrict(k: Rules, values: seq<string>, min: nat, max: nat)
    requires RefList(k, values, min, max)
    ensures StrictlySorted(values, Less)
  {
    AdjacentStringsSorted(values);
  }

  function AgentId(a: Agent): string { a.id }

  lemma AdapterStrict(k: Rules, a: Adapter)
    requires AdapterOK(k, a)
    ensures StrictAdapter(a)
  {
    RefListStrict(k, a.artifactRefs, 1, MAX_ARTIFACTS);
    AdjacentStringsSorted(Map(AgentId, a.agents));
    assert StrictlySorted(a.agents, AgentLess) by {
      forall i, j | 0 <= i < j < |a.agents| ensures AgentLess(a.agents[i], a.agents[j]) {
        assert Less(Map(AgentId, a.agents)[i], Map(AgentId, a.agents)[j]);
      }
    }
    forall x | x in a.agents ensures StrictAgent(x) {
      RefListStrict(k, x.artifactRefs, 1, MAX_ARTIFACTS);
    }
  }

  lemma ClaimsStrict(k: Rules, side: Side, c: BindingClaims)
    requires ClaimsOK(k, side, c)
    ensures StrictClaims(c)
  {
    RefListStrict(k, c.refs, 0, MAX_BINDINGS);
    var refs := Map(CapabilityRef, c.capabilities);
    AdjacentStringsSorted(refs);
    forall i, j | 0 <= i < j < |refs| ensures CapabilityLess(c.capabilities[i], c.capabilities[j]) {
      assert Less(refs[i], refs[j]);
    }
  }

  lemma DaemonsStrict(k: Rules, engine: string, daemons: seq<DaemonTarget>)
    requires TokensAreNulFree(k) && DaemonsOK(k, engine, daemons)
    ensures StrictlySorted(daemons, DaemonLess)
  {
    var keys := Map(DaemonKey, daemons);
    forall h, i | 0 <= h < i < |keys| && h == i - 1 ensures PairLess(keys[h], keys[i]) {
      JoinedKeysOrderLikePairs(keys[i - 1], keys[i]);
    }
    AdjacentPairsSorted(keys);
    forall i, j | 0 <= i < j < |keys| ensures DaemonLess(daemons[i], daemons[j]) {
      assert PairLess(keys[i], keys[j]);
    }
  }

  lemma TargetStrict(k: Rules, t: RuntimeTarget)
    requires TokensAreNulFree(k) && TargetOK(k, t)
    ensures StrictTarget(t)
  {
    RefListStrict(k, t.siteRefs, 1, MAX_REFS);
    RefListStrict(k, t.nodeRefs, 1, MAX_REFS);
    AdjacentStringsSorted(t.artifactRefs);
    DaemonsStrict(k, t.runtimeEngine, t.daemons);
    if t.adapter.Some? { AdapterStrict(k, t.adapter.value); }
    ClaimsStrict(k, Access, t.access);
    ClaimsStrict(k, Backup, t.backup);
  }

  lemma HealthStrict(k: Rules, h: HealthTarget)
    requires HealthOK(k, h) && SortedHealth(h)
    ensures StrictHealth(h)
  {
    RefListStrict(k, h.siteRefs, 0, MAX_REFS);
    RefListStrict(k, h.nodeRefs, 0, MAX_REFS);
  }

  lemma ArtifactStrict(k: Rules, a: Artifact)
    requires ArtifactOK(k, a)
    ensures StrictArtifact(a)
  {
    AdjacentStringsSorted(a.siteRefs);
    AdjacentStringsSorted(a.nodeRefs);
  }

  /** A sorted list with distinct keys is strictly sorted when the order decides between different keys. */
  lemma DistinctKeysSortStrictly<A(!new), K(!new)>(l: seq<A>, less: (A, A) -> bool, key: A -> K)
    requires Sorted(l, less) && Distinct(Map(key, l))
    requires forall x, y :: key(x) != key(y) ==> less(x, y) || less(y, x)
    ensures StrictlySorted(l, less)
  {
    forall i, j | 0 <= i < j < |l| ensures less(l[i], l[j]) {
      assert Map(key, l)[i] != Map(key, l)[j];
    }
  }

  lemma TargetListStrict(k: Rules, l: seq<RuntimeTarget>)
    requires TokensAreNulFree(k) && Sorted(l, TargetLess) && Distinct(Map(RuntimeKey, l))
    requires forall t :: t in l ==> TargetOK(k, t)
    ensures StrictlySorted(l, TargetLess) && forall t :: t in l ==> StrictTarget(t)
  {
    forall x, y | RuntimeKey(x) != RuntimeKey(y) ensures TargetLess(x, y) || TargetLess(y, x) {
      PairLessTotal(RuntimeKey(x), RuntimeKey(y));
    }
    DistinctKeysSortStrictly(l, TargetLess, RuntimeKey);
    forall t | t in l ensures StrictTarget(t) { TargetStrict(k, t); }
  }

  lemma HealthListStrict(k: Rules, l: seq<HealthTarget>)
    requires Sorted(l, HealthLess) && Distinct(Map(HealthId, l))
    requires forall h :: h in l ==> HealthOK(k, h) && SortedHealth(h)
    ensures StrictlySorted(l, HealthLess) && forall h :: h in l ==> StrictHealth(h)
  {
    forall x, y | HealthId(x) != HealthId(y) ensures HealthLess(x, y) || HealthLess(y, x) {
      LessTotal(HealthId(x), HealthId(y));
    }
    DistinctKeysSortStrictly(l, HealthLess, HealthId);
    forall h | h in l ensures StrictHealth(h) { HealthStrict(k, h); }
  }

  lemma BindingListStrict(k: Rules, s: Sorts, side: Side, l: seq<Binding>)
    requires Sorted(l, BindingLess) && Distinct(Map(BindingId, l)) && forall b :: b in l ==> BindingOK(k, s, side, b)
    ensures StrictlySorted(l, BindingLess) && forall b :: b in l ==> StrictBinding(b)
  {
    forall x, y | BindingId(x) != BindingId(y) ensures BindingLess(x, y) || BindingLess(y, x) {
      LessTotal(BindingId(x), BindingId(y));
    }
    DistinctKeysSortStrictly(l, BindingLess, BindingId);
    forall b | b in l ensures StrictBinding(b) { RefListStrict(k, b.targetNodeRefs, 1, MAX_REFS); }
  }

  lemma ArtifactListStrict(k: Rules, l: seq<Artifact>)
    requires Sorted(l, ArtifactLess) && ArtifactsOK(k, l)
    ensures StrictlySorted(l, ArtifactLess) && forall a :: a in l ==> StrictArtifact(a)
  {
    forall x, y | ArtifactId(x) != ArtifactId(y) ensures ArtifactLess(x, y) || ArtifactLess(y, x) {
      LessTotal(ArtifactId(x), ArtifactId(y));
    }
    DistinctKeysSortStrictly(l, ArtifactLess, ArtifactId);
    forall a | a in l ensures StrictArtifact(a) { ArtifactStrict(k, a); }
  }

  lemma ValidIsSorted(k: Rules, s: Sorts, r: Request)
    requires AreSorts(s) && Valid(k, s, r)
    ensures SortedRequest(r)
  {
    CanonicalRequestFacts(s, r);
  }

  lemma TopologyIsStrict(k: Rules, s: Sorts, r: Request)
    requires TokensAreNulFree(k) && SortedRequest(r) && TopologyOK(k, s, r)
    ensures StrictRequest(r)
  {
    TargetListStrict(k, r.runtimeTargets);
    HealthListStrict(k, r.healthTargets);
    BindingListStrict(k, s, Access, r.accessBindings);
    BindingListStrict(k, s, Backup, r.backupBindings);
    ArtifactListStrict(k, r.artifacts);
  }

  /** The adjacent comparisons, unique keys and the canonical-form check together force strict order at every level. */
  lemma ValidIsStrict(k: Rules, s: Sorts, r: Request)
    requires TokensAreNulFree(k) && AreSorts(s) && Valid(k, s, r)
    ensures StrictRequest(r)
  {
    ValidIsSorted(k, s, r);
    TopologyIsStrict(k, s, r);
  }
}
