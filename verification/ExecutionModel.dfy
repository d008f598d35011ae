/** Records of the runtimeexecutor v1beta1 contract, its format rules, digests and library sorts. */
module ExecutionModel {
  import opened Wrappers
  import opened Ordering

  const API_VERSION := "runtimeexecutor/v1beta1"
  const MAX_TARGETS: nat := 256
  const MAX_BINDINGS: nat := 256
  const MAX_ARTIFACTS: nat := 512
  const MAX_ARTIFACT_BYTES: nat := 4194304
  const MAX_TOTAL_ARTIFACT_BYTES: nat := 33554432
  const MAX_REFS: nat := 128
  const MAX_AGENTS: nat := 128

  const CLASS_EXECUTABLE := "executable"
  const CLASS_HANDOFF := "contract-handoff"
  const CLASS_PLAN := "plan"
  const OWNER_PLAN := "plan"
  const OWNER_INSTANCE := "render-instance"
  const STATUS_APPLIED := "applied"
  const STATUS_HEALTHY := "healthy"

  datatype ExecutorIdentity = ExecutorIdentity(id: string, version: string, digest: string)
  datatype DaemonTarget = DaemonTarget(ref: string, instanceRef: string, engine: string, socketPath: string)
  datatype Capability = Capability(ref: string, contractHash: string)
  datatype Agent = Agent(id: string, moduleRef: string, moduleVersion: string, moduleContractHash: string,
                         artifactRefs: seq<string>)
  datatype Adapter = Adapter(id: string, providerRef: string, providerVersion: string, providerContractHash: string,
                             moduleRef: string, moduleVersion: string, moduleContractHash: string,
                             artifactRefs: seq<string>, agents: seq<Agent>)

  /** One side of the external bindings of a target: the references and the capabilities they must cover. */
  datatype BindingClaims = BindingClaims(refs: seq<string>, capabilities: seq<Capability>)

  /** `facts` stands for the owner, runtime, workload, image and channel scalars. */
  datatype RuntimeTarget = RuntimeTarget(
    requirementId: string, instanceRef: string, providerRef: string, providerContractHash: string,
    moduleRef: string, moduleContractHash: string, unitRef: string, unitContractHash: string,
    runtimeEngine: string, facts: string,
    siteRefs: seq<string>, nodeRefs: seq<string>, daemons: seq<DaemonTarget>, artifactRefs: seq<string>,
    adapter: Option<Adapter>, access: BindingClaims, backup: BindingClaims)

  /** Bindings and capabilities come in two closed families. */
  datatype Side = Access | Backup

  /** An access or a backup-target binding; `facts` stands for its kind and hashes. */
  datatype Binding = Binding(
    id: string, runtimeRequirementId: string, siteRef: string, capabilityRef: string, contractOwnerRef: string,
    capabilityContractHash: string, targetNodeRefs: seq<string>, issuedAt: string, validUntil: string, facts: string,
    projectionHash: string)

  datatype Probe = Probe(facts: string, expectedStatuses: seq<int>)
  datatype HealthTarget = HealthTarget(
    requirementId: string, runtimeRequirementId: string, targetKind: string, targetRef: string, facts: string,
    probe: Option<Probe>, siteRefs: seq<string>, nodeRefs: seq<string>)

  datatype Artifact = Artifact(
    id: string, executionClass: string, ownerKind: string, ownerRef: string, ownerContractHash: string,
    providerRef: string, providerContractHash: string, moduleRef: string, moduleContractHash: string,
    unitRef: string, unitContractHash: string, instanceRef: string, facts: string,
    siteRefs: seq<string>, nodeRefs: seq<string>, digest: string, content: string)

  datatype Request = Request(
    apiVersion: string, executor: ExecutorIdentity, planHash: string, manifestHash: string,
    generationReceiptHash: string, requirementsHash: string, evidenceBundleHash: string, authorizationTime: string,
    artifactSetHash: string, runtimeTargets: seq<RuntimeTarget>, healthTargets: seq<HealthTarget>,
    accessBindings: seq<Binding>, backupBindings: seq<Binding>, artifacts: seq<Artifact>, requestDigest: string)

  datatype Observation = Observation(ref: string, digest: string)
  datatype RuntimeOutcome = RuntimeOutcome(requirementId: string, instanceRef: string, status: string,
                                           observed: Observation)
  datatype HealthOutcome = HealthOutcome(requirementId: string, targetRef: string, status: string,
                                         observed: Observation)
  datatype Outcome = Outcome(runtime: seq<RuntimeOutcome>, health: seq<HealthOutcome>)
  datatype Result = Result(
    apiVersion: string, executor: ExecutorIdentity, planHash: string, manifestHash: string,
    generationReceiptHash: string, requirementsHash: string, evidenceBundleHash: string, artifactSetHash: string,
    requestDigest: string, runtime: seq<RuntimeOutcome>, health: seq<HealthOutcome>, resultDigest: string)

  /**
   * Regular expressions and the other scalar checks as predicates, SHA-256 over canonical JSON as functions; `time`
   * gives
   * the instant a canonical UTC timestamp denotes.
   */
  datatype Rules = Rules(
    token: string -> bool, digest: string -> bool, time: string -> Option<int>,
    target: RuntimeTarget -> bool, health: HealthTarget -> bool, binding: (Side, Binding) -> bool,
    artifact: Artifact -> bool,
    agent: (Agent, string) -> bool, adapter: Adapter -> bool,
    daemon: DaemonTarget -> bool, runtimeObservation: Observation -> bool, healthObservation: Observation -> bool,
    hashContent: string -> string, hashArtifacts: seq<Artifact> -> string, hashBinding: (Side, Binding) -> string,
    hashRequest: Request -> string, hashResult: Result -> string)

  /** The one fact about tokens that the joined keys rely on. */
  ghost predicate TokensAreNulFree(k: Rules) {
    forall s :: k.token(s) ==> NulFree(s)
  }

  predicate IdentityOK(k: Rules, e: ExecutorIdentity) {
    k.token(e.id) && k.token(e.version) && k.digest(e.digest)
  }

  function RuntimeKey(t: RuntimeTarget): (string, string) { (t.requirementId, t.instanceRef) }
  function DaemonKey(d: DaemonTarget): (string, string) { (d.ref, d.instanceRef) }

  predicate DaemonLess(a: DaemonTarget, b: DaemonTarget) { PairLess(DaemonKey(a), DaemonKey(b)) }
  predicate CapabilityLess(a: Capability, b: Capability) { Less(a.ref, b.ref) }
  predicate AgentLess(a: Agent, b: Agent) { Less(a.id, b.id) }
  predicate TargetLess(a: RuntimeTarget, b: RuntimeTarget) { PairLess(RuntimeKey(a), RuntimeKey(b)) }
  predicate HealthLess(a: HealthTarget, b: HealthTarget) { Less(a.requirementId, b.requirementId) }
  predicate BindingLess(a: Binding, b: Binding) { Less(a.id, b.id) }
  predicate ArtifactLess(a: Artifact, b: Artifact) { Less(a.id, b.id) }
  predicate IntLess(a: int, b: int) { a < b }

  /** The sort routines in use, one per element type; nothing is known about how they order equal keys. */
  datatype Sorts = Sorts(
    strings: seq<string> -> seq<string>, statuses: seq<int> -> seq<int>,
    daemons: seq<DaemonTarget> -> seq<DaemonTarget>,
    capabilities: seq<Capability> -> seq<Capability>, agents: seq<Agent> -> seq<Agent>,
    targets: seq<RuntimeTarget> -> seq<RuntimeTarget>, health: seq<HealthTarget> -> seq<HealthTarget>,
    bindings: seq<Binding> -> seq<Binding>, artifacts: seq<Artifact> -> seq<Artifact>)

  ghost predicate SortsBy<T(!new)>(sort: seq<T> -> seq<T>, less: (T, T) -> bool) {
    forall s {:trigger sort(s)} :: multiset(sort(s)) == multiset(s) && Sorted(sort(s), less)
  }

  ghost predicate AreSorts(s: Sorts) {
    && SortsBy(s.strings, Less) && SortsBy(s.statuses, IntLess) && SortsBy(s.daemons, DaemonLess)
    && SortsBy(s.capabilities, CapabilityLess) && SortsBy(s.agents, AgentLess) && SortsBy(s.targets, TargetLess)
    && SortsBy(s.health, HealthLess) && SortsBy(s.bindings, BindingLess) && SortsBy(s.artifacts, ArtifactLess)
  }
}
