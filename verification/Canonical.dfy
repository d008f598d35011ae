/** Canonical form: nested sorting of every list of a request, and why it depends on unordered content only. */
module Canonical {
  import opened Wrappers
  import opened Ordering
  import opened ExecutionModel

  function CanonicalAgent(s: Sorts, a: Agent): Agent { a.(artifactRefs := s.strings(a.artifactRefs)) }

  function CanonicalAdapter(s: Sorts, a: Adapter): Adapter {
    a.(artifactRefs := s.strings(a.artifactRefs),
       agents := s.agents(Map((x: Agent) => CanonicalAgent(s, x), a.agents)))
  }

  function CanonicalClaims(s: Sorts, c: BindingClaims): BindingClaims {
    BindingClaims(s.strings(c.refs), s.capabilities(c.capabilities))
  }

  function CanonicalTarget(s: Sorts, t: RuntimeTarget): RuntimeTarget {
    t.(siteRefs := s.strings(t.siteRefs), nodeRefs := s.strings(t.nodeRefs), daemons := s.daemons(t.daemons),
       artifactRefs := s.strings(t.artifactRefs),
       adapter := match t.adapter case None => None case Some(a) => Some(CanonicalAdapter(s, a)),
       access := CanonicalClaims(s, t.access), backup := CanonicalClaims(s, t.backup))
  }

  function CanonicalProbe(s: Sorts, p: Probe): Probe { p.(expectedStatuses := s.statuses(p.expectedStatuses)) }

  function CanonicalHealth(s: Sorts, h: HealthTarget): HealthTarget {
    h.(siteRefs := s.strings(h.siteRefs), nodeRefs := s.strings(h.nodeRefs),
       probe := match h.probe case None => None case Some(p) => Some(CanonicalProbe(s, p)))
  }

  function CanonicalBinding(s: Sorts, b: Binding): Binding { b.(targetNodeRefs := s.strings(b.targetNodeRefs)) }

  /** An absent execution class is derived from the owner. */
  function FillClass(a: Artifact): Artifact {
    if a.executionClass != "" then a
    else a.(executionClass := if a.ownerKind == OWNER_PLAN then CLASS_PLAN else CLASS_EXECUTABLE)
  }

  function CanonicalArtifact(s: Sorts, a: Artifact): Artifact {
    FillClass(a).(siteRefs := s.strings(a.siteRefs), nodeRefs := s.strings(a.nodeRefs))
  }

  function CanonicalArtifacts(s: Sorts, artifacts: seq<Artifact>): seq<Artifact> {
    s.artifacts(Map((a: Artifact) => CanonicalArtifact(s, a), artifacts))
  }

  function CanonicalRequest(s: Sorts, r: Request): Request {
    r.(runtimeTargets := s.targets(Map((t: RuntimeTarget) => CanonicalTarget(s, t), r.runtimeTargets)),
       healthTargets := s.health(Map((h: HealthTarget) => CanonicalHealth(s, h), r.healthTargets)),
       accessBindings := s.bindings(Map((b: Binding) => CanonicalBinding(s, b), r.accessBindings)),
       backupBindings := s.bindings(Map((b: Binding) => CanonicalBinding(s, b), r.backupBindings)),
       artifacts := CanonicalArtifacts(s, r.artifacts))
  }

  // Unordered content: every list becomes a multiset, everything sealing recomputes is blanked.

  datatype AgentContent = AgentContent(shell: Agent, artifacts: multiset<string>)
  datatype AdapterContent = AdapterContent(shell: Adapter, artifacts: multiset<string>, agents: multiset<AgentContent>)
  datatype ClaimsContent = ClaimsContent(refs: multiset<string>, capabilities: multiset<Capability>)
  datatype TargetContent = TargetContent(
    shell: RuntimeTarget, sites: multiset<string>, nodes: multiset<string>, daemons: multiset<DaemonTarget>,
    artifacts: multiset<string>, adapter: Option<AdapterContent>, access: ClaimsContent, backup: ClaimsContent)
  datatype HealthContent = HealthContent(
    shell: HealthTarget, sites: multiset<string>, nodes: multiset<string>, probe: Option<(string, multiset<int>)>)
  datatype BindingContent = BindingContent(shell: Binding, nodes: multiset<string>)
  datatype ArtifactContent = ArtifactContent(shell: Artifact, sites: multiset<string>, nodes: multiset<string>)
  datatype Content = Content(
    shell: Request, targets: multiset<TargetContent>, health: multiset<HealthContent>,
    access: multiset<BindingContent>, backup: multiset<BindingContent>, artifacts: multiset<ArtifactContent>)

  function AgentContentOf(a: Agent): AgentContent { AgentContent(a.(artifactRefs := []), multiset(a.artifactRefs)) }

  function AdapterContentOf(a: Adapter): AdapterContent {
    AdapterContent(a.(artifactRefs := [], agents := []), multiset(a.artifactRefs),
      multiset(Map(AgentContentOf, a.agents)))
  }

  function ClaimsContentOf(c: BindingClaims): ClaimsContent {
    ClaimsContent(multiset(c.refs), multiset(c.capabilities))
  }

  const NO_CLAIMS := BindingClaims([], [])

  function TargetContentOf(t: RuntimeTarget): TargetContent {
    TargetContent(
      t.(siteRefs := [], nodeRefs := [], daemons := [], artifactRefs := [], adapter := None, access := NO_CLAIMS,
        backup := NO_CLAIMS),
      multiset(t.siteRefs), multiset(t.nodeRefs), multiset(t.daemons), multiset(t.artifactRefs),
      match t.adapter case None => None case Some(a) => Some(AdapterContentOf(a)),
      ClaimsContentOf(t.access), ClaimsContentOf(t.backup))
  }

  function HealthContentOf(h: HealthTarget): HealthContent {
    HealthContent(h.(siteRefs := [], nodeRefs := [], probe := None), multiset(h.siteRefs), multiset(h.nodeRefs),
                  match h.probe case None => None case Some(p) => Some((p.facts, multiset(p.expectedStatuses))))
  }

  function BindingContentOf(b: Binding): BindingContent {
    BindingContent(b.(targetNodeRefs := [], projectionHash := ""), multiset(b.targetNodeRefs))
  }

  function ArtifactContentOf(a: Artifact): ArtifactContent {
    ArtifactContent(FillClass(a).(siteRefs := [], nodeRefs := []), multiset(a.siteRefs), multiset(a.nodeRefs))
  }

  function ContentOf(r: Request): Content {
    Content(
      r.(apiVersion := if r.apiVersion == "" then API_VERSION else r.apiVersion,
         artifactSetHash := "", requestDigest := "", runtimeTargets := [], healthTargets := [],
         accessBindings := [], backupBindings := [], artifacts := []),
      multiset(Map(TargetContentOf, r.runtimeTargets)), multiset(Map(HealthContentOf, r.healthTargets)),
      multiset(Map(BindingContentOf, r.accessBindings)), multiset(Map(BindingContentOf, r.backupBindings)),
      multiset(Map(ArtifactContentOf, r.artifacts)))
  }

  // Canonical elements keep their content and have sorted lists.

  ghost predicate SortedAgent(a: Agent) { Sorted(a.artifactRefs, Less) }
  ghost predicate StrictAgent(a: Agent) { StrictlySorted(a.artifactRefs, Less) }

  ghost predicate SortedAdapter(a: Adapter) {
    Sorted(a.artifactRefs, Less) && Sorted(a.agents, AgentLess) && forall x :: x in a.agents ==> SortedAgent(x)
  }
  ghost predicate StrictAdapter(a: Adapter) {
    StrictlySorted(a.artifactRefs, Less) && StrictlySorted(a.agents, AgentLess) &&
      forall x :: x in a.agents ==> StrictAgent(x)
  }

  ghost predicate SortedClaims(c: BindingClaims) { Sorted(c.refs, Less) && Sorted(c.capabilities, CapabilityLess) }
  ghost predicate StrictClaims(c: BindingClaims) {
    StrictlySorted(c.refs, Less) && StrictlySorted(c.capabilities, CapabilityLess)
  }

  ghost predicate SortedTarget(t: RuntimeTarget) {
    && Sorted(t.siteRefs, Less) && Sorted(t.nodeRefs, Less) && Sorted(t.daemons, DaemonLess)
    && Sorted(t.artifactRefs, Less)
    && (t.adapter.Some? ==> SortedAdapter(t.adapter.value)) && SortedClaims(t.access) && SortedClaims(t.backup)
  }
  ghost predicate StrictTarget(t: RuntimeTarget) {
    && StrictlySorted(t.siteRefs, Less) && StrictlySorted(t.nodeRefs, Less)
    && StrictlySorted(t.daemons, DaemonLess) && StrictlySorted(t.artifactRefs, Less)
    && (t.adapter.Some? ==> StrictAdapter(t.adapter.value)) && StrictClaims(t.access) && StrictClaims(t.backup)
  }

  ghost predicate SortedHealth(h: HealthTarget) {
    Sorted(h.siteRefs, Less) && Sorted(h.nodeRefs, Less) &&
      (h.probe.Some? ==> Sorted(h.probe.value.expectedStatuses, IntLess))
  }
  ghost predicate StrictHealth(h: HealthTarget) {
    && StrictlySorted(h.siteRefs, Less) && StrictlySorted(h.nodeRefs, Less)
    && (h.probe.Some? ==> StrictlySorted(h.probe.value.expectedStatuses, IntLess))
  }

  ghost predicate SortedBinding(b: Binding) { Sorted(b.targetNodeRefs, Less) }
  ghost predicate StrictBinding(b: Binding) { StrictlySorted(b.targetNodeRefs, Less) }

  ghost predicate SortedArtifact(a: Artifact) {
    a.executionClass != "" && Sorted(a.siteRefs, Less) && Sorted(a.nodeRefs, Less)
  }
  ghost predicate StrictArtifact(a: Artifact) {
    a.executionClass != "" && StrictlySorted(a.siteRefs, Less) && StrictlySorted(a.nodeRefs, Less)
  }

  /** Lists whose elements are determined by their content are determined by their multiset of contents. */
  lemma ListsAgree<A(!new), C(!new)>(content: A -> C, less: (C, C) -> bool, a: seq<A>, b: seq<A>)
    requires multiset(Map(content, a)) == multiset(Map(content, b))
    requires StrictlySorted(Map(content, a), less) && Sorted(Map(content, b), less)
    requires forall x, y :: x in a && y in b && content(x) == content(y) ==> x == y
    ensures a == b
  {
    SortedFormIsUnique(Map(content, a), Map(content, b), less);
    forall i | 0 <= i < |a| ensures a[i] == b[i] {
      assert Map(content, a)[i] == Map(content, b)[i];
    }
  }

  lemma AgentsAgree(a: Agent, b: Agent)
    requires AgentContentOf(a) == AgentContentOf(b) && StrictAgent(a) && SortedAgent(b)
    ensures a == b
  {
    SortedFormIsUnique(a.artifactRefs, b.artifactRefs, Less);
    assert a == AgentContentOf(a).shell.(artifactRefs := a.artifactRefs);
    assert b == AgentContentOf(b).shell.(artifactRefs := b.artifactRefs);
  }

  lemma AdaptersAgree(a: Adapter, b: Adapter)
    requires AdapterContentOf(a) == AdapterContentOf(b) && StrictAdapter(a) && SortedAdapter(b)
    ensures a == b
  {
    SortedFormIsUnique(a.artifactRefs, b.artifactRefs, Less);
    forall x, y | x in a.agents && y in b.agents && AgentContentOf(x) == AgentContentOf(y) ensures x == y {
      AgentsAgree(x, y);
    }
    ListsAgree(AgentContentOf, (x: AgentContent, y: AgentContent) => AgentLess(x.shell, y.shell), a.agents, b.agents);
    assert a == AdapterContentOf(a).shell.(artifactRefs := a.artifactRefs, agents := a.agents);
    assert b == AdapterContentOf(b).shell.(artifactRefs := b.artifactRefs, agents := b.agents);
  }

  lemma ClaimsAgree(a: BindingClaims, b: BindingClaims)
    requires ClaimsContentOf(a) == ClaimsContentOf(b) && StrictClaims(a) && SortedClaims(b)
    ensures a == b
  {
    SortedFormIsUnique(a.refs, b.refs, Less);
    SortedFormIsUnique(a.capabilities, b.capabilities, CapabilityLess);
  }

  lemma TargetsAgree(a: RuntimeTarget, b: RuntimeTarget)
    requires TargetContentOf(a) == TargetContentOf(b) && StrictTarget(a) && SortedTarget(b)
    ensures a == b
  {
    SortedFormIsUnique(a.siteRefs, b.siteRefs, Less);
    SortedFormIsUnique(a.nodeRefs, b.nodeRefs, Less);
    SortedFormIsUnique(a.daemons, b.daemons, DaemonLess);
    SortedFormIsUnique(a.artifactRefs, b.artifactRefs, Less);
    ClaimsAgree(a.access, b.access);
    ClaimsAgree(a.backup, b.backup);
    if a.adapter.Some? { AdaptersAgree(a.adapter.value, b.adapter.value); }
    assert a == TargetContentOf(a).shell.(siteRefs := a.siteRefs, nodeRefs := a.nodeRefs, daemons := a.daemons,
      artifactRefs := a.artifactRefs, adapter := a.adapter, access := a.access, backup := a.backup);
    assert b == TargetContentOf(b).shell.(siteRefs := b.siteRefs, nodeRefs := b.nodeRefs, daemons := b.daemons,
      artifactRefs := b.artifactRefs, adapter := b.adapter, access := b.access, backup := b.backup);
  }

  lemma HealthsAgree(a: HealthTarget, b: HealthTarget)
    requires HealthContentOf(a) == HealthContentOf(b) && StrictHealth(a) && SortedHealth(b)
    ensures a == b
  {
    SortedFormIsUnique(a.siteRefs, b.siteRefs, Less);
    SortedFormIsUnique(a.nodeRefs, b.nodeRefs, Less);
    if a.probe.Some? { SortedFormIsUnique(a.probe.value.expectedStatuses, b.probe.value.expectedStatuses, IntLess); }
    assert a == HealthContentOf(a).shell.(siteRefs := a.siteRefs, nodeRefs := a.nodeRefs, probe := a.probe);
    assert b == HealthContentOf(b).shell.(siteRefs := b.siteRefs, nodeRefs := b.nodeRefs, probe := b.probe);
  }

  lemma BindingsAgree(a: Binding, b: Binding)
    requires BindingContentOf(a) == BindingContentOf(b) && StrictBinding(a) && SortedBinding(b)
    requires a.projectionHash == b.projectionHash
    ensures a == b
  {
    SortedFormIsUnique(a.targetNodeRefs, b.targetNodeRefs, Less);
    assert a == BindingContentOf(a).shell.(targetNodeRefs := a.targetNodeRefs, projectionHash := a.projectionHash);
    assert b == BindingContentOf(b).shell.(targetNodeRefs := b.targetNodeRefs, projectionHash := b.projectionHash);
  }

  lemma ArtifactsAgree(a: Artifact, b: Artifact)
    requires ArtifactContentOf(a) == ArtifactContentOf(b) && StrictArtifact(a) && SortedArtifact(b)
    ensures a == b
  {
    SortedFormIsUnique(a.siteRefs, b.siteRefs, Less);
    SortedFormIsUnique(a.nodeRefs, b.nodeRefs, Less);
    assert a == ArtifactContentOf(a).shell.(siteRefs := a.siteRefs, nodeRefs := a.nodeRefs);
    assert b == ArtifactContentOf(b).shell.(siteRefs := b.siteRefs, nodeRefs := b.nodeRefs);
  }

  // ---- Sorting an element keeps its content ----

  lemma CanonicalAdapterFacts(s: Sorts, a: Adapter)
    requires AreSorts(s)
    ensures AdapterContentOf(CanonicalAdapter(s, a)) == AdapterContentOf(a) && SortedAdapter(CanonicalAdapter(s, a))
  {
    var f := (x: Agent) => CanonicalAgent(s, x);
    var inner := Map(f, a.agents);
    MapPermutation(AgentContentOf, s.agents(inner), inner);
    assert Map(AgentContentOf, inner) == Map(AgentContentOf, a.agents);
    forall x | x in s.agents(inner) ensures SortedAgent(x) { assert x in multiset(inner); }
    var b := CanonicalAdapter(s, a);
    assert b.(artifactRefs := [], agents := []) == a.(artifactRefs := [], agents := []);
  }

  lemma CanonicalTargetFacts(s: Sorts, t: RuntimeTarget)
    requires AreSorts(s)
    ensures TargetContentOf(CanonicalTarget(s, t)) == TargetContentOf(t) && SortedTarget(CanonicalTarget(s, t))
  {
    if t.adapter.Some? { CanonicalAdapterFacts(s, t.adapter.value); }
  }

  lemma CanonicalHealthFacts(s: Sorts, h: HealthTarget)
    requires AreSorts(s)
    ensures HealthContentOf(CanonicalHealth(s, h)) == HealthContentOf(h) && SortedHealth(CanonicalHealth(s, h))
  {
  }

  lemma CanonicalBindingFacts(s: Sorts, b: Binding)
    requires AreSorts(s)
    ensures BindingContentOf(CanonicalBinding(s, b)) == BindingContentOf(b) && SortedBinding(CanonicalBinding(s, b))
  {
  }

  lemma CanonicalArtifactFacts(s: Sorts, a: Artifact)
    requires AreSorts(s)
    ensures ArtifactContentOf(CanonicalArtifact(s, a)) == ArtifactContentOf(a)
    ensures SortedArtifact(CanonicalArtifact(s, a))
  {
  }

  /** Sorting the canonical elements of a list keeps the multiset of contents, sorts by key, and adds no element. */
  lemma CanonicalListFacts<A(!new), C>(content: A -> C, canonical: A -> A, sort: seq<A> -> seq<A>, less: (A, A) -> bool,
                             l: seq<A>)
    requires SortsBy(sort, less)
    requires forall x :: content(canonical(x)) == content(x)
    ensures multiset(Map(content, sort(Map(canonical, l)))) == multiset(Map(content, l))
    ensures Sorted(sort(Map(canonical, l)), less)
    ensures forall y :: y in sort(Map(canonical, l)) ==> exists x :: x in l && y == canonical(x)
  {
    var inner := Map(canonical, l);
    MapPermutation(content, sort(inner), inner);
    assert Map(content, inner) == Map(content, l);
    forall y | y in sort(inner) ensures exists x :: x in l && y == canonical(x) {
      assert y in multiset(inner);
      var i :| 0 <= i < |inner| && inner[i] == y;
      assert l[i] in l;
    }
  }

  ghost predicate SortedRequest(r: Request) {
    && Sorted(r.runtimeTargets, TargetLess) && (forall t :: t in r.runtimeTargets ==> SortedTarget(t))
    && Sorted(r.healthTargets, HealthLess) && (forall h :: h in r.healthTargets ==> SortedHealth(h))
    && Sorted(r.accessBindings, BindingLess) && (forall b :: b in r.accessBindings ==> SortedBinding(b))
    && Sorted(r.backupBindings, BindingLess) && (forall b :: b in r.backupBindings ==> SortedBinding(b))
    && Sorted(r.artifacts, ArtifactLess) && (forall a :: a in r.artifacts ==> SortedArtifact(a))
  }

  ghost predicate StrictRequest(r: Request) {
    && StrictlySorted(r.runtimeTargets, TargetLess) && (forall t :: t in r.runtimeTargets ==> StrictTarget(t))
    && StrictlySorted(r.healthTargets, HealthLess) && (forall h :: h in r.healthTargets ==> StrictHealth(h))
    && StrictlySorted(r.accessBindings, BindingLess) && (forall b :: b in r.accessBindings ==> StrictBinding(b))
    && StrictlySorted(r.backupBindings, BindingLess) && (forall b :: b in r.backupBindings ==> StrictBinding(b))
    && StrictlySorted(r.artifacts, ArtifactLess) && (forall a :: a in r.artifacts ==> StrictArtifact(a))
  }

  lemma CanonicalTargetsFacts(s: Sorts, l: seq<RuntimeTarget>)
    requires AreSorts(s)
    ensures var c := s.targets(Map((t: RuntimeTarget) => CanonicalTarget(s, t), l));
            multiset(Map(TargetContentOf, c)) == multiset(Map(TargetContentOf, l)) && Sorted(c, TargetLess)
            && forall t :: t in c ==> SortedTarget(t)
  {
    var f := (t: RuntimeTarget) => CanonicalTarget(s, t);
    forall t ensures TargetContentOf(f(t)) == TargetContentOf(t) && SortedTarget(f(t)) { CanonicalTargetFacts(s, t); }
    CanonicalListFacts(TargetContentOf, f, s.targets, TargetLess, l);
  }

  lemma CanonicalHealthsFacts(s: Sorts, l: seq<HealthTarget>)
    requires AreSorts(s)
    ensures var c := s.health(Map((h: HealthTarget) => CanonicalHealth(s, h), l));
            multiset(Map(HealthContentOf, c)) == multiset(Map(HealthContentOf, l)) && Sorted(c, HealthLess)
            && forall h :: h in c ==> SortedHealth(h)
  {
    var f := (h: HealthTarget) => CanonicalHealth(s, h);
    forall h ensures HealthContentOf(f(h)) == HealthContentOf(h) && SortedHealth(f(h)) { CanonicalHealthFacts(s, h); }
    CanonicalListFacts(HealthContentOf, f, s.health, HealthLess, l);
  }

  lemma CanonicalBindingsFacts(s: Sorts, l: seq<Binding>)
    requires AreSorts(s)
    ensures var c := s.bindings(Map((b: Binding) => CanonicalBinding(s, b), l));
            multiset(Map(BindingContentOf, c)) == multiset(Map(BindingContentOf, l)) && Sorted(c, BindingLess)
            && forall b :: b in c ==> SortedBinding(b)
  {
    var f := (b: Binding) => CanonicalBinding(s, b);
    forall b ensures BindingContentOf(f(b)) == BindingContentOf(b) && SortedBinding(f(b)) {
      CanonicalBindingFacts(s, b);
    }
    CanonicalListFacts(BindingContentOf, f, s.bindings, BindingLess, l);
  }

  lemma CanonicalArtifactsFacts(s: Sorts, l: seq<Artifact>)
    requires AreSorts(s)
    ensures var c := CanonicalArtifacts(s, l);
            multiset(Map(ArtifactContentOf, c)) == multiset(Map(ArtifactContentOf, l)) && Sorted(c, ArtifactLess)
            && forall a :: a in c ==> SortedArtifact(a)
  {
    var f := (a: Artifact) => CanonicalArtifact(s, a);
    forall a ensures ArtifactContentOf(f(a)) == ArtifactContentOf(a) && SortedArtifact(f(a)) {
      CanonicalArtifactFacts(s, a);
    }
    CanonicalListFacts(ArtifactContentOf, f, s.artifacts, ArtifactLess, l);
  }

  /** Whatever the sorts: the canonical request is sorted at every level and keeps the unordered content. */
  lemma CanonicalRequestFacts(s: Sorts, r: Request)
    requires AreSorts(s)
    ensures SortedRequest(CanonicalRequest(s, r)) && ContentOf(CanonicalRequest(s, r)) == ContentOf(r)
  {
    CanonicalTargetsFacts(s, r.runtimeTargets);
    CanonicalHealthsFacts(s, r.healthTargets);
    CanonicalBindingsFacts(s, r.accessBindings);
    CanonicalBindingsFacts(s, r.backupBindings);
    CanonicalArtifactsFacts(s, r.artifacts);
  }

  // ---- A strict list has one canonical form ----

  lemma TargetListsAgree(a: seq<RuntimeTarget>, b: seq<RuntimeTarget>)
    requires multiset(Map(TargetContentOf, a)) == multiset(Map(TargetContentOf, b))
    requires StrictlySorted(a, TargetLess) && (forall t :: t in a ==> StrictTarget(t))
    requires Sorted(b, TargetLess) && (forall t :: t in b ==> SortedTarget(t))
    ensures a == b
  {
    forall x, y | x in a && y in b && TargetContentOf(x) == TargetContentOf(y) ensures x == y { TargetsAgree(x, y); }
    ListsAgree(TargetContentOf, (x: TargetContent, y: TargetContent) => TargetLess(x.shell, y.shell), a, b);
  }

  lemma HealthListsAgree(a: seq<HealthTarget>, b: seq<HealthTarget>)
    requires multiset(Map(HealthContentOf, a)) == multiset(Map(HealthContentOf, b))
    requires StrictlySorted(a, HealthLess) && (forall t :: t in a ==> StrictHealth(t))
    requires Sorted(b, HealthLess) && (forall t :: t in b ==> SortedHealth(t))
    ensures a == b
  {
    forall x, y | x in a && y in b && HealthContentOf(x) == HealthContentOf(y) ensures x == y { HealthsAgree(x, y); }
    ListsAgree(HealthContentOf, (x: HealthContent, y: HealthContent) => HealthLess(x.shell, y.shell), a, b);
  }

  lemma ArtifactListsAgree(a: seq<Artifact>, b: seq<Artifact>)
    requires multiset(Map(ArtifactContentOf, a)) == multiset(Map(ArtifactContentOf, b))
    requires StrictlySorted(a, ArtifactLess) && (forall t :: t in a ==> StrictArtifact(t))
    requires Sorted(b, ArtifactLess) && (forall t :: t in b ==> SortedArtifact(t))
    ensures a == b
  {
    forall x, y | x in a && y in b && ArtifactContentOf(x) == ArtifactContentOf(y) ensures x == y {
      ArtifactsAgree(x, y);
    }
    ListsAgree(ArtifactContentOf, (x: ArtifactContent, y: ArtifactContent) => ArtifactLess(x.shell, y.shell), a, b);
  }

  /** Equal contents are equal bindings once `projection` fixes the projection hash. */
  lemma BindingListsAgree(a: seq<Binding>, b: seq<Binding>, projection: Binding -> string)
    requires multiset(Map(BindingContentOf, a)) == multiset(Map(BindingContentOf, b))
    requires StrictlySorted(a, BindingLess)
    requires (forall t :: t in a ==> StrictBinding(t) && t.projectionHash == projection(t.(projectionHash := "")))
    requires Sorted(b, BindingLess) && (forall t :: t in b ==> SortedBinding(t))
    requires forall t :: t in b && StrictBinding(t) ==> t.projectionHash == projection(t.(projectionHash := ""))
    ensures a == b
  {
    forall x, y | x in a && y in b && BindingContentOf(x) == BindingContentOf(y) ensures x == y {
      var bx, bz := x.(projectionHash := ""), y.(projectionHash := "");
      BindingsAgree(bx, bz);
      BindingsAgree(x, y);
    }
    ListsAgree(BindingContentOf, (x: BindingContent, y: BindingContent) => BindingLess(x.shell, y.shell), a, b);
  }
}
