/** The validators of one request, as the loops with seen-maps that decide the predicates of Sealing. */
module RequestChecks {
  import opened Ordering
  import opened ExecutionModel
  import opened Closures
  import opened BindingClosures
  import opened Sealing

  method ValidateRefList(k: Rules, values: seq<string>, min: nat, max: nat) returns (ok: bool)
    ensures ok <==> RefList(k, values, min, max)
  {
    if |values| < min || |values| > max { return false; }
    for i := 0 to |values|
      invariant forall j :: 0 <= j < i ==> k.token(values[j])
      invariant forall h, j :: 0 <= h < j < i && h == j - 1 ==> Less(values[h], values[j])
    {
      if !k.token(values[i]) { return false; }
      if i > 0 && !Less(values[i - 1], values[i]) { return false; }
    }
    return true;
  }

  method ValidateDaemonTargets(k: Rules, engine: string, daemons: seq<DaemonTarget>) returns (ok: bool)
    ensures ok <==> DaemonsOK(k, engine, daemons)
  {
    if |daemons| > MAX_REFS { return false; }
    for i := 0 to |daemons|
      invariant forall j :: 0 <= j < i ==>
        k.daemon(daemons[j]) && k.token(daemons[j].ref) && k.token(daemons[j].instanceRef)
      invariant forall h, j :: 0 <= h < j < i && h == j - 1 ==>
        Less(Joined(DaemonKey(daemons[h])), Joined(DaemonKey(daemons[j])))
    {
      if !k.daemon(daemons[i]) || !k.token(daemons[i].ref) || !k.token(daemons[i].instanceRef) { return false; }
      if i > 0 && !Less(Joined(DaemonKey(daemons[i - 1])), Joined(DaemonKey(daemons[i]))) { return false; }
    }
    ok := ValidateDaemonEngines(engine, daemons);
  }

  method ValidateDaemonEngines(engine: string, daemons: seq<DaemonTarget>) returns (ok: bool)
    ensures ok <==> forall i :: 0 <= i < |daemons| ==> RunsOn(daemons[i], engine)
  {
    for i := 0 to |daemons|
      invariant forall j :: 0 <= j < i ==> RunsOn(daemons[j], engine)
    {
      if !RunsOn(daemons[i], engine) { return false; }
    }
    return true;
  }

  /** Adds references to the set of those already claimed; refuses a repeated one. */
  method ClaimRefs(refs: seq<string>, ghost before: seq<string>, referenced: set<string>)
    returns (ok: bool, referenced': set<string>)
    requires Seen(referenced, before)
    ensures ok <==> Distinct(before + refs)
    ensures ok ==> Seen(referenced', before + refs)
  {
    referenced' := referenced;
    assert before + refs[..0] == before;
    for i := 0 to |refs|
      invariant Seen(referenced', before + refs[..i])
    {
      assert before + refs[..i + 1] == (before + refs[..i]) + [refs[i]];
      assert before + refs == (before + refs[..i + 1]) + refs[i + 1..];
      DistinctGrows(before + refs[..i], refs[i]);
      if refs[i] in referenced' {
        if Distinct(before + refs) { DistinctPrefix(before + refs[..i + 1], refs[i + 1..]); }
        return false, referenced';
      }
      referenced' := referenced' + {refs[i]};
    }
    assert refs[..|refs|] == refs;
    return true, referenced';
  }

  lemma {:induction false} AgentRefsAppend(a: seq<Agent>, b: seq<Agent>)
    ensures AgentRefs(a + b) == AgentRefs(a) + AgentRefs(b)
  {
    if b == [] {
      assert a + b == a;
    } else {
      var init, last := b[..|b| - 1], b[|b| - 1];
      AgentRefsAppend(a, init);
      assert (a + b)[..|a + b| - 1] == a + init && (a + b)[|a + b| - 1] == last;
    }
  }

  lemma AgentRefsNext(agents: seq<Agent>, i: nat)
    requires i < |agents|
    ensures AgentRefs(agents[..i + 1]) == AgentRefs(agents[..i]) + agents[i].artifactRefs
  {
    assert agents[..i + 1][..i] == agents[..i];
  }

  lemma ClashIsFinal(core: seq<string>, agents: seq<Agent>, n: nat)
    requires n <= |agents|
    ensures Distinct(core + AgentRefs(agents)) ==> Distinct(core + AgentRefs(agents[..n]))
  {
    AgentRefsAppend(agents[..n], agents[n..]);
    assert agents == agents[..n] + agents[n..];
    var claimed, rest := core + AgentRefs(agents[..n]), AgentRefs(agents[n..]);
    Associative(core, AgentRefs(agents[..n]), rest);
    DistinctPrefix(claimed, rest);
  }

  /** The next agent of an adapter claims artifacts nobody claimed before. */
  method ClaimAgentRefs(a: Adapter, i: nat, referenced: set<string>) returns (ok: bool, referenced': set<string>)
    requires i < |a.agents| && Seen(referenced, a.artifactRefs + AgentRefs(a.agents[..i]))
    ensures ok ==> Seen(referenced', a.artifactRefs + AgentRefs(a.agents[..i + 1]))
    ensures !ok ==> !Distinct(a.artifactRefs + AgentRefs(a.agents))
  {
    AgentRefsNext(a.agents, i);
    ghost var claimed := a.artifactRefs + AgentRefs(a.agents[..i]);
    assert claimed + a.agents[i].artifactRefs == a.artifactRefs + AgentRefs(a.agents[..i + 1]);
    ok, referenced' := ClaimRefs(a.agents[i].artifactRefs, claimed, referenced);
    ClashIsFinal(a.artifactRefs, a.agents, i + 1);
  }

  method ValidateRuntimeAdapter(k: Rules, a: Adapter) returns (ok: bool)
    ensures ok <==> AdapterOK(k, a)
  {
    var refsOK := ValidateRefList(k, a.artifactRefs, 1, MAX_ARTIFACTS);
    if !k.adapter(a) || !refsOK || |a.agents| > MAX_AGENTS { return false; }
    RefListStrict(k, a.artifactRefs, 1, MAX_ARTIFACTS);
    StrictIsDistinct(a.artifactRefs);
    var referenced := set x | x in a.artifactRefs;
    assert a.artifactRefs + AgentRefs(a.agents[..0]) == a.artifactRefs;
    for i := 0 to |a.agents|
      invariant forall j :: 0 <= j < i ==>
        k.agent(a.agents[j], a.moduleRef) && RefList(k, a.agents[j].artifactRefs, 1, MAX_ARTIFACTS)
      invariant forall h, j :: 0 <= h < j < i && h == j - 1 ==> Less(a.agents[h].id, a.agents[j].id)
      invariant Seen(referenced, a.artifactRefs + AgentRefs(a.agents[..i]))
    {
      var agent := a.agents[i];
      var agentRefsOK := ValidateRefList(k, agent.artifactRefs, 1, MAX_ARTIFACTS);
      if !k.agent(agent, a.moduleRef) || !agentRefsOK { return false; }
      if i > 0 && !Less(a.agents[i - 1].id, agent.id) { return false; }
      var clear;
      clear, referenced := ClaimAgentRefs(a, i, referenced);
      if !clear { return false; }
    }
    assert a.agents[..|a.agents|] == a.agents;
    return true;
  }

  method ValidateClaims(k: Rules, side: Side, c: BindingClaims) returns (ok: bool)
    ensures ok <==> ClaimsOK(k, side, c)
  {
    var refsOK := ValidateRefList(k, c.refs, 0, MAX_BINDINGS);
    if !refsOK || |c.capabilities| > MAX_BINDINGS { return false; }
    for i := 0 to |c.capabilities|
      invariant forall j :: 0 <= j < i ==> CapabilityOK(k, side, c.capabilities[j])
      invariant forall h, j :: 0 <= h < j < i && h == j - 1 ==> Less(c.capabilities[h].ref, c.capabilities[j].ref)
    {
      if !CapabilityOK(k, side, c.capabilities[i]) { return false; }
      if i > 0 && !Less(c.capabilities[i - 1].ref, c.capabilities[i].ref) { return false; }
    }
    return (|c.refs| == 0) == (|c.capabilities| == 0);
  }

  method ValidateRuntimeTarget(k: Rules, t: RuntimeTarget) returns (ok: bool)
    ensures ok <==> TargetOK(k, t)
  {
    if !k.target(t) || !k.token(t.requirementId) || !k.token(t.instanceRef) { return false; }
    ok := ValidateRefList(k, t.siteRefs, 1, MAX_REFS);
    if !ok { return; }
    ok := ValidateRefList(k, t.nodeRefs, 1, MAX_REFS);
    if !ok { return; }
    ok := ValidateDaemonTargets(k, t.runtimeEngine, t.daemons);
    if !ok { return; }
    ok := ValidateRefList(k, t.artifactRefs, if t.moduleRef != "" || t.unitRef != "" then 1 else 0, MAX_ARTIFACTS);
    if !ok { return; }
    if t.adapter.Some? {
      ok := ValidateRuntimeAdapter(k, t.adapter.value);
      if !ok { return; }
    }
    ok := ValidateClaims(k, Access, t.access);
    if !ok { return; }
    ok := ValidateClaims(k, Backup, t.backup);
  }

  lemma JoinedKeysAreDistinct(k: Rules, targets: seq<RuntimeTarget>)
    requires TokensAreNulFree(k)
    ensures (forall t :: t in targets ==> TargetOK(k, t)) ==>
      (Distinct(Map(RuntimeKey, targets)) <==> Distinct(Map((t: RuntimeTarget) => Joined(RuntimeKey(t)), targets)))
  {
    if forall t :: t in targets ==> TargetOK(k, t) {
      forall i, j | 0 <= i < j < |targets|
        ensures RuntimeKey(targets[i]) == RuntimeKey(targets[j]) <==>
          Joined(RuntimeKey(targets[i])) == Joined(RuntimeKey(targets[j]))
      {
        assert TargetOK(k, targets[i]) && TargetOK(k, targets[j]);
        JoinedKeysOrderLikePairs(RuntimeKey(targets[i]), RuntimeKey(targets[j]));
      }
    }
  }

  method ValidateRuntimeTargets(k: Rules, targets: seq<RuntimeTarget>) returns (ok: bool)
    requires TokensAreNulFree(k)
    ensures ok <==> (forall t :: t in targets ==> TargetOK(k, t)) && Distinct(Map(RuntimeKey, targets))
  {
    for i := 0 to |targets|
      invariant forall j :: 0 <= j < i ==> TargetOK(k, targets[j])
    {
      var fine := ValidateRuntimeTarget(k, targets[i]);
      if !fine {
        assert targets[i] in targets;
        return false;
      }
    }
    JoinedKeysAreDistinct(k, targets);
    ok := AllDistinct(Map((t: RuntimeTarget) => Joined(RuntimeKey(t)), targets));
  }

  method ValidateExpectedStatuses(p: Probe) returns (ok: bool)
    ensures ok <==> ProbeOK(p)
  {
    var seen: set<int> := {};
    for i := 0 to |p.expectedStatuses|
      invariant forall j :: 0 <= j < i ==> 100 <= p.expectedStatuses[j] <= 599
      invariant forall a, b :: 0 <= a < b < i ==> p.expectedStatuses[a] != p.expectedStatuses[b]
      invariant forall x :: x in seen <==> exists j :: 0 <= j < i && p.expectedStatuses[j] == x
    {
      var status := p.expectedStatuses[i];
      if status < 100 || status > 599 || status in seen { return false; }
      seen := seen + {status};
    }
    return true;
  }

  method ValidateHealthTarget(k: Rules, h: HealthTarget) returns (ok: bool)
    ensures ok <==> HealthOK(k, h)
  {
    ok := ValidateRefList(k, h.siteRefs, 0, MAX_REFS);
    if !ok || !k.health(h) || !k.token(h.requirementId) || !k.token(h.targetRef) { return false; }
    ok := ValidateRefList(k, h.nodeRefs, 0, MAX_REFS);
    if !ok { return; }
    if h.probe.Some? { ok := ValidateExpectedStatuses(h.probe.value); }
  }

  method ValidateHealthTargets(k: Rules, targets: seq<HealthTarget>) returns (ok: bool)
    ensures ok <==> (forall h :: h in targets ==> HealthOK(k, h)) && Distinct(Map(HealthId, targets))
  {
    for i := 0 to |targets|
      invariant forall j :: 0 <= j < i ==> HealthOK(k, targets[j])
    {
      var fine := ValidateHealthTarget(k, targets[i]);
      if !fine {
        assert targets[i] in targets;
        return false;
      }
    }
    ok := AllDistinct(Map(HealthId, targets));
  }

  /** The last target with a requirement: what the by-requirement map ends up holding. */
  ghost predicate LastWith(targets: seq<RuntimeTarget>, id: string, t: RuntimeTarget) {
    exists i :: 0 <= i < |targets| && targets[i].requirementId == id && targets[i] == t
      && forall j :: i < j < |targets| ==> targets[j].requirementId != id
  }

  ghost predicate Indexed(byRequirement: map<string, RuntimeTarget>, targets: seq<RuntimeTarget>) {
    && (forall t :: t in targets ==> t.requirementId in byRequirement)
    && (forall id :: id in byRequirement ==> LastWith(targets, id, byRequirement[id]))
  }

  lemma IndexedNext(m: map<string, RuntimeTarget>, targets: seq<RuntimeTarget>, t: RuntimeTarget)
    requires Indexed(m, targets)
    ensures Indexed(m[t.requirementId := t], targets + [t])
  {
    var all, next := targets + [t], m[t.requirementId := t];
    assert all[|targets|] == t;
    forall id | id in next ensures LastWith(all, id, next[id]) {
      if id != t.requirementId {
        assert LastWith(targets, id, m[id]);
        var i :| 0 <= i < |targets| && targets[i].requirementId == id && targets[i] == m[id] &&
          forall j :: i < j < |targets| ==> targets[j].requirementId != id;
        assert all[i] == m[id];
      }
    }
  }

  method IndexByRequirement(targets: seq<RuntimeTarget>) returns (byRequirement: map<string, RuntimeTarget>)
    ensures Indexed(byRequirement, targets)
  {
    byRequirement := map[];
    for i := 0 to |targets|
      invariant Indexed(byRequirement, targets[..i])
    {
      IndexedNext(byRequirement, targets[..i], targets[i]);
      assert targets[..i + 1] == targets[..i] + [targets[i]];
      byRequirement := byRequirement[targets[i].requirementId := targets[i]];
    }
    assert targets[..|targets|] == targets;
  }

  method ValidateHealthClosure(targets: seq<RuntimeTarget>, health: seq<HealthTarget>) returns (ok: bool)
    ensures ok <==> HealthBound(targets, health)
  {
    var byRequirement := IndexByRequirement(targets);
    for i := 0 to |health|
      invariant HealthBound(targets, health[..i])
    {
      var h := health[i];
      assert h in health && health[..i + 1] == health[..i] + [h];
      if h.runtimeRequirementId != "" {
        if h.runtimeRequirementId !in byRequirement { return false; }
        var t := byRequirement[h.runtimeRequirementId];
        assert LastWith(targets, h.runtimeRequirementId, t);
        if h.siteRefs != t.siteRefs || h.nodeRefs != t.nodeRefs { return false; }
      }
    }
    assert health[..|health|] == health;
    return true;
  }

  method ValidateBindings(k: Rules, s: Sorts, bindings: seq<Binding>, side: Side) returns (ok: bool)
    ensures ok <==> BindingListOK(k, s, bindings, side)
  {
    if |bindings| > MAX_BINDINGS { return false; }
    for i := 0 to |bindings|
      invariant forall j :: 0 <= j < i ==> BindingOK(k, s, side, bindings[j])
    {
      var b := bindings[i];
      var nodes := ValidateRefList(k, b.targetNodeRefs, 1, MAX_REFS);
      if !k.binding(side, b) || !k.token(b.id) || !nodes || b.projectionHash != ProjectionHash(k, s, side, b) {
        assert !BindingOK(k, s, side, b) && b in bindings;
        return false;
      }
    }
    ok := AllDistinct(Map(BindingId, bindings));
    if !ok { return; }
    ok := AllDistinct(Map((b: Binding) => Scope(side, b), bindings));
  }

  method ValidateArtifact(k: Rules, a: Artifact) returns (ok: bool)
    ensures ok <==> ArtifactOK(k, a)
  {
    if !k.artifact(a) || !k.token(a.id) { return false; }
    var min: nat := if a.ownerKind == OWNER_INSTANCE then 1 else 0;
    ok := ValidateRefList(k, a.siteRefs, min, MAX_REFS);
    if !ok { return; }
    ok := ValidateRefList(k, a.nodeRefs, min, MAX_REFS);
    if !ok { return; }
    ok := a.executionClass in {CLASS_EXECUTABLE, CLASS_HANDOFF, CLASS_PLAN}
      && |a.content| <= MAX_ARTIFACT_BYTES && k.hashContent(a.content) == a.digest;
  }

  lemma {:induction false} TotalContentGrows(artifacts: seq<Artifact>, n: nat)
    requires n <= |artifacts|
    ensures TotalContent(artifacts[..n]) <= TotalContent(artifacts)
    ensures n < |artifacts| ==>
      TotalContent(artifacts[..n + 1]) == TotalContent(artifacts[..n]) + |artifacts[n].content|
  {
    if n < |artifacts| {
      assert artifacts[..n + 1][..n] == artifacts[..n];
      var shorter := artifacts[..|artifacts| - 1];
      TotalContentGrows(shorter, n);
      assert shorter[..n] == artifacts[..n];
    } else {
      assert artifacts[..n] == artifacts;
    }
  }

  method ValidateArtifacts(k: Rules, artifacts: seq<Artifact>) returns (ok: bool)
    ensures ok <==> ArtifactsOK(k, artifacts)
  {
    var total := 0;
    for i := 0 to |artifacts|
      invariant forall j :: 0 <= j < i ==> ArtifactOK(k, artifacts[j])
      invariant total == TotalContent(artifacts[..i]) <= MAX_TOTAL_ARTIFACT_BYTES
    {
      var fine := ValidateArtifact(k, artifacts[i]);
      if !fine {
        assert artifacts[i] in artifacts;
        return false;
      }
      TotalContentGrows(artifacts, i);
      TotalContentGrows(artifacts, i + 1);
      total := total + |artifacts[i].content|;
      if total > MAX_TOTAL_ARTIFACT_BYTES { return false; }
    }
    assert artifacts[..|artifacts|] == artifacts;
    ok := AllDistinct(Map(ArtifactId, artifacts));
  }

  lemma TargetsAreListed(k: Rules, targets: seq<RuntimeTarget>, side: Side)
    requires TokensAreNulFree(k) && forall t :: t in targets ==> TargetOK(k, t)
    ensures forall t :: t in targets ==> Listed(t, side)
  {
    forall t | t in targets ensures Listed(t, side) { TargetStrict(k, t); }
  }

  method ValidateTopology(k: Rules, s: Sorts, r: Request) returns (ok: bool)
    requires TokensAreNulFree(k)
    ensures ok <==> TopologyOK(k, s, r)
  {
    ok := ValidateRuntimeTargets(k, r.runtimeTargets);
    if !ok { return; }
    ok := ValidateHealthTargets(k, r.healthTargets);
    if !ok { return; }
    ok := ValidateHealthClosure(r.runtimeTargets, r.healthTargets);
    if !ok { return; }
    ok := ValidateBindings(k, s, r.accessBindings, Access);
    if !ok { return; }
    ok := ValidateBindings(k, s, r.backupBindings, Backup);
    if !ok { return; }
    ok := ValidateArtifacts(k, r.artifacts);
    if !ok { return; }
    ok := ValidateArtifactClosure(r.runtimeTargets, r.artifacts, r.planHash);
    if !ok { return; }
    TargetsAreListed(k, r.runtimeTargets, Access);
    TargetsAreListed(k, r.runtimeTargets, Backup);
    ok := ValidateBindingClosure(r.runtimeTargets, r.accessBindings, Access);
    if !ok { return; }
    ok := ValidateBindingClosure(r.runtimeTargets, r.backupBindings, Backup);
  }
}
