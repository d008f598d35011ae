/** Reference-counting closure checks and the exact ownership they establish. */
module Closures {
  import opened Ordering
  import opened ExecutionModel

  function ArtifactId(a: Artifact): string { a.id }
  function BindingId(b: Binding): string { b.id }

  // ---- Artifacts ----

  predicate MatchesTarget(a: Artifact, t: RuntimeTarget) {
    && a.ownerKind == OWNER_INSTANCE && a.ownerRef == t.instanceRef && a.ownerContractHash == t.unitContractHash
    && a.providerRef == t.providerRef && a.providerContractHash == t.providerContractHash
    && a.moduleRef == t.moduleRef && a.moduleContractHash == t.moduleContractHash
    && a.unitRef == t.unitRef && a.unitContractHash == t.unitContractHash && a.instanceRef == t.instanceRef
    && a.siteRefs == t.siteRefs && a.nodeRefs == t.nodeRefs
  }

  /** The provider and module authority under which an adapter or one of its agents hands an artifact off. */
  datatype Authority = Authority(providerRef: string, providerHash: string, moduleRef: string, moduleHash: string)

  predicate MatchesAuthority(a: Artifact, u: Authority) {
    a.providerRef == u.providerRef && a.providerContractHash == u.providerHash
    && a.moduleRef == u.moduleRef && a.moduleContractHash == u.moduleHash
  }

  datatype Handoff = Handoff(ref: string, authority: Authority)

  function HandoffsOf(refs: seq<string>, u: Authority): seq<Handoff> {
    Map((ref: string) => Handoff(ref, u), refs)
  }

  function AgentHandoffs(a: Adapter, agents: seq<Agent>): seq<Handoff> {
    if agents == [] then []
    else
      var last := agents[|agents| - 1];
      AgentHandoffs(a, agents[..|agents| - 1]) +
      HandoffsOf(last.artifactRefs,
        Authority(a.providerRef, a.providerContractHash, last.moduleRef, last.moduleContractHash))
  }

  function AdapterHandoffs(a: Adapter): seq<Handoff> {
    HandoffsOf(a.artifactRefs, Authority(a.providerRef, a.providerContractHash, a.moduleRef, a.moduleContractHash))
    + AgentHandoffs(a, a.agents)
  }

  function TargetHandoffs(t: RuntimeTarget): seq<Handoff> {
    match t.adapter case None => [] case Some(a) => AdapterHandoffs(a)
  }

  /** All handoffs named by the adapters of the targets, in order. */
  function AllHandoffs(targets: seq<RuntimeTarget>): seq<Handoff> {
    if targets == [] then []
    else AllHandoffs(targets[..|targets| - 1]) + TargetHandoffs(targets[|targets| - 1])
  }

  /** All artifact references of the runtime targets, in order. */
  function RuntimeRefs(targets: seq<RuntimeTarget>): seq<string> {
    if targets == [] then []
    else RuntimeRefs(targets[..|targets| - 1]) + targets[|targets| - 1].artifactRefs
  }

  function HandoffRef(h: Handoff): string { h.ref }

  function IdsOfClass(artifacts: seq<Artifact>, executionClass: string): seq<string> {
    if artifacts == [] then []
    else
      IdsOfClass(artifacts[..|artifacts| - 1], executionClass) +
      if artifacts[|artifacts| - 1].executionClass == executionClass then [artifacts[|artifacts| - 1].id] else []
  }

  predicate RuntimeRefFits(artifacts: seq<Artifact>, t: RuntimeTarget, ref: string) {
    exists a :: a in artifacts && a.id == ref && a.executionClass == CLASS_EXECUTABLE && MatchesTarget(a, t)
  }

  predicate HandoffFits(artifacts: seq<Artifact>, h: Handoff) {
    exists a :: a in artifacts && a.id == h.ref && a.executionClass == CLASS_HANDOFF && MatchesAuthority(a, h.authority)
  }

  /** Exact ownership: executable artifacts are in bijection with the runtime references, each matching its target,
      and handoff artifacts are what the adapters name, each matching the naming authority. */
  ghost predicate ExactOwnership(targets: seq<RuntimeTarget>, artifacts: seq<Artifact>, planHash: string) {
    && PlanBound(artifacts, planHash)
    && ReferencesFit(targets, artifacts)
    && multiset(RuntimeRefs(targets)) == multiset(IdsOfClass(artifacts, CLASS_EXECUTABLE))
    && (forall a :: a in artifacts && a.executionClass == CLASS_HANDOFF ==>
        a.id in Map(HandoffRef, AllHandoffs(targets)))
  }

  /** What `validateArtifacts` has established when the closure is checked. */
  ghost predicate Catalogued(artifacts: seq<Artifact>) {
    && Distinct(Map(ArtifactId, artifacts))
    && forall a :: a in artifacts ==> a.executionClass in {CLASS_EXECUTABLE, CLASS_HANDOFF, CLASS_PLAN}
  }

  /** The three counting rules, on the counts the closure has accumulated. */
  predicate CountsAccepted(a: Artifact, runtime: nat, adapter: nat) {
    if a.executionClass == CLASS_EXECUTABLE then runtime == 1 && adapter == 0
    else if a.executionClass == CLASS_HANDOFF then runtime == 0 && adapter != 0
    else if a.executionClass == CLASS_PLAN then runtime == 0 && adapter == 0
    else true
  }

  function Count(counts: map<string, nat>, id: string): nat {
    if id in counts then counts[id] else 0
  }

  function Occurrences(refs: seq<string>, id: string): nat {
    if refs == [] then 0 else Occurrences(refs[..|refs| - 1], id) + if refs[|refs| - 1] == id then 1 else 0
  }

  lemma {:induction false} OccurrencesAreMultiplicity(refs: seq<string>, id: string)
    ensures Occurrences(refs, id) == multiset(refs)[id]
  {
    if refs != [] {
      OccurrencesAreMultiplicity(refs[..|refs| - 1], id);
      assert refs == refs[..|refs| - 1] + [refs[|refs| - 1]];
    }
  }

  /** The map counts exactly the references seen so far. */
  ghost predicate Tallies(counts: map<string, nat>, refs: seq<string>) {
    forall id :: Count(counts, id) == Occurrences(refs, id)
  }

  lemma TalliesMultiplicity(counts: map<string, nat>, refs: seq<string>)
    requires Tallies(counts, refs)
    ensures forall id :: Count(counts, id) == multiset(refs)[id]
  {
    forall id ensures Count(counts, id) == multiset(refs)[id] { OccurrencesAreMultiplicity(refs, id); }
  }

  /** Counting the next reference of a list keeps the tally. */
  lemma TallyNext(counts: map<string, nat>, seen: seq<string>, refs: seq<string>, i: nat)
    requires i < |refs| && Tallies(counts, seen + refs[..i])
    ensures Tallies(counts[refs[i] := Count(counts, refs[i]) + 1], seen + refs[..i + 1])
  {
    var all, next := seen + refs[..i + 1], counts[refs[i] := Count(counts, refs[i]) + 1];
    assert all[..|all| - 1] == seen + refs[..i] && all[|all| - 1] == refs[i];
    forall id ensures Count(next, id) == Occurrences(all, id) {
      assert Occurrences(all, id) == Occurrences(seen + refs[..i], id) + if refs[i] == id then 1 else 0;
    }
  }

  ghost predicate Available(available: map<string, Artifact>, artifacts: seq<Artifact>) {
    && (forall a :: a in artifacts ==> a.id in available && available[a.id] == a)
    && (forall id :: id in available ==> available[id] in artifacts && available[id].id == id)
  }

  method ValidateAdapterArtifactRefs(refs: seq<string>, u: Authority, available: map<string, Artifact>,
                                     counts: map<string, nat>,
                                     ghost artifacts: seq<Artifact>, ghost seen: seq<string>)
    returns (ok: bool, counts': map<string, nat>)
    requires Available(available, artifacts) && Tallies(counts, seen)
    ensures ok <==> forall h :: h in HandoffsOf(refs, u) ==> HandoffFits(artifacts, h)
    ensures ok ==> Tallies(counts', seen + refs)
  {
    counts' := counts;
    assert seen + refs[..0] == seen;
    for i := 0 to |refs|
      invariant forall j :: 0 <= j < i ==> HandoffFits(artifacts, HandoffsOf(refs, u)[j])
      invariant Tallies(counts', seen + refs[..i])
    {
      var ref := refs[i];
      assert HandoffsOf(refs, u)[i] == Handoff(ref, u) && Handoff(ref, u) in HandoffsOf(refs, u);
      if ref !in available { return false, counts'; }
      var artifact := available[ref];
      if artifact.executionClass != CLASS_HANDOFF || !MatchesAuthority(artifact, u) { return false, counts'; }
      TallyNext(counts', seen, refs, i);
      counts' := counts'[ref := Count(counts', ref) + 1];
    }
    assert refs[..|refs|] == refs;
    return true, counts';
  }

  method ValidateTargetAdapterArtifacts(t: RuntimeTarget, available: map<string, Artifact>, counts: map<string, nat>,
                                        ghost artifacts: seq<Artifact>, ghost seen: seq<string>)
    returns (ok: bool, counts': map<string, nat>)
    requires Available(available, artifacts) && Tallies(counts, seen)
    ensures ok <==> forall h :: h in TargetHandoffs(t) ==> HandoffFits(artifacts, h)
    ensures ok ==> Tallies(counts', seen + Map(HandoffRef, TargetHandoffs(t)))
  {
    if t.adapter.None? {
      assert seen + Map(HandoffRef, TargetHandoffs(t)) == seen;
      return true, counts;
    }
    var a := t.adapter.value;
    var u := Authority(a.providerRef, a.providerContractHash, a.moduleRef, a.moduleContractHash);
    ok, counts' := ValidateAdapterArtifactRefs(a.artifactRefs, u, available, counts, artifacts, seen);
    AdapterHandoffParts(a, seen);
    if !ok { return; }
    ok, counts' := ValidateAgentArtifacts(a, available, counts', artifacts, seen + a.artifactRefs);
  }

  lemma AdapterHandoffParts(a: Adapter, seen: seq<string>)
    ensures var u := Authority(a.providerRef, a.providerContractHash, a.moduleRef, a.moduleContractHash);
            && (forall h :: h in HandoffsOf(a.artifactRefs, u) ==> h in AdapterHandoffs(a))
            && (forall h :: h in AdapterHandoffs(a) <==>
                h in HandoffsOf(a.artifactRefs, u) || h in AgentHandoffs(a, a.agents))
    ensures seen + Map(HandoffRef, AdapterHandoffs(a)) == seen + a.artifactRefs +
      Map(HandoffRef, AgentHandoffs(a, a.agents))
  {
    assert Map(HandoffRef, AdapterHandoffs(a)) == a.artifactRefs + Map(HandoffRef, AgentHandoffs(a, a.agents));
  }

  method ValidateAgentArtifacts(a: Adapter, available: map<string, Artifact>, counts: map<string, nat>,
                                ghost artifacts: seq<Artifact>, ghost seen: seq<string>)
    returns (ok: bool, counts': map<string, nat>)
    requires Available(available, artifacts) && Tallies(counts, seen)
    ensures ok <==> forall h :: h in AgentHandoffs(a, a.agents) ==> HandoffFits(artifacts, h)
    ensures ok ==> Tallies(counts', seen + Map(HandoffRef, AgentHandoffs(a, a.agents)))
  {
    counts' := counts;
    assert seen + Map(HandoffRef, AgentHandoffs(a, a.agents[..0])) == seen;
    for i := 0 to |a.agents|
      invariant forall h :: h in AgentHandoffs(a, a.agents[..i]) ==> HandoffFits(artifacts, h)
      invariant Tallies(counts', seen + Map(HandoffRef, AgentHandoffs(a, a.agents[..i])))
    {
      var agent := a.agents[i];
      var v := Authority(a.providerRef, a.providerContractHash, agent.moduleRef, agent.moduleContractHash);
      NextAgent(a, i, seen);
      ok, counts' := ValidateAdapterArtifactRefs(agent.artifactRefs, v, available, counts', artifacts,
                                                 seen + Map(HandoffRef, AgentHandoffs(a, a.agents[..i])));
      if !ok {
        AgentHandoffsGrow(a, i + 1);
        return;
      }
    }
    assert a.agents[..|a.agents|] == a.agents;
    ok := true;
  }

  lemma NextAgent(a: Adapter, i: nat, seen: seq<string>)
    requires i < |a.agents|
    ensures var agent := a.agents[i];
            var added :=
              HandoffsOf(agent.artifactRefs,
              Authority(a.providerRef, a.providerContractHash, agent.moduleRef, agent.moduleContractHash));
            && AgentHandoffs(a, a.agents[..i + 1]) == AgentHandoffs(a, a.agents[..i]) + added
            && seen + Map(HandoffRef, AgentHandoffs(a, a.agents[..i + 1])) == seen +
               Map(HandoffRef, AgentHandoffs(a, a.agents[..i])) + agent.artifactRefs
  {
    assert a.agents[..i + 1][..i] == a.agents[..i];
    var agent := a.agents[i];
    var added :=
      HandoffsOf(agent.artifactRefs,
      Authority(a.providerRef, a.providerContractHash, agent.moduleRef, agent.moduleContractHash));
    assert Map(HandoffRef, AgentHandoffs(a, a.agents[..i]) + added) ==
      Map(HandoffRef, AgentHandoffs(a, a.agents[..i])) + agent.artifactRefs;
  }

  lemma {:induction false} AgentHandoffsGrow(a: Adapter, n: nat)
    requires n <= |a.agents|
    ensures forall h :: h in AgentHandoffs(a, a.agents[..n]) ==> h in AgentHandoffs(a, a.agents)
    decreases |a.agents| - n
  {
    if n == |a.agents| {
      assert a.agents[..n] == a.agents;
    } else {
      AgentHandoffsGrow(a, n + 1);
      assert a.agents[..n + 1][..n] == a.agents[..n];
    }
  }

  /** The artifact a target names must be its own executable artifact. */
  method CheckRuntimeRef(t: RuntimeTarget, ref: string, available: map<string, Artifact>,
                         ghost artifacts: seq<Artifact>)
    returns (ok: bool)
    requires Available(available, artifacts)
    ensures ok <==> RuntimeRefFits(artifacts, t, ref)
  {
    if ref !in available { return false; }
    var artifact := available[ref];
    return artifact.executionClass == CLASS_EXECUTABLE && MatchesTarget(artifact, t);
  }

  method ValidateRuntimeArtifactRefs(t: RuntimeTarget, available: map<string, Artifact>, counts: map<string, nat>,
                                     ghost artifacts: seq<Artifact>, ghost seen: seq<string>)
    returns (ok: bool, counts': map<string, nat>)
    requires Available(available, artifacts) && Tallies(counts, seen)
    ensures ok <==> forall ref :: ref in t.artifactRefs ==> RuntimeRefFits(artifacts, t, ref)
    ensures ok ==> Tallies(counts', seen + t.artifactRefs)
  {
    counts' := counts;
    assert seen + t.artifactRefs[..0] == seen;
    for i := 0 to |t.artifactRefs|
      invariant forall j :: 0 <= j < i ==> RuntimeRefFits(artifacts, t, t.artifactRefs[j])
      invariant Tallies(counts', seen + t.artifactRefs[..i])
    {
      var ref := t.artifactRefs[i];
      ok := CheckRuntimeRef(t, ref, available, artifacts);
      if !ok {
        assert ref in t.artifactRefs;
        return;
      }
      TallyNext(counts', seen, t.artifactRefs, i);
      counts' := counts'[ref := Count(counts', ref) + 1];
    }
    assert t.artifactRefs[..|t.artifactRefs|] == t.artifactRefs;
    ok := true;
  }

  method ValidateArtifactReferenceCounts(artifacts: seq<Artifact>, runtime: map<string, nat>, adapter: map<string, nat>)
    returns (ok: bool)
    ensures ok <==> forall a :: a in artifacts ==> CountsAccepted(a, Count(runtime, a.id), Count(adapter, a.id))
  {
    for i := 0 to |artifacts|
      invariant forall a :: a in artifacts[..i] ==> CountsAccepted(a, Count(runtime, a.id), Count(adapter, a.id))
    {
      var a := artifacts[i];
      assert a in artifacts && artifacts[..i + 1] == artifacts[..i] + [a];
      if !CountsAccepted(a, Count(runtime, a.id), Count(adapter, a.id)) { return false; }
    }
    assert artifacts[..|artifacts|] == artifacts;
    return true;
  }

  ghost predicate PlanBound(artifacts: seq<Artifact>, planHash: string) {
    forall a :: a in artifacts && a.ownerKind == OWNER_PLAN ==>
      a.ownerRef == planHash && a.ownerContractHash == planHash
  }

  method IndexArtifacts(artifacts: seq<Artifact>, planHash: string) returns (ok: bool, available: map<string, Artifact>)
    requires Catalogued(artifacts)
    ensures ok <==> PlanBound(artifacts, planHash)
    ensures ok ==> Available(available, artifacts)
  {
    available := map[];
    for i := 0 to |artifacts|
      invariant Available(available, artifacts[..i])
      invariant PlanBound(artifacts[..i], planHash)
    {
      var a := artifacts[i];
      assert a in artifacts && artifacts[..i + 1] == artifacts[..i] + [a];
      forall b | b in artifacts[..i] ensures b.id != a.id {
        var j :| 0 <= j < i && artifacts[j] == b;
        assert Map(ArtifactId, artifacts)[j] != Map(ArtifactId, artifacts)[i];
      }
      available := available[a.id := a];
      if a.ownerKind == OWNER_PLAN && (a.ownerRef != planHash || a.ownerContractHash != planHash) {
        return false, available;
      }
    }
    assert artifacts[..|artifacts|] == artifacts;
    return true, available;
  }

  ghost predicate ReferencesFit(targets: seq<RuntimeTarget>, artifacts: seq<Artifact>) {
    && (forall t, ref :: t in targets && ref in t.artifactRefs ==> RuntimeRefFits(artifacts, t, ref))
    && (forall h :: h in AllHandoffs(targets) ==> HandoffFits(artifacts, h))
  }

  lemma ReferencesFitExtend(targets: seq<RuntimeTarget>, t: RuntimeTarget, artifacts: seq<Artifact>)
    ensures ReferencesFit(targets + [t], artifacts) <==>
            ReferencesFit(targets, artifacts)
            && (forall ref :: ref in t.artifactRefs ==> RuntimeRefFits(artifacts, t, ref))
            && (forall h :: h in TargetHandoffs(t) ==> HandoffFits(artifacts, h))
    ensures RuntimeRefs(targets + [t]) == RuntimeRefs(targets) + t.artifactRefs
    ensures Map(HandoffRef, AllHandoffs(targets + [t])) == Map(HandoffRef, AllHandoffs(targets)) +
      Map(HandoffRef, TargetHandoffs(t))
  {
    assert (targets + [t])[..|targets|] == targets;
    assert AllHandoffs(targets + [t]) == AllHandoffs(targets) + TargetHandoffs(t);
    assert t in targets + [t];
  }

  method CountReferences(targets: seq<RuntimeTarget>, available: map<string, Artifact>, ghost artifacts: seq<Artifact>)
    returns (ok: bool, runtime: map<string, nat>, adapter: map<string, nat>)
    requires Available(available, artifacts)
    ensures ok <==> ReferencesFit(targets, artifacts)
    ensures ok ==> Tallies(runtime, RuntimeRefs(targets)) && Tallies(adapter, Map(HandoffRef, AllHandoffs(targets)))
  {
    runtime, adapter := map[], map[];
    for i := 0 to |targets|
      invariant Tallies(runtime, RuntimeRefs(targets[..i]))
      invariant Tallies(adapter, Map(HandoffRef, AllHandoffs(targets[..i])))
      invariant ReferencesFit(targets[..i], artifacts)
    {
      var t := targets[i];
      assert targets[..i + 1] == targets[..i] + [t];
      ReferencesFitExtend(targets[..i], t, artifacts);
      ok, runtime := ValidateRuntimeArtifactRefs(t, available, runtime, artifacts, RuntimeRefs(targets[..i]));
      if ok {
        ok, adapter :=
          ValidateTargetAdapterArtifacts(t, available, adapter, artifacts, Map(HandoffRef, AllHandoffs(targets[..i])));
      }
      if !ok {
        ReferencesFitPrefix(targets, i + 1, artifacts);
        return;
      }
    }
    assert targets[..|targets|] == targets;
    ok := true;
  }

  /** The closure accepts exactly under exact ownership. */
  method ValidateArtifactClosure(targets: seq<RuntimeTarget>, artifacts: seq<Artifact>, planHash: string)
    returns (ok: bool)
    requires Catalogued(artifacts)
    ensures ok <==> ExactOwnership(targets, artifacts, planHash)
  {
    var bound, available := IndexArtifacts(artifacts, planHash);
    if !bound { return false; }
    var fit, runtime, adapter := CountReferences(targets, available, artifacts);
    if !fit { return false; }
    ok := ValidateArtifactReferenceCounts(artifacts, runtime, adapter);
    TalliesMultiplicity(runtime, RuntimeRefs(targets));
    TalliesMultiplicity(adapter, Map(HandoffRef, AllHandoffs(targets)));
    CountsMeanOwnership(targets, artifacts);
    assert ok <==> CountsAll(targets, artifacts);
  }

  lemma ReferencesFitPrefix(targets: seq<RuntimeTarget>, n: nat, artifacts: seq<Artifact>)
    requires n <= |targets|
    ensures ReferencesFit(targets, artifacts) ==> ReferencesFit(targets[..n], artifacts)
  {
    HandoffsGrow(targets, n);
  }

  lemma {:induction false} HandoffsGrow(targets: seq<RuntimeTarget>, n: nat)
    requires n <= |targets|
    ensures forall h :: h in AllHandoffs(targets[..n]) ==> h in AllHandoffs(targets)
    decreases |targets| - n
  {
    if n == |targets| {
      assert targets[..n] == targets;
    } else {
      HandoffsGrow(targets, n + 1);
      assert targets[..n + 1][..n] == targets[..n];
    }
  }

  ghost predicate CountsAll(targets: seq<RuntimeTarget>, artifacts: seq<Artifact>) {
    forall a :: a in artifacts ==>
      CountsAccepted(a, multiset(RuntimeRefs(targets))[a.id], multiset(Map(HandoffRef, AllHandoffs(targets)))[a.id])
  }

  lemma LastIdIsNew(artifacts: seq<Artifact>)
    requires Distinct(Map(ArtifactId, artifacts)) && artifacts != []
    ensures Distinct(Map(ArtifactId, artifacts[..|artifacts| - 1]))
    ensures forall a :: a in artifacts[..|artifacts| - 1] ==> a.id != artifacts[|artifacts| - 1].id
  {
    var n := |artifacts| - 1;
    var ids, init := Map(ArtifactId, artifacts), Map(ArtifactId, artifacts[..n]);
    assert ids == init + [ids[n]];
    DistinctGrows(init, ids[n]);
    forall a | a in artifacts[..n] ensures a.id != ids[n] {
      var j :| 0 <= j < n && artifacts[j] == a;
      assert init[j] == a.id;
    }
  }

  lemma {:induction false} IdsOfClassMembers(artifacts: seq<Artifact>, c: string)
    requires Distinct(Map(ArtifactId, artifacts))
    ensures forall a :: a in artifacts ==>
      multiset(IdsOfClass(artifacts, c))[a.id] == if a.executionClass == c then 1 else 0
    ensures forall id :: id in IdsOfClass(artifacts, c) ==>
      exists a :: a in artifacts && a.id == id && a.executionClass == c
  {
    if artifacts != [] {
      var n := |artifacts| - 1;
      var last := artifacts[n];
      assert artifacts == artifacts[..n] + [last];
      LastIdIsNew(artifacts);
      IdsOfClassMembers(artifacts[..n], c);
      assert last.id !in IdsOfClass(artifacts[..n], c);
    }
  }

  lemma {:induction false} RuntimeRefsMembers(targets: seq<RuntimeTarget>)
    ensures forall ref :: ref in RuntimeRefs(targets) <==> exists t :: t in targets && ref in t.artifactRefs
  {
    if targets != [] {
      var n := |targets| - 1;
      RuntimeRefsMembers(targets[..n]);
      assert targets == targets[..n] + [targets[n]];
    }
  }

  /** Counting every artifact once is the same as the reference list being a permutation of the executable ids. */
  lemma CountsMeanOwnership(targets: seq<RuntimeTarget>, artifacts: seq<Artifact>)
    requires Catalogued(artifacts)
    requires ReferencesFit(targets, artifacts)
    ensures CountsAll(targets, artifacts) <==>
            multiset(RuntimeRefs(targets)) == multiset(IdsOfClass(artifacts, CLASS_EXECUTABLE)) &&
            forall a :: a in artifacts && a.executionClass == CLASS_HANDOFF ==>
              a.id in Map(HandoffRef, AllHandoffs(targets))
  {
    var refs, handoffs := RuntimeRefs(targets), Map(HandoffRef, AllHandoffs(targets));
    ReferencedClasses(targets, artifacts);
    IdsOfClassMembers(artifacts, CLASS_EXECUTABLE);
    if CountsAll(targets, artifacts) { CountedIdsAgree(targets, artifacts); }
  }

  /** Fitting references name artifacts of the right class. */
  lemma ReferencedClasses(targets: seq<RuntimeTarget>, artifacts: seq<Artifact>)
    requires Catalogued(artifacts) && ReferencesFit(targets, artifacts)
    ensures forall a :: a in artifacts && a.id in RuntimeRefs(targets) ==> a.executionClass == CLASS_EXECUTABLE
    ensures forall a :: a in artifacts && a.id in Map(HandoffRef, AllHandoffs(targets)) ==>
      a.executionClass == CLASS_HANDOFF
    ensures forall ref :: ref in RuntimeRefs(targets) ==> exists a :: a in artifacts && a.id == ref
  {
    RuntimeRefsMembers(targets);
    var handoffs := Map(HandoffRef, AllHandoffs(targets));
    forall ref | ref in RuntimeRefs(targets) ensures exists a :: a in artifacts && a.id == ref {
      var t :| t in targets && ref in t.artifactRefs;
      assert RuntimeRefFits(artifacts, t, ref);
    }
    forall a | a in artifacts ensures a.id in RuntimeRefs(targets) ==> a.executionClass == CLASS_EXECUTABLE {
      if a.id in RuntimeRefs(targets) {
        var t :| t in targets && a.id in t.artifactRefs;
        var b :| b in artifacts && b.id == a.id && b.executionClass == CLASS_EXECUTABLE && MatchesTarget(b, t);
        SameIdSameArtifact(artifacts, a, b);
      }
    }
    forall a | a in artifacts ensures a.id in handoffs ==> a.executionClass == CLASS_HANDOFF {
      if a.id in handoffs {
        var i :| 0 <= i < |handoffs| && handoffs[i] == a.id;
        assert HandoffFits(artifacts, AllHandoffs(targets)[i]);
        var b :| b in artifacts && b.id == a.id && b.executionClass == CLASS_HANDOFF;
        SameIdSameArtifact(artifacts, a, b);
      }
    }
  }

  lemma CountedIdsAgree(targets: seq<RuntimeTarget>, artifacts: seq<Artifact>)
    requires Catalogued(artifacts) && ReferencesFit(targets, artifacts) && CountsAll(targets, artifacts)
    ensures multiset(RuntimeRefs(targets)) == multiset(IdsOfClass(artifacts, CLASS_EXECUTABLE))
  {
    var refs, ids := RuntimeRefs(targets), IdsOfClass(artifacts, CLASS_EXECUTABLE);
    ReferencedClasses(targets, artifacts);
    IdsOfClassMembers(artifacts, CLASS_EXECUTABLE);
    forall id ensures multiset(refs)[id] == multiset(ids)[id] {
      if id in refs || id in ids {
        var a :| a in artifacts && a.id == id;
        assert CountsAccepted(a, multiset(refs)[id], multiset(Map(HandoffRef, AllHandoffs(targets)))[id]);
      }
    }
  }

  lemma SameIdSameArtifact(artifacts: seq<Artifact>, a: Artifact, b: Artifact)
    requires Distinct(Map(ArtifactId, artifacts)) && a in artifacts && b in artifacts && a.id == b.id
    ensures a == b
  {
    var i :| 0 <= i < |artifacts| && artifacts[i] == a;
    var j :| 0 <= j < |artifacts| && artifacts[j] == b;
    assert Map(ArtifactId, artifacts)[i] == Map(ArtifactId, artifacts)[j];
  }
}
