/** The request being sealed: nested lists sorted in place, hashes assigned field by field. */
module RequestDraft {
  import opened Wrappers
  import opened Ordering
  import opened ExecutionModel
  import opened Canonical
  import opened Sealing
  import opened RequestChecks

  /** `after` is `before` with `f` applied to its first `n` elements. */
  ghost predicate MappedUpTo<A(!new)>(after: seq<A>, before: seq<A>, f: A -> A, n: nat) {
    |after| == |before| && forall i :: 0 <= i < |before| ==> after[i] == if i < n then f(before[i]) else before[i]
  }

  lemma MappedAll<A(!new)>(after: seq<A>, before: seq<A>, f: A -> A)
    requires MappedUpTo(after, before, f, |before|)
    ensures after == Map(f, before)
  {
  }

  method SortAdapter(s: Sorts, a: Adapter) returns (r: Adapter)
    ensures r == CanonicalAdapter(s, a)
  {
    r := a.(artifactRefs := s.strings(a.artifactRefs));
    var agents := a.agents;
    ghost var f := (x: Agent) => CanonicalAgent(s, x);
    for i := 0 to |agents|
      invariant |agents| == |a.agents| && MappedUpTo(agents, a.agents, f, i)
    {
      agents := agents[i := agents[i].(artifactRefs := s.strings(agents[i].artifactRefs))];
    }
    MappedAll(agents, a.agents, f);
    r := r.(agents := s.agents(agents));
  }

  method SortArtifacts(s: Sorts, input: seq<Artifact>) returns (r: seq<Artifact>)
    ensures r == Map((a: Artifact) => CanonicalArtifact(s, a), input)
  {
    r := input;
    ghost var f := (a: Artifact) => CanonicalArtifact(s, a);
    for i := 0 to |input|
      invariant MappedUpTo(r, input, f, i)
    {
      var a := r[i];
      if a.executionClass == "" {
        if a.ownerKind == OWNER_PLAN {
          a := a.(executionClass := CLASS_PLAN);
        } else {
          a := a.(executionClass := CLASS_EXECUTABLE);
        }
      }
      a := a.(siteRefs := s.strings(a.siteRefs));
      a := a.(nodeRefs := s.strings(a.nodeRefs));
      r := r[i := a];
    }
    MappedAll(r, input, f);
  }

  method ComputeArtifactSetHash(k: Rules, s: Sorts, input: seq<Artifact>) returns (r: Option<string>)
    ensures r == ArtifactSetHash(k, s, input)
  {
    var artifacts := SortArtifacts(s, s.artifacts(input));
    var ok := ValidateArtifacts(k, artifacts);
    if !ok { return None; }
    var identities: seq<Artifact> := [];
    for i := 0 to |artifacts|
      invariant |identities| == i && forall j :: 0 <= j < i ==> identities[j] == WithoutContent(artifacts[j])
    {
      identities := identities + [WithoutContent(artifacts[i])];
    }
    assert identities == Map(WithoutContent, artifacts);
    return Some(k.hashArtifacts(identities));
  }

  class Draft {
    var request: Request

    constructor (input: Request)
      ensures request == input
    {
      request := input;
    }

    method SortTargets(s: Sorts)
      modifies this
      ensures request ==
        old(request).(runtimeTargets := Map((t: RuntimeTarget) => CanonicalTarget(s, t), old(request).runtimeTargets))
    {
      ghost var f := (t: RuntimeTarget) => CanonicalTarget(s, t);
      for i := 0 to |request.runtimeTargets|
        invariant MappedUpTo(request.runtimeTargets, old(request).runtimeTargets, f, i)
        invariant request == old(request).(runtimeTargets := request.runtimeTargets)
      {
        var t := request.runtimeTargets[i];
        t := t.(siteRefs := s.strings(t.siteRefs), nodeRefs := s.strings(t.nodeRefs),
          artifactRefs := s.strings(t.artifactRefs));
        if t.adapter.Some? {
          var adapter := SortAdapter(s, t.adapter.value);
          t := t.(adapter := Some(adapter));
        }
        t := t.(access := BindingClaims(s.strings(t.access.refs), s.capabilities(t.access.capabilities)));
        t := t.(backup := BindingClaims(s.strings(t.backup.refs), s.capabilities(t.backup.capabilities)));
        t := t.(daemons := s.daemons(t.daemons));
        assert t == f(request.runtimeTargets[i]);
        request := request.(runtimeTargets := request.runtimeTargets[i := t]);
      }
      MappedAll(request.runtimeTargets, old(request).runtimeTargets, f);
    }

    method SortHealth(s: Sorts)
      modifies this
      ensures request ==
        old(request).(healthTargets := Map((h: HealthTarget) => CanonicalHealth(s, h), old(request).healthTargets))
    {
      ghost var f := (h: HealthTarget) => CanonicalHealth(s, h);
      for i := 0 to |request.healthTargets|
        invariant MappedUpTo(request.healthTargets, old(request).healthTargets, f, i)
        invariant request == old(request).(healthTargets := request.healthTargets)
      {
        var h := request.healthTargets[i];
        h := h.(siteRefs := s.strings(h.siteRefs), nodeRefs := s.strings(h.nodeRefs));
        if h.probe.Some? {
          h := h.(probe := Some(h.probe.value.(expectedStatuses := s.statuses(h.probe.value.expectedStatuses))));
        }
        request := request.(healthTargets := request.healthTargets[i := h]);
      }
      MappedAll(request.healthTargets, old(request).healthTargets, f);
    }

    method Canonicalize(s: Sorts)
      modifies this
      ensures request == CanonicalRequest(s, old(request))
    {
      SortTargets(s);
      SortHealth(s);
      var artifacts := SortArtifacts(s, request.artifacts);
      var access := SortBindings(s, request.accessBindings);
      var backup := SortBindings(s, request.backupBindings);
      request := request.(runtimeTargets := s.targets(request.runtimeTargets));
      request := request.(healthTargets := s.health(request.healthTargets));
      request := request.(accessBindings := s.bindings(access));
      request := request.(backupBindings := s.bindings(backup));
      request := request.(artifacts := s.artifacts(artifacts));
    }
  }

  method SortBindings(s: Sorts, input: seq<Binding>) returns (r: seq<Binding>)
    ensures r == Map((b: Binding) => CanonicalBinding(s, b), input)
  {
    r := input;
    ghost var f := (b: Binding) => CanonicalBinding(s, b);
    for i := 0 to |input|
      invariant MappedUpTo(r, input, f, i)
    {
      r := r[i := r[i].(targetNodeRefs := s.strings(r[i].targetNodeRefs))];
    }
    MappedAll(r, input, f);
  }

  /** Clears each projection hash, then computes it from the cleared binding. */
  method ProjectBindings(k: Rules, s: Sorts, side: Side, input: seq<Binding>) returns (r: seq<Binding>)
    ensures r == Map((b: Binding) => Reproject(k, s, side, b), input)
  {
    r := input;
    ghost var f := (b: Binding) => Reproject(k, s, side, b);
    for i := 0 to |input|
      invariant MappedUpTo(r, input, f, i)
    {
      var b := r[i].(projectionHash := "");
      var hash := ProjectionHash(k, s, side, b);
      assert b.(projectionHash := "") == r[i].(projectionHash := "");
      r := r[i := b.(projectionHash := hash)];
    }
    MappedAll(r, input, f);
  }

  method ValidateRequest(k: Rules, s: Sorts, r: Request) returns (ok: bool)
    requires TokensAreNulFree(k)
    ensures ok <==> Valid(k, s, r)
    ensures ok ==> r.requestDigest == k.hashRequest(r.(requestDigest := ""))
  {
    if !AuthorityOK(k, r) { return false; }
    var topology := ValidateTopology(k, s, r);
    if !topology { return false; }
    var canonical := new Draft(r);
    canonical.Canonicalize(s);
    if r != canonical.request { return false; }
    var hash := ComputeArtifactSetHash(k, s, r.artifacts);
    return hash == Some(r.artifactSetHash) && RequestDigest(k, r) == r.requestDigest;
  }

  method SealRequest(k: Rules, s: Sorts, input: Request) returns (r: Option<Request>)
    requires TokensAreNulFree(k)
    ensures r == Seal(k, s, input)
    ensures r.Some? ==> r.value.requestDigest == k.hashRequest(r.value.(requestDigest := ""))
  {
    var draft := new Draft(input);
    if draft.request.apiVersion == "" { draft.request := draft.request.(apiVersion := API_VERSION); }
    draft.Canonicalize(s);
    var access := ProjectBindings(k, s, Access, draft.request.accessBindings);
    draft.request := draft.request.(accessBindings := access);
    var backup := ProjectBindings(k, s, Backup, draft.request.backupBindings);
    draft.request := draft.request.(backupBindings := backup);
    draft.request := draft.request.(artifactSetHash := "", requestDigest := "");
    assert draft.request == Prepared(k, s, input) by { SameVersion(input); }
    var hash := ComputeArtifactSetHash(k, s, draft.request.artifacts);
    if hash == None { return None; }
    draft.request := draft.request.(artifactSetHash := hash.value);
    draft.request := draft.request.(requestDigest := RequestDigest(k, draft.request));
    var ok := ValidateRequest(k, s, draft.request);
    return if ok then Some(draft.request) else None;
  }

  lemma SameVersion(input: Request)
    ensures input.(apiVersion := input.apiVersion) == input
  {
  }
}
