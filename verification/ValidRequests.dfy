/** What validation guarantees to whoever executes a request: each artifact and each binding has its one place. */
module ValidRequests {
  import opened Ordering
  import opened ExecutionModel
  import opened Closures
  import opened BindingClosures
  import opened Sealing

  function Flat(lists: seq<seq<string>>): seq<string> {
    if lists == [] then [] else Flat(lists[..|lists| - 1]) + lists[|lists| - 1]
  }

  lemma {:induction false} FlatMembers(lists: seq<seq<string>>)
    ensures forall i, x :: 0 <= i < |lists| && x in lists[i] ==> x in Flat(lists)
  {
    if lists != [] { FlatMembers(lists[..|lists| - 1]); }
  }

  /** What occurs once in all the lists occurs in one list only. */
  lemma {:induction false} OnePlace(lists: seq<seq<string>>, x: string) returns (i: nat)
    requires multiset(Flat(lists))[x] == 1
    ensures i < |lists| && x in lists[i] && forall j :: 0 <= j < |lists| && x in lists[j] ==> j == i
  {
    var n := |lists| - 1;
    var init := lists[..n];
    assert multiset(Flat(lists)) == multiset(Flat(init)) + multiset(lists[n]);
    assert forall j :: 0 <= j < n ==> init[j] == lists[j];
    if x in lists[n] {
      assert x in multiset(lists[n]);
      assert x !in multiset(Flat(init));
      assert x !in Flat(init);
      FlatMembers(init);
      assert forall j :: 0 <= j < n ==> x !in init[j];
      i := n;
    } else {
      assert x !in multiset(lists[n]);
      i := OnePlace(init, x);
      forall j | 0 <= j < |lists| && x in lists[j] ensures j == i { assert x in init[j]; }
    }
  }

  function ArtifactRefs(t: RuntimeTarget): seq<string> { t.artifactRefs }

  lemma {:induction false} RuntimeRefsAreFlat(targets: seq<RuntimeTarget>)
    ensures RuntimeRefs(targets) == Flat(Map(ArtifactRefs, targets))
  {
    if targets != [] {
      var n := |targets| - 1;
      RuntimeRefsAreFlat(targets[..n]);
      assert Map(ArtifactRefs, targets)[..n] == Map(ArtifactRefs, targets[..n]);
    }
  }

  lemma {:induction false} BindingRefsAreFlat(targets: seq<RuntimeTarget>, side: Side)
    ensures AllBindingRefs(targets, side) == Flat(Map((t: RuntimeTarget) => Claims(t, side).refs, targets))
  {
    if targets != [] {
      var n := |targets| - 1;
      BindingRefsAreFlat(targets[..n], side);
      var refs := (t: RuntimeTarget) => Claims(t, side).refs;
      assert Map(refs, targets)[..n] == Map(refs, targets[..n]);
    }
  }

  /** Target `i` names the artifact. */
  predicate NamesArtifact(targets: seq<RuntimeTarget>, i: nat, a: Artifact) {
    i < |targets| && a.id in targets[i].artifactRefs
  }

  lemma ValidOwnership(k: Rules, s: Sorts, r: Request)
    requires Valid(k, s, r)
    ensures ExactOwnership(r.runtimeTargets, r.artifacts, r.planHash) && Distinct(Map(ArtifactId, r.artifacts))
    ensures forall a :: a in r.artifacts ==> k.hashContent(a.content) == a.digest
  {
    forall a | a in r.artifacts ensures k.hashContent(a.content) == a.digest { assert ArtifactOK(k, a); }
  }

  /** An executable artifact belongs to exactly one target, whose identity, placement and provider it carries; its
      digest is that of its content. */
  lemma ExecutableHasOneTarget(k: Rules, s: Sorts, r: Request, a: Artifact) returns (i: nat)
    requires Valid(k, s, r) && a in r.artifacts && a.executionClass == CLASS_EXECUTABLE
    ensures NamesArtifact(r.runtimeTargets, i, a) && MatchesTarget(a, r.runtimeTargets[i])
    ensures forall j: nat :: NamesArtifact(r.runtimeTargets, j, a) ==> j == i
    ensures k.hashContent(a.content) == a.digest
  {
    ValidOwnership(k, s, r);
    i := OneTarget(r.runtimeTargets, r.artifacts, r.planHash, a);
  }

  lemma OneTarget(targets: seq<RuntimeTarget>, artifacts: seq<Artifact>, planHash: string, a: Artifact)
    returns (i: nat)
    requires ExactOwnership(targets, artifacts, planHash) && Distinct(Map(ArtifactId, artifacts))
    requires a in artifacts && a.executionClass == CLASS_EXECUTABLE
    ensures NamesArtifact(targets, i, a) && MatchesTarget(a, targets[i])
    ensures forall j: nat :: NamesArtifact(targets, j, a) ==> j == i
  {
    OwnershipOfOne(targets, artifacts, planHash, a);
    RuntimeRefsAreFlat(targets);
    var refs := Map(ArtifactRefs, targets);
    i := OnePlace(refs, a.id);
    assert forall j :: 0 <= j < |targets| ==> refs[j] == targets[j].artifactRefs;
    ReferenceIsThis(targets, artifacts, planHash, targets[i], a);
  }

  lemma OwnershipOfOne(targets: seq<RuntimeTarget>, artifacts: seq<Artifact>, planHash: string, a: Artifact)
    requires ExactOwnership(targets, artifacts, planHash) && Distinct(Map(ArtifactId, artifacts))
    requires a in artifacts && a.executionClass == CLASS_EXECUTABLE
    ensures multiset(RuntimeRefs(targets))[a.id] == 1
  {
    IdsOfClassMembers(artifacts, CLASS_EXECUTABLE);
  }

  lemma ReferenceIsThis(targets: seq<RuntimeTarget>, artifacts: seq<Artifact>, planHash: string, t: RuntimeTarget,
                        a: Artifact)
    requires ExactOwnership(targets, artifacts, planHash) && Distinct(Map(ArtifactId, artifacts))
    requires t in targets && a in artifacts && a.id in t.artifactRefs
    ensures a.executionClass == CLASS_EXECUTABLE && MatchesTarget(a, t)
  {
    assert RuntimeRefFits(artifacts, t, a.id);
    var b :| b in artifacts && b.id == a.id && b.executionClass == CLASS_EXECUTABLE && MatchesTarget(b, t);
    SameIdSameArtifact(artifacts, a, b);
  }

  /** A handed-off artifact is named by an adapter or agent of a target, under the authority it carries. */
  lemma HandoffIsNamed(k: Rules, s: Sorts, r: Request, a: Artifact)
    requires Valid(k, s, r) && a in r.artifacts && a.executionClass == CLASS_HANDOFF
    ensures exists h :: h in AllHandoffs(r.runtimeTargets) && h.ref == a.id && MatchesAuthority(a, h.authority)
  {
    ValidOwnership(k, s, r);
    NamingHandoff(r.runtimeTargets, r.artifacts, r.planHash, a);
  }

  lemma NamingHandoff(targets: seq<RuntimeTarget>, artifacts: seq<Artifact>, planHash: string, a: Artifact)
    requires ExactOwnership(targets, artifacts, planHash) && Distinct(Map(ArtifactId, artifacts))
    requires a in artifacts && a.executionClass == CLASS_HANDOFF
    ensures exists h :: h in AllHandoffs(targets) && h.ref == a.id && MatchesAuthority(a, h.authority)
  {
    var handoffs := AllHandoffs(targets);
    var n :| 0 <= n < |handoffs| && Map(HandoffRef, handoffs)[n] == a.id;
    var h := handoffs[n];
    assert h in handoffs && HandoffFits(artifacts, h);
    var b :| b in artifacts && b.id == h.ref && b.executionClass == CLASS_HANDOFF && MatchesAuthority(b, h.authority);
    SameIdSameArtifact(artifacts, a, b);
  }

  /** Health that names a runtime requirement is placed where a target of that requirement is. */
  lemma BoundHealthIsPlaced(k: Rules, s: Sorts, r: Request, h: HealthTarget)
    requires Valid(k, s, r) && h in r.healthTargets && h.runtimeRequirementId != ""
    ensures exists t :: t in r.runtimeTargets && t.requirementId == h.runtimeRequirementId &&
              t.siteRefs == h.siteRefs && t.nodeRefs == h.nodeRefs
  {
    var i :| 0 <= i < |r.runtimeTargets| && r.runtimeTargets[i].requirementId == h.runtimeRequirementId &&
      h.siteRefs == r.runtimeTargets[i].siteRefs && h.nodeRefs == r.runtimeTargets[i].nodeRefs;
    assert r.runtimeTargets[i] in r.runtimeTargets;
  }

  /** Every reference of a target is to an executable artifact of the request with this identity. */
  lemma EveryReferenceResolves(k: Rules, s: Sorts, r: Request, i: nat, ref: string)
    requires Valid(k, s, r) && i < |r.runtimeTargets| && ref in r.runtimeTargets[i].artifactRefs
    ensures exists a :: a in r.artifacts && a.id == ref && a.executionClass == CLASS_EXECUTABLE &&
              MatchesTarget(a, r.runtimeTargets[i])
  {
    assert r.runtimeTargets[i] in r.runtimeTargets && RuntimeRefFits(r.artifacts, r.runtimeTargets[i], ref);
  }

  /** Target `i` names the binding. */
  predicate NamesBinding(targets: seq<RuntimeTarget>, side: Side, i: nat, b: Binding) {
    i < |targets| && b.id in Claims(targets[i], side).refs
  }

  function BindingsOf(r: Request, side: Side): seq<Binding> {
    if side == Access then r.accessBindings else r.backupBindings
  }

  lemma ValidBindings(k: Rules, s: Sorts, r: Request, side: Side)
    requires Valid(k, s, r)
    ensures BindingsPartitioned(r.runtimeTargets, BindingsOf(r, side), side)
    ensures Distinct(Map(BindingId, BindingsOf(r, side)))
    ensures Distinct(Map((b: Binding) => Scope(side, b), BindingsOf(r, side)))
    ensures forall b :: b in BindingsOf(r, side) ==> BindingOK(k, s, side, b)
  {
  }

  /** Every binding serves exactly one target and lies inside it: its site, owner, capability and nodes. No other
      binding of its side stands for the same authority. */
  lemma BindingServesOneTarget(k: Rules, s: Sorts, r: Request, side: Side, b: Binding) returns (i: nat)
    requires Valid(k, s, r) && b in BindingsOf(r, side)
    ensures NamesBinding(r.runtimeTargets, side, i, b)
    ensures BindingFits(r.runtimeTargets[i], Claims(r.runtimeTargets[i], side), b)
    ensures forall j: nat :: NamesBinding(r.runtimeTargets, side, j, b) ==> j == i
    ensures forall c :: c in BindingsOf(r, side) && SameScope(side, c, b) ==> c == b
    ensures b.projectionHash == ProjectionHash(k, s, side, b)
  {
    ValidBindings(k, s, r, side);
    i := OneBoundTarget(r.runtimeTargets, BindingsOf(r, side), side, b);
    OneScope(BindingsOf(r, side), side, b);
    assert BindingOK(k, s, side, b);
  }

  /** The two bindings stand for one authority: one capability of a site, for backups on the same nodes. */
  predicate SameScope(side: Side, b: Binding, c: Binding) {
    b.siteRef == c.siteRef && b.capabilityRef == c.capabilityRef &&
      (side == Backup ==> b.targetNodeRefs == c.targetNodeRefs)
  }

  lemma OneScope(l: seq<Binding>, side: Side, b: Binding)
    requires b in l && Distinct(Map((b: Binding) => Scope(side, b), l))
    ensures forall c :: c in l && SameScope(side, c, b) ==> c == b
  {
    var scopes := Map((b: Binding) => Scope(side, b), l);
    var i :| 0 <= i < |l| && l[i] == b;
    forall c | c in l && SameScope(side, c, b) ensures c == b {
      var j :| 0 <= j < |l| && l[j] == c;
      assert scopes[i] == Scope(side, b) && scopes[j] == Scope(side, c);
    }
  }

  lemma {:induction false} JoinedNodesIdentify(a: seq<string>, b: seq<string>)
    requires a != [] && b != [] && (forall x :: x in a ==> NulFree(x)) && forall x :: x in b ==> NulFree(x)
    ensures JoinedNodes(a) == JoinedNodes(b) <==> a == b
  {
    if |a| == 1 && |b| == 1 {
      assert JoinedNodes(a) == a[0] && JoinedNodes(b) == b[0];
    } else if |a| == 1 {
      assert JoinedNodes(b)[|b[0]|] == NUL && NulFree(a[0]);
    } else if |b| == 1 {
      assert JoinedNodes(a)[|a[0]|] == NUL && NulFree(b[0]);
    } else {
      JoinedNodesIdentify(a[1..], b[1..]);
      JoinedKeysOrderLikePairs((a[0], JoinedNodes(a[1..])), (b[0], JoinedNodes(b[1..])));
      assert a == [a[0]] + a[1..] && b == [b[0]] + b[1..];
    }
  }

  predicate NulFreeBinding(b: Binding) {
    NulFree(b.siteRef) && NulFree(b.capabilityRef) && b.targetNodeRefs != [] &&
      forall x :: x in b.targetNodeRefs ==> NulFree(x)
  }

  /** The joined scope key is the same exactly for one authority. */
  lemma ScopeIdentifies(side: Side, b: Binding, c: Binding)
    requires NulFreeBinding(b) && NulFreeBinding(c)
    ensures Scope(side, b) == Scope(side, c) <==> SameScope(side, b, c)
  {
    match side
    case Access => JoinedKeysOrderLikePairs((b.siteRef, b.capabilityRef), (c.siteRef, c.capabilityRef));
    case Backup =>
      var x, y := JoinedNodes(b.targetNodeRefs), JoinedNodes(c.targetNodeRefs);
      JoinedNodesIdentify(b.targetNodeRefs, c.targetNodeRefs);
      JoinedKeysOrderLikePairs((b.capabilityRef, x), (c.capabilityRef, y));
      BackupScope(b);
      BackupScope(c);
      JoinedKeysOrderLikePairs((b.siteRef, Joined((b.capabilityRef, x))), (c.siteRef, Joined((c.capabilityRef, y))));
  }

  lemma BackupScope(b: Binding)
    ensures Scope(Backup, b) == Joined((b.siteRef, Joined((b.capabilityRef, JoinedNodes(b.targetNodeRefs)))))
  {
  }

  lemma OneBoundTarget(targets: seq<RuntimeTarget>, l: seq<Binding>, side: Side, b: Binding) returns (i: nat)
    requires BindingsPartitioned(targets, l, side) && Distinct(Map(BindingId, l)) && b in l
    ensures NamesBinding(targets, side, i, b) && BindingFits(targets[i], Claims(targets[i], side), b)
    ensures forall j: nat :: NamesBinding(targets, side, j, b) ==> j == i
  {
    DistinctCounts(Map(BindingId, l));
    var n :| 0 <= n < |l| && l[n] == b;
    assert Map(BindingId, l)[n] == b.id;
    BindingRefsAreFlat(targets, side);
    var refs := Map((t: RuntimeTarget) => Claims(t, side).refs, targets);
    i := OnePlace(refs, b.id);
    assert forall j :: 0 <= j < |targets| ==> refs[j] == Claims(targets[j], side).refs;
    NamedBindingIsThis(targets, l, side, targets[i], b);
  }

  lemma NamedBindingIsThis(targets: seq<RuntimeTarget>, l: seq<Binding>, side: Side, t: RuntimeTarget, b: Binding)
    requires BindingsPartitioned(targets, l, side) && Distinct(Map(BindingId, l))
    requires t in targets && b in l && b.id in Claims(t, side).refs
    ensures BindingFits(t, Claims(t, side), b)
  {
    assert Covered(t, Claims(t, side), l);
    var c :| c in l && c.id == b.id && BindingFits(t, Claims(t, side), c);
    var i :| 0 <= i < |l| && l[i] == b;
    var j :| 0 <= j < |l| && l[j] == c;
    assert Map(BindingId, l)[i] == Map(BindingId, l)[j];
  }
}
