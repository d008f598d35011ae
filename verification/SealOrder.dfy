/** Sealing depends on unordered content only, whatever the sorts in use do with equal keys. */
module SealOrder {
  import opened Wrappers
  import opened Ordering
  import opened ExecutionModel
  import opened Canonical
  import opened Sealing

  // ---- Strict order leaves a sort no choice ----

  lemma StrictBindingsAreFixed(s: Sorts, l: seq<Binding>)
    requires AreSorts(s) && StrictlySorted(l, BindingLess) && forall b :: b in l ==> StrictBinding(b)
    ensures s.bindings(Map((b: Binding) => CanonicalBinding(s, b), l)) == l
  {
    var f := (b: Binding) => CanonicalBinding(s, b);
    forall b | b in l ensures f(b) == b {
      SortedFormIsUnique(b.targetNodeRefs, s.strings(b.targetNodeRefs), Less);
    }
    assert Map(f, l) == l;
    SortedFormIsUnique(l, s.bindings(l), BindingLess);
  }

  lemma StrictArtifactIsFixed(s: Sorts, a: Artifact)
    requires AreSorts(s) && StrictArtifact(a)
    ensures CanonicalArtifact(s, a) == a
  {
    SortedFormIsUnique(a.siteRefs, s.strings(a.siteRefs), Less);
    SortedFormIsUnique(a.nodeRefs, s.strings(a.nodeRefs), Less);
  }

  lemma StrictArtifactsAreFixed(s: Sorts, l: seq<Artifact>)
    requires AreSorts(s) && StrictlySorted(l, ArtifactLess) && forall a :: a in l ==> StrictArtifact(a)
    ensures CanonicalArtifacts(s, l) == l
    ensures Map((a: Artifact) => CanonicalArtifact(s, a), s.artifacts(l)) == l
  {
    var f := (a: Artifact) => CanonicalArtifact(s, a);
    forall a | a in l ensures f(a) == a { StrictArtifactIsFixed(s, a); }
    assert Map(f, l) == l;
    SortedFormIsUnique(l, s.artifacts(l), ArtifactLess);
  }

  /** A strict request is canonical for every choice of sorts. */
  lemma StrictIsCanonical(s: Sorts, r: Request)
    requires AreSorts(s) && StrictRequest(r)
    ensures CanonicalRequest(s, r) == r
  {
    CanonicalTargetsFacts(s, r.runtimeTargets);
    TargetListsAgree(r.runtimeTargets, CanonicalRequest(s, r).runtimeTargets);
    CanonicalHealthsFacts(s, r.healthTargets);
    HealthListsAgree(r.healthTargets, CanonicalRequest(s, r).healthTargets);
    StrictBindingsAreFixed(s, r.accessBindings);
    StrictBindingsAreFixed(s, r.backupBindings);
    StrictArtifactsAreFixed(s, r.artifacts);
  }

  lemma StrictProjection(k: Rules, s: Sorts, side: Side, b: Binding)
    requires AreSorts(s) && StrictBinding(b)
    ensures ProjectionHash(k, s, side, b) == k.hashBinding(side, b.(projectionHash := ""))
  {
    SortedFormIsUnique(b.targetNodeRefs, s.strings(b.targetNodeRefs), Less);
    assert b.(projectionHash := "", targetNodeRefs := s.strings(b.targetNodeRefs)) == b.(projectionHash := "");
  }

  lemma StrictArtifactSetHash(k: Rules, s: Sorts, l: seq<Artifact>)
    requires AreSorts(s) && StrictlySorted(l, ArtifactLess) && forall a :: a in l ==> StrictArtifact(a)
    ensures ArtifactSetHash(k, s, l) == if ArtifactsOK(k, l) then Some(k.hashArtifacts(Map(WithoutContent, l)))
      else None
  {
    StrictArtifactsAreFixed(s, l);
  }

  /** Whether a request is valid does not depend on which sorts the validator uses. */
  lemma ValidityIgnoresSorts(k: Rules, s1: Sorts, s2: Sorts, r: Request)
    requires TokensAreNulFree(k) && AreSorts(s1) && AreSorts(s2)
    ensures Valid(k, s1, r) <==> Valid(k, s2, r)
  {
    if Valid(k, s1, r) { ValidityTransfers(k, s1, s2, r); }
    if Valid(k, s2, r) { ValidityTransfers(k, s2, s1, r); }
  }

  lemma BindingsTransfer(k: Rules, s1: Sorts, s2: Sorts, side: Side, l: seq<Binding>)
    requires AreSorts(s1) && AreSorts(s2) && forall b :: b in l ==> StrictBinding(b)
    ensures BindingListOK(k, s1, l, side) <==> BindingListOK(k, s2, l, side)
  {
    forall b | b in l ensures BindingOK(k, s1, side, b) <==> BindingOK(k, s2, side, b) {
      StrictProjection(k, s1, side, b);
      StrictProjection(k, s2, side, b);
    }
  }

  lemma TopologyTransfers(k: Rules, s1: Sorts, s2: Sorts, r: Request)
    requires AreSorts(s1) && AreSorts(s2) && StrictRequest(r) && TopologyOK(k, s1, r)
    ensures TopologyOK(k, s2, r)
  {
    BindingsTransfer(k, s1, s2, Access, r.accessBindings);
    BindingsTransfer(k, s1, s2, Backup, r.backupBindings);
  }

  lemma ArtifactHashTransfers(k: Rules, s1: Sorts, s2: Sorts, r: Request)
    requires AreSorts(s1) && AreSorts(s2) && StrictRequest(r)
    ensures ArtifactSetHash(k, s1, r.artifacts) == ArtifactSetHash(k, s2, r.artifacts)
  {
    StrictArtifactSetHash(k, s1, r.artifacts);
    StrictArtifactSetHash(k, s2, r.artifacts);
  }

  lemma ValidityTransfers(k: Rules, s1: Sorts, s2: Sorts, r: Request)
    requires TokensAreNulFree(k) && AreSorts(s1) && AreSorts(s2) && Valid(k, s1, r)
    ensures Valid(k, s2, r)
  {
    ValidIsStrict(k, s1, r);
    StrictIsCanonical(s2, r);
    TopologyTransfers(k, s1, s2, r);
    ArtifactHashTransfers(k, s1, s2, r);
  }

  // ---- The prepared forms of two requests with the same content ----

  lemma ReprojectedFacts(k: Rules, s: Sorts, side: Side, l: seq<Binding>)
    requires AreSorts(s)
    ensures var c := s.bindings(Map((b: Binding) => CanonicalBinding(s, b), l));
            var p := Map((b: Binding) => Reproject(k, s, side, b), c);
            && multiset(Map(BindingContentOf, p)) == multiset(Map(BindingContentOf, l)) && Sorted(p, BindingLess)
            && (forall b :: b in p ==> SortedBinding(b))
            && (forall b :: b in p && StrictBinding(b) ==>
                b.projectionHash == k.hashBinding(side, b.(projectionHash := "")))
  {
    CanonicalBindingsFacts(s, l);
    var c := s.bindings(Map((b: Binding) => CanonicalBinding(s, b), l));
    var p := Map((b: Binding) => Reproject(k, s, side, b), c);
    assert Map(BindingContentOf, p) == Map(BindingContentOf, c);
    assert Sorted(p, BindingLess) by {
      forall i, j | 0 <= i < j < |p| ensures !BindingLess(p[j], p[i]) { assert !BindingLess(c[j], c[i]); }
    }
    forall i | 0 <= i < |p| ensures SortedBinding(p[i]) { assert c[i] in c; }
    forall i | 0 <= i < |p| && StrictBinding(p[i])
      ensures p[i].projectionHash == k.hashBinding(side, p[i].(projectionHash := ""))
    {
      StrictProjection(k, s, side, c[i]);
      assert c[i].(projectionHash := "") == p[i].(projectionHash := "");
    }
  }

  /** Preparing keeps the unordered content. */
  lemma PreparedKeepsContent(k: Rules, s: Sorts, r: Request)
    requires AreSorts(s)
    ensures ContentOf(Prepared(k, s, r)) == ContentOf(r)
  {
    var r' := r.(apiVersion := if r.apiVersion == "" then API_VERSION else r.apiVersion);
    CanonicalRequestFacts(s, r');
    ReprojectedFacts(k, s, Access, r.accessBindings);
    ReprojectedFacts(k, s, Backup, r.backupBindings);
  }

  lemma PreparedAgree(k: Rules, s1: Sorts, s2: Sorts, r1: Request, r2: Request)
    requires AreSorts(s1) && AreSorts(s2) && ContentOf(r1) == ContentOf(r2)
    requires StrictRequest(Prepared(k, s1, r1))
    ensures Prepared(k, s1, r1) == Prepared(k, s2, r2)
  {
    var p1, p2 := Prepared(k, s1, r1), Prepared(k, s2, r2);
    PreparedKeepsContent(k, s1, r1);
    PreparedKeepsContent(k, s2, r2);
    CanonicalTargetsFacts(s2, r2.runtimeTargets);
    TargetListsAgree(p1.runtimeTargets, p2.runtimeTargets);
    CanonicalHealthsFacts(s2, r2.healthTargets);
    HealthListsAgree(p1.healthTargets, p2.healthTargets);
    CanonicalArtifactsFacts(s2, r2.artifacts);
    ArtifactListsAgree(p1.artifacts, p2.artifacts);
    var accessHash, backupHash := (b: Binding) => k.hashBinding(Access, b), (b: Binding) => k.hashBinding(Backup, b);
    ReprojectedFacts(k, s1, Access, r1.accessBindings);
    ReprojectedFacts(k, s2, Access, r2.accessBindings);
    BindingListsAgree(p1.accessBindings, p2.accessBindings, accessHash);
    ReprojectedFacts(k, s1, Backup, r1.backupBindings);
    ReprojectedFacts(k, s2, Backup, r2.backupBindings);
    BindingListsAgree(p1.backupBindings, p2.backupBindings, backupHash);
    ScalarsAgree(p1, p2);
  }

  lemma ScalarsAgree(a: Request, b: Request)
    requires ContentOf(a).shell == ContentOf(b).shell && a.apiVersion != "" && b.apiVersion != ""
    requires a.runtimeTargets == b.runtimeTargets && a.healthTargets == b.healthTargets && a.artifacts == b.artifacts
    requires a.accessBindings == b.accessBindings && a.backupBindings == b.backupBindings
    requires a.artifactSetHash == b.artifactSetHash && a.requestDigest == b.requestDigest
    ensures a == b
  {
    assert a == ContentOf(a).shell.(apiVersion := a.apiVersion, artifactSetHash := a.artifactSetHash,
                                    requestDigest := a.requestDigest,
      runtimeTargets := a.runtimeTargets, healthTargets := a.healthTargets, accessBindings := a.accessBindings,
      backupBindings := a.backupBindings, artifacts := a.artifacts);
    assert b == ContentOf(b).shell.(apiVersion := b.apiVersion, artifactSetHash := b.artifactSetHash,
                                    requestDigest := b.requestDigest,
      runtimeTargets := b.runtimeTargets, healthTargets := b.healthTargets, accessBindings := b.accessBindings,
      backupBindings := b.backupBindings, artifacts := b.artifacts);
  }

  // ---- Main results ----

  lemma SealKeepsContent(k: Rules, s: Sorts, r: Request)
    requires AreSorts(s) && Seal(k, s, r).Some?
    ensures ContentOf(Seal(k, s, r).value) == ContentOf(r)
  {
    PreparedKeepsContent(k, s, r);
  }

  lemma SealedIsStrict(k: Rules, s: Sorts, r: Request)
    requires TokensAreNulFree(k) && AreSorts(s) && Seal(k, s, r).Some?
    ensures StrictRequest(Seal(k, s, r).value) && StrictRequest(Prepared(k, s, r))
  {
    ValidIsStrict(k, s, Seal(k, s, r).value);
  }

  /** Permuting any list at any level, or changing the sorts, never changes a successful seal. */
  lemma SealDependsOnContentOnly(k: Rules, s1: Sorts, s2: Sorts, r1: Request, r2: Request)
    requires TokensAreNulFree(k) && AreSorts(s1) && AreSorts(s2)
    requires Seal(k, s1, r1).Some?
    ensures ContentOf(r1) == ContentOf(r2) <==> Seal(k, s2, r2) == Seal(k, s1, r1)
  {
    if ContentOf(r1) == ContentOf(r2) {
      SealedIsStrict(k, s1, r1);
      PreparedAgree(k, s1, s2, r1, r2);
      var p := Prepared(k, s1, r1);
      StrictArtifactSetHash(k, s1, p.artifacts);
      StrictArtifactSetHash(k, s2, p.artifacts);
      ValidityIgnoresSorts(k, s1, s2, Seal(k, s1, r1).value);
    } else if Seal(k, s2, r2) == Seal(k, s1, r1) {
      SealKeepsContent(k, s1, r1);
      SealKeepsContent(k, s2, r2);
    }
  }

  /** Requests with the same content seal alike: both fail, or both give the identical seal. */
  lemma SameContentSealsAlike(k: Rules, s1: Sorts, s2: Sorts, r1: Request, r2: Request)
    requires TokensAreNulFree(k) && AreSorts(s1) && AreSorts(s2) && ContentOf(r1) == ContentOf(r2)
    ensures Seal(k, s1, r1) == Seal(k, s2, r2)
  {
    if Seal(k, s1, r1).Some? {
      SealDependsOnContentOnly(k, s1, s2, r1, r2);
    } else if Seal(k, s2, r2).Some? {
      SealDependsOnContentOnly(k, s2, s1, r2, r1);
    }
  }

  /** Reordered lists of a request. */
  ghost predicate Reordered(a: Request, b: Request) {
    && multiset(a.runtimeTargets) == multiset(b.runtimeTargets)
    && multiset(a.healthTargets) == multiset(b.healthTargets)
    && multiset(a.accessBindings) == multiset(b.accessBindings)
    && multiset(a.backupBindings) == multiset(b.backupBindings)
    && multiset(a.artifacts) == multiset(b.artifacts)
    && b == a.(runtimeTargets := b.runtimeTargets, healthTargets := b.healthTargets, accessBindings := b.accessBindings,
               backupBindings := b.backupBindings, artifacts := b.artifacts)
  }

  lemma ReorderingKeepsContent(a: Request, b: Request)
    requires Reordered(a, b)
    ensures ContentOf(a) == ContentOf(b)
  {
    MapPermutation(TargetContentOf, a.runtimeTargets, b.runtimeTargets);
    MapPermutation(HealthContentOf, a.healthTargets, b.healthTargets);
    MapPermutation(BindingContentOf, a.accessBindings, b.accessBindings);
    MapPermutation(BindingContentOf, a.backupBindings, b.backupBindings);
    MapPermutation(ArtifactContentOf, a.artifacts, b.artifacts);
  }

  /** In particular, permuting the target, health, binding and artifact lists gives the identical
      seal, or none again. */
  lemma SealIgnoresListOrder(k: Rules, s1: Sorts, s2: Sorts, a: Request, b: Request)
    requires TokensAreNulFree(k) && AreSorts(s1) && AreSorts(s2) && Reordered(a, b)
    ensures Seal(k, s2, b) == Seal(k, s1, a)
  {
    ReorderingKeepsContent(a, b);
    SameContentSealsAlike(k, s1, s2, a, b);
  }

  /** A seal is accepted by validation, and sealing it again changes nothing. */
  lemma SealIsIdempotent(k: Rules, s1: Sorts, s2: Sorts, r: Request)
    requires TokensAreNulFree(k) && AreSorts(s1) && AreSorts(s2) && Seal(k, s1, r).Some?
    ensures Valid(k, s2, Seal(k, s1, r).value)
    ensures Seal(k, s2, Seal(k, s1, r).value) == Seal(k, s1, r)
  {
    var sealed := Seal(k, s1, r).value;
    ValidityIgnoresSorts(k, s1, s2, sealed);
    SealKeepsContent(k, s1, r);
    SealDependsOnContentOnly(k, s1, s2, r, sealed);
  }

  /** Validation accepts exactly the requests that sealing returns. */
  lemma ValidExactlyWhenSealed(k: Rules, s: Sorts, r: Request)
    requires TokensAreNulFree(k) && AreSorts(s)
    ensures Valid(k, s, r) <==> Seal(k, s, r) == Some(r)
  {
    if Valid(k, s, r) {
      ValidIsStrict(k, s, r);
      ValidIsPrepared(k, s, r);
    }
  }

  lemma ValidIsPrepared(k: Rules, s: Sorts, r: Request)
    requires TokensAreNulFree(k) && AreSorts(s) && Valid(k, s, r) && StrictRequest(r)
    ensures Prepared(k, s, r) == r.(artifactSetHash := "", requestDigest := "")
  {
    assert r.(apiVersion := r.apiVersion) == r;
    assert CanonicalRequest(s, r) == r;
    ReprojectIsIdentity(k, s, Access, r.accessBindings);
    ReprojectIsIdentity(k, s, Backup, r.backupBindings);
  }

  lemma ReprojectIsIdentity(k: Rules, s: Sorts, side: Side, l: seq<Binding>)
    requires forall b :: b in l ==> BindingOK(k, s, side, b)
    ensures Map((b: Binding) => Reproject(k, s, side, b), l) == l
  {
    forall i | 0 <= i < |l| ensures Reproject(k, s, side, l[i]) == l[i] {
      assert l[i] in l;
    }
  }
}
