/** What the digests bind: barring a collision of the hash on the values at hand, equal digests mean equal content. */
module DigestBinding {
  import opened Wrappers
  import opened Ordering
  import opened ExecutionModel
  import opened Canonical
  import opened Sealing
  import opened SealOrder
  import opened Invocation
  import opened ApplyOperation

  /** The hash tells these two values apart. */
  predicate TellsApart<A(==)>(hash: A -> string, x: A, y: A) { hash(x) == hash(y) ==> x == y }

  function Undigested(r: Request): Request { r.(requestDigest := "") }

  lemma SameButDigest(a: Request, b: Request)
    requires Undigested(a) == Undigested(b) && a.requestDigest == b.requestDigest
    ensures a == b
  {
    assert a == Undigested(a).(requestDigest := a.requestDigest);
    assert b == Undigested(b).(requestDigest := b.requestDigest);
  }

  /** Two valid requests have the same request digest exactly when they are one request. */
  lemma RequestDigestIdentifies(k: Rules, s1: Sorts, s2: Sorts, a: Request, b: Request)
    requires Valid(k, s1, a) && Valid(k, s2, b) && TellsApart(k.hashRequest, Undigested(a), Undigested(b))
    ensures a.requestDigest == b.requestDigest <==> a == b
  {
    if a.requestDigest == b.requestDigest { SameButDigest(a, b); }
  }

  lemma SameContentIsSameRequest(k: Rules, s1: Sorts, s2: Sorts, a: Request, b: Request)
    requires TokensAreNulFree(k) && AreSorts(s1) && AreSorts(s2) && Valid(k, s1, a) && Valid(k, s2, b)
    ensures ContentOf(a) == ContentOf(b) <==> a == b
  {
    ValidExactlyWhenSealed(k, s1, a);
    ValidExactlyWhenSealed(k, s2, b);
    if ContentOf(a) == ContentOf(b) { SameContentSealsAlike(k, s1, s2, a, b); }
  }

  /** Two requests that seal get the same digest exactly when they have the same unordered content. */
  lemma SealDigestBindsContent(k: Rules, s1: Sorts, s2: Sorts, r1: Request, r2: Request)
    requires TokensAreNulFree(k) && AreSorts(s1) && AreSorts(s2) && Seal(k, s1, r1).Some? && Seal(k, s2, r2).Some?
    requires TellsApart(k.hashRequest, Undigested(Seal(k, s1, r1).value), Undigested(Seal(k, s2, r2).value))
    ensures Seal(k, s1, r1).value.requestDigest == Seal(k, s2, r2).value.requestDigest <==>
      ContentOf(r1) == ContentOf(r2)
  {
    var a, b := Seal(k, s1, r1).value, Seal(k, s2, r2).value;
    RequestDigestIdentifies(k, s1, s2, a, b);
    SealDependsOnContentOnly(k, s1, s2, r1, r2);
  }

  // ---- Artifacts ----

  function Identities(l: seq<Artifact>): seq<Artifact> { Map((a: Artifact) => a.(content := ""), l) }

  /** The artifact set hash covers every artifact but its content. */
  lemma ArtifactSetHashIdentifies(k: Rules, s1: Sorts, s2: Sorts, a: Request, b: Request)
    requires TokensAreNulFree(k) && AreSorts(s1) && AreSorts(s2) && Valid(k, s1, a) && Valid(k, s2, b)
    requires TellsApart(k.hashArtifacts, Identities(a.artifacts), Identities(b.artifacts))
    ensures a.artifactSetHash == b.artifactSetHash <==> Identities(a.artifacts) == Identities(b.artifacts)
  {
    HashesIdentities(k, s1, a);
    HashesIdentities(k, s2, b);
  }

  lemma HashOfIdentities(k: Rules, s: Sorts, l: seq<Artifact>, hash: string)
    requires AreSorts(s) && StrictlySorted(l, ArtifactLess) && forall a :: a in l ==> StrictArtifact(a)
    requires ArtifactSetHash(k, s, l) == Some(hash)
    ensures hash == k.hashArtifacts(Identities(l)) && forall a :: a in l ==> k.hashContent(a.content) == a.digest
  {
    StrictArtifactSetHash(k, s, l);
    assert Map(WithoutContent, l) == Identities(l);
    forall a | a in l ensures k.hashContent(a.content) == a.digest { assert ArtifactOK(k, a); }
  }

  lemma HashesIdentities(k: Rules, s: Sorts, r: Request)
    requires TokensAreNulFree(k) && AreSorts(s) && Valid(k, s, r)
    ensures r.artifactSetHash == k.hashArtifacts(Identities(r.artifacts))
    ensures forall a :: a in r.artifacts ==> k.hashContent(a.content) == a.digest
  {
    ValidIsStrict(k, s, r);
    HashOfIdentities(k, s, r.artifacts, r.artifactSetHash);
  }

  lemma SameIdentitiesSameArtifacts(k: Rules, a: seq<Artifact>, b: seq<Artifact>)
    requires Identities(a) == Identities(b)
    requires forall x :: x in a || x in b ==> k.hashContent(x.content) == x.digest
    requires forall x, y :: x in a && y in b ==> TellsApart(k.hashContent, x.content, y.content)
    ensures a == b
  {
    assert |Identities(a)| == |a| && |Identities(b)| == |b|;
    forall i | 0 <= i < |a| ensures a[i] == b[i] {
      assert Identities(a)[i] == Identities(b)[i];
      assert a[i] in a && b[i] in b && TellsApart(k.hashContent, a[i].content, b[i].content);
      assert a[i] == Identities(a)[i].(content := a[i].content) && b[i] == Identities(b)[i].(content := b[i].content);
    }
  }

  /** The content is bound by the digest of the artifact, so together the hashes bind the whole artifacts. */
  lemma ArtifactHashesBindContent(k: Rules, s1: Sorts, s2: Sorts, a: Request, b: Request)
    requires TokensAreNulFree(k) && AreSorts(s1) && AreSorts(s2) && Valid(k, s1, a) && Valid(k, s2, b)
    requires TellsApart(k.hashArtifacts, Identities(a.artifacts), Identities(b.artifacts))
    requires forall x, y :: x in a.artifacts && y in b.artifacts ==> TellsApart(k.hashContent, x.content, y.content)
    ensures a.artifactSetHash == b.artifactSetHash <==> a.artifacts == b.artifacts
  {
    HashesIdentities(k, s1, a);
    HashesIdentities(k, s2, b);
    if a.artifactSetHash == b.artifactSetHash { SameIdentitiesSameArtifacts(k, a.artifacts, b.artifacts); }
  }

  // ---- Bindings ----

  /** Two well-formed bindings of a side have the same projection hash exactly when they project the same content. */
  lemma ProjectionHashIdentifies(k: Rules, s1: Sorts, s2: Sorts, side: Side, x: Binding, y: Binding)
    requires AreSorts(s1) && AreSorts(s2) && BindingOK(k, s1, side, x) && BindingOK(k, s2, side, y)
    requires TellsApart((b: Binding) => k.hashBinding(side, b), x.(projectionHash := ""), y.(projectionHash := ""))
    ensures x.projectionHash == y.projectionHash <==> BindingContentOf(x) == BindingContentOf(y)
  {
    RefListStrict(k, x.targetNodeRefs, 1, MAX_REFS);
    RefListStrict(k, y.targetNodeRefs, 1, MAX_REFS);
    StrictProjection(k, s1, side, x);
    StrictProjection(k, s2, side, y);
    var a, b := x.(projectionHash := ""), y.(projectionHash := "");
    if BindingContentOf(x) == BindingContentOf(y) {
      forall i, j | 0 <= i < j < |b.targetNodeRefs| ensures !Less(b.targetNodeRefs[j], b.targetNodeRefs[i]) {
        LessAsymmetric(b.targetNodeRefs[i], b.targetNodeRefs[j]);
      }
      BindingsAgree(a, b);
    }
  }

  // ---- Results ----

  /** Two valid results have the same digest exactly when they are one result. */
  lemma ResultDigestIdentifies(k: Rules, x: Result, y: Result)
    requires ResultOK(k, x) && ResultOK(k, y)
    requires TellsApart(k.hashResult, x.(resultDigest := ""), y.(resultDigest := ""))
    ensures x.resultDigest == y.resultDigest <==> x == y
  {
    assert x == x.(resultDigest := "").(resultDigest := x.resultDigest);
    assert y == y.(resultDigest := "").(resultDigest := y.resultDigest);
  }

  /** A result bound to a request with other content never proves the step of this one. */
  lemma ForeignResultIsRefused(k: Rules, s1: Sorts, s2: Sorts, t: StepSorts, a: Request, b: Request, mode: string,
                               o: Outcome)
    requires TokensAreNulFree(k) && AreSorts(s1) && AreSorts(s2) && Valid(k, s1, a) && Valid(k, s2, b)
    requires TellsApart(k.hashRequest, Undigested(a), Undigested(b)) && ContentOf(a) != ContentOf(b)
    ensures !Proves(k, StepOf(t, a, mode), ResultOf(k, b, o)) && StepOf(t, a, mode).id != StepOf(t, b, mode).id
  {
    RequestDigestIdentifies(k, s1, s2, a, b);
    SameContentIsSameRequest(k, s1, s2, a, b);
  }
}
