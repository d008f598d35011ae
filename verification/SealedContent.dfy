/** What a seal keeps of its input, field by field, and the defaults it fills in. */
module SealedContent {
  import opened Wrappers
  import opened Ordering
  import opened ExecutionModel
  import opened Canonical
  import opened Sealing
  import opened SealOrder

  /** Every scalar of the request but the two digests. */
  predicate SameAuthorityFields(a: Request, b: Request) {
    && a.executor == b.executor && a.planHash == b.planHash && a.manifestHash == b.manifestHash
    && a.generationReceiptHash == b.generationReceiptHash && a.requirementsHash == b.requirementsHash
    && a.evidenceBundleHash == b.evidenceBundleHash && a.authorizationTime == b.authorizationTime
  }

  /** A sealed request carries the authority it was given, in the one supported version. */
  lemma SealKeepsAuthority(k: Rules, s: Sorts, input: Request)
    requires AreSorts(s) && Seal(k, s, input).Some?
    ensures SameAuthorityFields(Seal(k, s, input).value, input)
    ensures Seal(k, s, input).value.apiVersion == API_VERSION && input.apiVersion in {"", API_VERSION}
  {
    SealKeepsContent(k, s, input);
    var r := Seal(k, s, input).value;
    SameShell(r, input);
  }

  lemma SameShell(a: Request, b: Request)
    requires ContentOf(a) == ContentOf(b)
    ensures SameAuthorityFields(a, b)
    ensures a.apiVersion == API_VERSION ==> b.apiVersion in {"", API_VERSION}
    ensures multiset(Map(ArtifactContentOf, a.artifacts)) == multiset(Map(ArtifactContentOf, b.artifacts))
  {
    var x, y := ContentOf(a).shell, ContentOf(b).shell;
    assert x.apiVersion == y.apiVersion && x.executor == y.executor && x.planHash == y.planHash;
  }

  /** The sealed artifact `b` is the input's `a`; only an absent class was derived from the owner, and the references
      were sorted. */
  predicate SealedAs(a: Artifact, b: Artifact) {
    && b == a.(executionClass := b.executionClass, siteRefs := b.siteRefs, nodeRefs := b.nodeRefs)
    && multiset(b.siteRefs) == multiset(a.siteRefs) && multiset(b.nodeRefs) == multiset(a.nodeRefs)
    && (a.executionClass != "" ==> b.executionClass == a.executionClass)
    && (a.executionClass == "" ==>
        b.executionClass == if a.ownerKind == "plan" then "plan" else "executable")
  }

  lemma SameArtifactContent(a: Artifact, b: Artifact)
    requires ArtifactContentOf(a) == ArtifactContentOf(b) && b.executionClass != ""
    ensures SealedAs(a, b)
  {
    var x := ArtifactContentOf(a).shell;
    assert x == b.(siteRefs := [], nodeRefs := []);
    assert b == x.(siteRefs := b.siteRefs, nodeRefs := b.nodeRefs);
  }

  lemma MappedMember<A, B>(f: A -> B, x: seq<A>, y: seq<A>, a: A) returns (b: A)
    requires multiset(Map(f, x)) == multiset(Map(f, y)) && a in x
    ensures b in y && f(b) == f(a)
  {
    var i :| 0 <= i < |x| && x[i] == a;
    assert Map(f, x)[i] == f(a);
    assert f(a) in multiset(Map(f, x));
    assert f(a) in Map(f, y);
    var j :| 0 <= j < |y| && Map(f, y)[j] == f(a);
    b := y[j];
  }

  /** No artifact is lost or made up. */
  lemma SealKeepsArtifacts(k: Rules, s: Sorts, input: Request)
    requires AreSorts(s) && Seal(k, s, input).Some?
    ensures |Seal(k, s, input).value.artifacts| == |input.artifacts|
    ensures forall a :: a in input.artifacts ==> exists b :: b in Seal(k, s, input).value.artifacts && SealedAs(a, b)
    ensures forall b :: b in Seal(k, s, input).value.artifacts ==> exists a :: a in input.artifacts && SealedAs(a, b)
  {
    SealKeepsContent(k, s, input);
    var r := Seal(k, s, input).value;
    SameShell(r, input);
    ValidClasses(k, s, r);
    ArtifactsCorrespond(input.artifacts, r.artifacts);
  }

  lemma ValidClasses(k: Rules, s: Sorts, r: Request)
    requires Valid(k, s, r)
    ensures forall b :: b in r.artifacts ==> b.executionClass != ""
  {
    forall b | b in r.artifacts ensures b.executionClass != "" { assert ArtifactOK(k, b); }
  }

  lemma ArtifactsCorrespond(x: seq<Artifact>, y: seq<Artifact>)
    requires multiset(Map(ArtifactContentOf, x)) == multiset(Map(ArtifactContentOf, y))
    requires forall b :: b in y ==> b.executionClass != ""
    ensures |x| == |y|
    ensures forall a :: a in x ==> exists b :: b in y && SealedAs(a, b)
    ensures forall b :: b in y ==> exists a :: a in x && SealedAs(a, b)
  {
    assert |x| == |multiset(Map(ArtifactContentOf, x))| && |y| == |multiset(Map(ArtifactContentOf, y))|;
    forall a | a in x ensures exists b :: b in y && SealedAs(a, b) {
      var b := MappedMember(ArtifactContentOf, x, y, a);
      SameArtifactContent(a, b);
    }
    forall b | b in y ensures exists a :: a in x && SealedAs(a, b) {
      var a := MappedMember(ArtifactContentOf, y, x, b);
      SameArtifactContent(a, b);
    }
  }
}
