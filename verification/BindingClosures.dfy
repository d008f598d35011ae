/** Closure of the external bindings: every binding is owned once and covers its target exactly. */
module BindingClosures {
  import opened Ordering
  import opened Searching
  import opened ExecutionModel
  import opened Closures

  function Claims(t: RuntimeTarget, side: Side): BindingClaims {
    match side case Access => t.access case Backup => t.backup
  }

  function AllBindingRefs(targets: seq<RuntimeTarget>, side: Side): seq<string> {
    if targets == [] then []
    else AllBindingRefs(targets[..|targets| - 1], side) + Claims(targets[|targets| - 1], side).refs
  }

  function CapabilityRef(c: Capability): string { c.ref }

  /** The binding belongs to the target: site, owner, capability and nodes all lie inside it. */
  predicate BindingFits(t: RuntimeTarget, claims: BindingClaims, b: Binding) {
    && b.siteRef in t.siteRefs && b.runtimeRequirementId == t.requirementId && b.contractOwnerRef == t.providerRef
    && Capability(b.capabilityRef, b.capabilityContractHash) in claims.capabilities
    && forall n :: n in b.targetNodeRefs ==> n in t.nodeRefs
  }

  ghost predicate Names(refs: seq<string>, bindings: seq<Binding>, b: Binding) {
    b in bindings && b.id in refs
  }

  /** The bindings named by a target are all present, fit it, and together cover exactly its nodes and capabilities. */
  ghost predicate Covered(t: RuntimeTarget, claims: BindingClaims, bindings: seq<Binding>) {
    && |t.siteRefs| == 1
    && (forall ref :: ref in claims.refs ==> exists b :: b in bindings && b.id == ref && BindingFits(t, claims, b))
    && (forall n :: n in t.nodeRefs <==> exists b :: Names(claims.refs, bindings, b) && n in b.targetNodeRefs)
    && (forall c :: c in Map(CapabilityRef, claims.capabilities) <==>
        exists b :: Names(claims.refs, bindings, b) && b.capabilityRef == c)
  }

  ghost predicate BoundTargetsCovered(targets: seq<RuntimeTarget>, bindings: seq<Binding>, side: Side) {
    forall t :: t in targets && Claims(t, side).refs != [] ==> Covered(t, Claims(t, side), bindings)
  }

  /** Bindings are partitioned among the targets, and each bound target is covered exactly. */
  ghost predicate BindingsPartitioned(targets: seq<RuntimeTarget>, bindings: seq<Binding>, side: Side) {
    && BoundTargetsCovered(targets, bindings, side)
    && multiset(AllBindingRefs(targets, side)) == multiset(Map(BindingId, bindings))
  }

  /** What the list checks have established for a target when the closure is checked. */
  ghost predicate Listed(t: RuntimeTarget, side: Side) {
    && StrictlySorted(t.siteRefs, Less) && StrictlySorted(t.nodeRefs, Less)
    && StrictlySorted(Claims(t, side).capabilities, CapabilityLess)
  }

  lemma StrictIsDistinct(s: seq<string>)
    requires StrictlySorted(s, Less)
    ensures Distinct(s)
  {
    forall i, j | 0 <= i < j < |s| ensures s[i] != s[j] { LessIrreflexive(s[j]); }
  }

  lemma CapabilitiesAreDistinct(s: seq<Capability>)
    requires StrictlySorted(s, CapabilityLess)
    ensures Distinct(Map(CapabilityRef, s))
  {
    forall i, j | 0 <= i < j < |s| ensures s[i].ref != s[j].ref {
      assert CapabilityLess(s[i], s[j]);
      LessIrreflexive(s[j].ref);
    }
  }

  function Itself(x: string): string { x }

  lemma MapItself(s: seq<string>)
    ensures Map(Itself, s) == s
  {
  }

  /** Binary search, as `sort.SearchStrings` followed by an equality test; membership on a sorted list. */
  method ContainsSorted(values: seq<string>, candidate: string) returns (found: bool)
    ensures found <==> FoundIn(values, candidate)
    ensures StrictlySorted(values, Less) ==> (found <==> candidate in values)
  {
    MapItself(values);
    var index := SearchBy(values, Itself, candidate);
    if StrictlySorted(values, Less) { SortedSearchFinds(values, candidate); }
    return index < |values| && values[index] == candidate;
  }

  /** The capability a search by reference finds is this one. */
  predicate CapabilityFound(values: seq<Capability>, c: Capability) {
    var i := Search(Map(CapabilityRef, values), c.ref);
    i < |values| && values[i] == c
  }

  method ContainsCapability(values: seq<Capability>, ref: string, contractHash: string) returns (found: bool)
    ensures found <==> CapabilityFound(values, Capability(ref, contractHash))
  {
    var index := SearchBy(values, CapabilityRef, ref);
    return index < |values| && values[index].ref == ref && values[index].contractHash == contractHash;
  }

  lemma SortedCapabilityFound(values: seq<Capability>, c: Capability)
    requires StrictlySorted(values, CapabilityLess)
    ensures CapabilityFound(values, c) <==> c in values
  {
    var refs := Map(CapabilityRef, values);
    forall i, j | 0 <= i < j < |refs| ensures Less(refs[i], refs[j]) { assert CapabilityLess(values[i], values[j]); }
    if c in values {
      var i: nat :| i < |values| && values[i] == c;
      SearchFinds(refs, c.ref, i);
    }
  }

  /** Equal length and inclusion; for distinct values that is set equality. */
  method ExactCoveredRefs(values: seq<string>, covered: set<string>) returns (ok: bool)
    ensures ok <==> |values| == |covered| && forall v :: v in values ==> v in covered
    ensures Distinct(values) ==> (ok <==> (set v | v in values) == covered)
  {
    if |values| != |covered| {
      if Distinct(values) { DistinctSize(values); }
      return false;
    }
    for i := 0 to |values|
      invariant forall j :: 0 <= j < i ==> values[j] in covered
    {
      if values[i] !in covered { return false; }
    }
    if Distinct(values) {
      DistinctSize(values);
      SubsetOfSameSize((set v | v in values), covered);
    }
    return true;
  }

  lemma SubsetOfSameSize(a: set<string>, b: set<string>)
    requires a <= b && |a| == |b|
    ensures a == b
  {
    assert |b - a| == |b| - |a|;
  }

  ghost predicate AvailableBindings(available: map<string, Binding>, bindings: seq<Binding>) {
    && (forall b :: b in bindings ==> b.id in available && available[b.id] == b)
    && (forall id :: id in available ==> available[id] in bindings && available[id].id == id)
  }

  predicate Agrees(nodeSites: map<string, string>, node: string, site: string) {
    node in nodeSites ==> nodeSites[node] == site
  }

  /** Only access bindings note where they place their nodes. */
  function Noted(nodeSites: map<string, string>, side: Side, nodes: seq<string>, site: string): map<string, string> {
    if side.Backup? then nodeSites else nodeSites + map n | n in nodes :: site
  }

  function NoteOne(nodeSites: map<string, string>, side: Side, node: string, site: string): map<string, string> {
    if side.Backup? then nodeSites else nodeSites[node := site]
  }

  function NodeSet(nodes: seq<string>): set<string> { set n | n in nodes }

  /** A node of the target, not already placed on another site. */
  predicate NodeFits(t: RuntimeTarget, side: Side, nodeSites: map<string, string>, node: string, site: string) {
    FoundIn(t.nodeRefs, node) && (side.Access? ==> Agrees(nodeSites, node, site))
  }

  ghost predicate NodesFit(t: RuntimeTarget, side: Side, nodeSites: map<string, string>, nodes: seq<string>,
                           site: string) {
    forall n :: n in nodes ==> NodeFits(t, side, nodeSites, n, site)
  }

  /** The nodes fit; they have been covered, and noted where the side notes them. */
  ghost predicate Gathered(t: RuntimeTarget, nodes: seq<string>, site: string, side: Side, covered: set<string>,
                           nodeSites: map<string, string>, covered': set<string>, nodeSites': map<string, string>) {
    && NodesFit(t, side, nodeSites, nodes, site)
    && covered' == covered + NodeSet(nodes) && nodeSites' == Noted(nodeSites, side, nodes, site)
  }

  lemma GatherNothing(t: RuntimeTarget, site: string, side: Side, covered: set<string>, nodeSites: map<string, string>)
    ensures Gathered(t, [], site, side, covered, nodeSites, covered, nodeSites)
  {
  }

  lemma NotedNext(nodeSites: map<string, string>, side: Side, nodes: seq<string>, node: string, site: string)
    ensures Noted(nodeSites, side, nodes + [node], site) ==
      NoteOne(Noted(nodeSites, side, nodes, site), side, node, site)
  {
    var all, next := Noted(nodeSites, side, nodes + [node], site), Noted(nodeSites, side, nodes, site);
    forall n ensures n in nodes + [node] <==> n in nodes || n == node {}
    if side.Access? {
      assert forall n :: n in all <==> n in next[node := site];
      assert forall n :: n in all ==> all[n] == next[node := site][n];
    }
  }

  /** Looking a node up among the noted ones is looking it up among those noted before. */
  lemma NotedAgrees(nodeSites: map<string, string>, nodes: seq<string>, node: string, site: string)
    ensures Agrees(Noted(nodeSites, Access, nodes, site), node, site) <==>
      node in nodes || Agrees(nodeSites, node, site)
  {
  }

  lemma GatherNext(t: RuntimeTarget, nodes: seq<string>, node: string, site: string, side: Side, covered: set<string>,
                   nodeSites: map<string, string>, covered': set<string>, nodeSites': map<string, string>)
    requires Gathered(t, nodes, site, side, covered, nodeSites, covered', nodeSites')
    ensures NodeFits(t, side, nodeSites', node, site) <==> NodeFits(t, side, nodeSites, node, site)
    ensures NodeFits(t, side, nodeSites, node, site) ==>
      Gathered(t, nodes + [node], site, side, covered, nodeSites, covered' + {node},
        NoteOne(nodeSites', side, node, site))
  {
    NotedNext(nodeSites, side, nodes, node, site);
    NotedAgrees(nodeSites, nodes, node, site);
    assert node in nodes ==> NodeFits(t, side, nodeSites, node, site);
    assert NodeSet(nodes + [node]) == NodeSet(nodes) + {node};
  }

  method ValidateNode(t: RuntimeTarget, node: string, site: string, side: Side,
                      coveredNodes: set<string>, nodeSites: map<string, string>)
    returns (ok: bool, coveredNodes': set<string>, nodeSites': map<string, string>)
    ensures ok <==> NodeFits(t, side, nodeSites, node, site)
    ensures ok ==> coveredNodes' == coveredNodes + {node} && nodeSites' == NoteOne(nodeSites, side, node, site)
  {
    coveredNodes', nodeSites' := coveredNodes, nodeSites;
    var inside := ContainsSorted(t.nodeRefs, node);
    if !inside { return false, coveredNodes', nodeSites'; }
    if side.Access? {
      if node in nodeSites && nodeSites[node] != site { return false, coveredNodes', nodeSites'; }
      nodeSites' := nodeSites[node := site];
    }
    coveredNodes' := coveredNodes + {node};
    return true, coveredNodes', nodeSites';
  }

  /** One step of the loop over the nodes of a binding. */
  method GatherNode(t: RuntimeTarget, nodes: seq<string>, i: nat, site: string, side: Side, covered: set<string>,
                    sites: map<string, string>, ghost coveredNodes: set<string>, ghost nodeSites: map<string, string>)
    returns (ok: bool, covered': set<string>, sites': map<string, string>)
    requires i < |nodes|
    requires Gathered(t, nodes[..i], site, side, coveredNodes, nodeSites, covered, sites)
    ensures ok ==> Gathered(t, nodes[..i + 1], site, side, coveredNodes, nodeSites, covered', sites')
    ensures !ok ==> !NodesFit(t, side, nodeSites, nodes, site)
  {
    GatherNext(t, nodes[..i], nodes[i], site, side, coveredNodes, nodeSites, covered, sites);
    assert nodes[..i + 1] == nodes[..i] + [nodes[i]];
    ok, covered', sites' := ValidateNode(t, nodes[i], site, side, covered, sites);
    assert nodes[i] in nodes;
  }

  method ValidateNodes(t: RuntimeTarget, nodes: seq<string>, site: string, side: Side,
                       coveredNodes: set<string>, nodeSites: map<string, string>)
    returns (ok: bool, coveredNodes': set<string>, nodeSites': map<string, string>)
    ensures ok ==> Gathered(t, nodes, site, side, coveredNodes, nodeSites, coveredNodes', nodeSites')
    ensures !ok ==> !NodesFit(t, side, nodeSites, nodes, site)
  {
    coveredNodes', nodeSites' := coveredNodes, nodeSites;
    GatherNothing(t, site, side, coveredNodes, nodeSites);
    assert nodes[..0] == [] && nodes[..|nodes|] == nodes;
    for i := 0 to |nodes|
      invariant Gathered(t, nodes[..i], site, side, coveredNodes, nodeSites, coveredNodes', nodeSites')
    {
      ok, coveredNodes', nodeSites' :=
        GatherNode(t, nodes, i, site, side, coveredNodes', nodeSites', coveredNodes, nodeSites);
      if !ok { return; }
    }
    ok := true;
  }

  /** The scalar checks and the searches for site and capability. */
  predicate Owned(t: RuntimeTarget, claims: BindingClaims, b: Binding) {
    && FoundIn(t.siteRefs, b.siteRef) && b.runtimeRequirementId == t.requirementId
    && b.contractOwnerRef == t.providerRef
    && CapabilityFound(claims.capabilities, Capability(b.capabilityRef, b.capabilityContractHash))
  }

  /** `nodeSites` is kept for access bindings only; with one site per bound target it can never disagree. */
  method ValidateBindingTarget(t: RuntimeTarget, claims: BindingClaims, b: Binding, side: Side,
                               coveredNodes: set<string>, nodeSites: map<string, string>)
    returns (ok: bool, coveredNodes': set<string>, nodeSites': map<string, string>)
    ensures ok <==> Owned(t, claims, b) && NodesFit(t, side, nodeSites, b.targetNodeRefs, b.siteRef)
    ensures ok ==> coveredNodes' == coveredNodes + NodeSet(b.targetNodeRefs)
    ensures ok ==> nodeSites' == Noted(nodeSites, side, b.targetNodeRefs, b.siteRef)
  {
    coveredNodes', nodeSites' := coveredNodes, nodeSites;
    var siteInside := ContainsSorted(t.siteRefs, b.siteRef);
    if !siteInside { return false, coveredNodes', nodeSites'; }
    if b.runtimeRequirementId != t.requirementId || b.contractOwnerRef != t.providerRef {
      return false, coveredNodes', nodeSites';
    }
    var claimed := ContainsCapability(claims.capabilities, b.capabilityRef, b.capabilityContractHash);
    if !claimed { return false, coveredNodes', nodeSites'; }
    ok, coveredNodes', nodeSites' := ValidateNodes(t, b.targetNodeRefs, b.siteRef, side, coveredNodes, nodeSites);
  }

  /** Every noted node lies on the one site of the target. */
  predicate NotedInside(t: RuntimeTarget, nodeSites: map<string, string>) {
    |t.siteRefs| == 1 && forall n :: n in nodeSites ==> nodeSites[n] in t.siteRefs
  }

  lemma ListedNodesFit(t: RuntimeTarget, side: Side, b: Binding, nodeSites: map<string, string>)
    requires StrictlySorted(t.nodeRefs, Less) && NotedInside(t, nodeSites) && b.siteRef in t.siteRefs
    ensures NodesFit(t, side, nodeSites, b.targetNodeRefs, b.siteRef) <==>
      forall n :: n in b.targetNodeRefs ==> n in t.nodeRefs
  {
    forall n ensures NodeFits(t, side, nodeSites, n, b.siteRef) <==> n in t.nodeRefs {
      SortedSearchFinds(t.nodeRefs, n);
    }
  }

  /** On a listed target the searches decide exactly whether the binding belongs to it. */
  lemma ListedBindingFits(t: RuntimeTarget, side: Side, b: Binding, nodeSites: map<string, string>)
    requires Listed(t, side) && NotedInside(t, nodeSites)
    ensures Owned(t, Claims(t, side), b) && NodesFit(t, side, nodeSites, b.targetNodeRefs, b.siteRef) <==>
      BindingFits(t, Claims(t, side), b)
  {
    SortedSearchFinds(t.siteRefs, b.siteRef);
    SortedCapabilityFound(Claims(t, side).capabilities, Capability(b.capabilityRef, b.capabilityContractHash));
    if b.siteRef in t.siteRefs { ListedNodesFit(t, side, b, nodeSites); }
  }

  function NodesOf(named: seq<Binding>): set<string> {
    set b, n | b in named && n in b.targetNodeRefs :: n
  }

  function CapabilitiesOf(named: seq<Binding>): set<string> {
    set b | b in named :: b.capabilityRef
  }

  /** `named` are the fitting bindings the references resolve to. */
  ghost predicate Resolves(t: RuntimeTarget, claims: BindingClaims, refs: seq<string>, bindings: seq<Binding>,
                           named: seq<Binding>) {
    |named| == |refs| &&
      forall j :: 0 <= j < |refs| ==> named[j] in bindings && named[j].id == refs[j] && BindingFits(t, claims, named[j])
  }

  /** What the loop over the references of a target has collected after `i` of them. */
  datatype Collected = Collected(counts: map<string, nat>, nodes: set<string>, capabilities: set<string>,
                                 sites: set<string>,
                                 nodeSites: map<string, string>)

  ghost predicate Collects(t: RuntimeTarget, claims: BindingClaims, i: nat, bindings: seq<Binding>, seen: seq<string>,
                           named: seq<Binding>, x: Collected)
    requires i <= |claims.refs|
  {
    && Tallies(x.counts, seen + claims.refs[..i])
    && NotedInside(t, x.nodeSites) && Resolves(t, claims, claims.refs[..i], bindings, named)
    && x.sites == (if i == 0 then {} else {t.siteRefs[0]})
    && x.nodes == NodesOf(named) && x.capabilities == CapabilitiesOf(named)
  }

  /** The collection after a binding that belongs to the target. */
  function Extended(x: Collected, side: Side, b: Binding): Collected {
    Collected(x.counts[b.id := Count(x.counts, b.id) + 1], x.nodes + NodeSet(b.targetNodeRefs),
      x.capabilities + {b.capabilityRef}, x.sites + {b.siteRef},
      Noted(x.nodeSites, side, b.targetNodeRefs, b.siteRef))
  }

  lemma CollectNext(t: RuntimeTarget, side: Side, i: nat, available: map<string, Binding>, x: Collected,
                    bindings: seq<Binding>, seen: seq<string>, named: seq<Binding>)
    requires AvailableBindings(available, bindings)
    requires var refs := Claims(t, side).refs;
      i < |refs| && refs[i] in available && BindingFits(t, Claims(t, side), available[refs[i]])
    requires Collects(t, Claims(t, side), i, bindings, seen, named, x)
    ensures var b := available[Claims(t, side).refs[i]];
      Collects(t, Claims(t, side), i + 1, bindings, seen, named + [b], Extended(x, side, b))
  {
    var claims := Claims(t, side);
    var b := available[claims.refs[i]];
    ResolveOne(t, claims, i, bindings, available, named);
    TallyNext(x.counts, seen, claims.refs, i);
    NotedStaysInside(t, side, b, x.nodeSites);
  }

  lemma MisfitIsNotCovered(t: RuntimeTarget, claims: BindingClaims, i: nat, available: map<string, Binding>,
                           bindings: seq<Binding>)
    requires AvailableBindings(available, bindings) && i < |claims.refs|
    requires claims.refs[i] !in available || !BindingFits(t, claims, available[claims.refs[i]])
    ensures !Covered(t, claims, bindings)
  {
    assert claims.refs[i] in claims.refs;
  }

  /** Resolves one reference: none or a misfit is refused, otherwise the binding is collected. */
  method ResolveOneRef(t: RuntimeTarget, claims: BindingClaims, side: Side, ref: string,
                       available: map<string, Binding>, x: Collected)
    returns (ok: bool, y: Collected)
    requires Listed(t, side) && claims == Claims(t, side) && NotedInside(t, x.nodeSites)
    requires forall id :: id in available ==> available[id].id == id
    ensures ok <==> ref in available && BindingFits(t, claims, available[ref])
    ensures ok ==> y == Extended(x, side, available[ref])
  {
    if ref !in available { return false, x; }
    var b := available[ref];
    ListedBindingFits(t, side, b, x.nodeSites);
    var nodes, nodeSites;
    ok, nodes, nodeSites := ValidateBindingTarget(t, claims, b, side, x.nodes, x.nodeSites);
    y := Collected(x.counts[ref := Count(x.counts, ref) + 1], nodes, x.capabilities + {b.capabilityRef},
      x.sites + {b.siteRef}, nodeSites);
  }

  method ResolveNext(t: RuntimeTarget, side: Side, i: nat, available: map<string, Binding>, x: Collected,
                     ghost bindings: seq<Binding>, ghost seen: seq<string>, ghost named: seq<Binding>)
    returns (ok: bool, y: Collected, ghost more: seq<Binding>)
    requires AvailableBindings(available, bindings) && Listed(t, side) && i < |Claims(t, side).refs|
    requires Collects(t, Claims(t, side), i, bindings, seen, named, x)
    ensures ok ==> Collects(t, Claims(t, side), i + 1, bindings, seen, more, y)
    ensures !ok ==> !Covered(t, Claims(t, side), bindings)
  {
    more := named;
    ok, y := ResolveOneRef(t, Claims(t, side), side, Claims(t, side).refs[i], available, x);
    if ok {
      CollectNext(t, side, i, available, x, bindings, seen, named);
      more := named + [available[Claims(t, side).refs[i]]];
    } else {
      MisfitIsNotCovered(t, Claims(t, side), i, available, bindings);
    }
  }

  lemma NotedStaysInside(t: RuntimeTarget, side: Side, b: Binding, nodeSites: map<string, string>)
    requires NotedInside(t, nodeSites) && b.siteRef in t.siteRefs
    ensures NotedInside(t, Noted(nodeSites, side, b.targetNodeRefs, b.siteRef)) && b.siteRef == t.siteRefs[0]
  {
  }

  method ResolveBindings(t: RuntimeTarget, side: Side, available: map<string, Binding>, counts: map<string, nat>,
                         ghost bindings: seq<Binding>, ghost seen: seq<string>)
    returns (ok: bool, x: Collected, ghost named: seq<Binding>)
    requires AvailableBindings(available, bindings) && Tallies(counts, seen) && |t.siteRefs| == 1
    requires Listed(t, side)
    ensures ok ==> Collects(t, Claims(t, side), |Claims(t, side).refs|, bindings, seen, named, x)
    ensures !ok ==> !Covered(t, Claims(t, side), bindings)
  {
    var claims := Claims(t, side);
    x, named := Collected(counts, {}, {}, {}, map[]), [];
    assert seen + claims.refs[..0] == seen;
    for i := 0 to |claims.refs|
      invariant Collects(t, claims, i, bindings, seen, named, x)
    {
      ok, x, named := ResolveNext(t, side, i, available, x, bindings, seen, named);
      if !ok { return; }
    }
    ok := true;
  }

  lemma ResolveOne(t: RuntimeTarget, claims: BindingClaims, i: nat, bindings: seq<Binding>,
                   available: map<string, Binding>, named: seq<Binding>)
    requires i < |claims.refs| && claims.refs[i] in available && AvailableBindings(available, bindings)
    requires Resolves(t, claims, claims.refs[..i], bindings, named)
    ensures var b := available[claims.refs[i]];
            && (BindingFits(t, claims, b) ==> Resolves(t, claims, claims.refs[..i + 1], bindings, named + [b]))
            && (!BindingFits(t, claims, b) ==> !Covered(t, claims, bindings))
            && NodesOf(named + [b]) == NodesOf(named) + NodeSet(b.targetNodeRefs)
            && CapabilitiesOf(named + [b]) == CapabilitiesOf(named) + {b.capabilityRef}
  {
    var b := available[claims.refs[i]];
    assert claims.refs[i] in claims.refs && claims.refs[..i + 1] == claims.refs[..i] + [claims.refs[i]];
    forall n ensures n in NodesOf(named + [b]) <==> n in NodesOf(named) || n in b.targetNodeRefs {}
  }

  method ValidateTargetBindings(t: RuntimeTarget, side: Side, available: map<string, Binding>, counts: map<string, nat>,
                                ghost bindings: seq<Binding>, ghost seen: seq<string>)
    returns (ok: bool, counts': map<string, nat>)
    requires AvailableBindings(available, bindings) && Tallies(counts, seen) && Listed(t, side)
    requires Claims(t, side).refs != []
    ensures ok <==> Covered(t, Claims(t, side), bindings)
    ensures ok ==> Tallies(counts', seen + Claims(t, side).refs)
  {
    var claims := Claims(t, side);
    if |t.siteRefs| != 1 { return false, counts; }
    var x;
    ghost var named;
    ok, x, named := ResolveBindings(t, side, available, counts, bindings, seen);
    counts' := x.counts;
    if !ok { return; }
    assert claims.refs[..|claims.refs|] == claims.refs;
    StrictIsDistinct(t.siteRefs);
    StrictIsDistinct(t.nodeRefs);
    CapabilitiesAreDistinct(claims.capabilities);
    CoverageMeaning(t, claims, bindings, named);
    var siteOK := ExactCoveredRefs(t.siteRefs, x.sites);
    var nodeOK := ExactCoveredRefs(t.nodeRefs, x.nodes);
    var capabilityOK := ExactCoveredRefs(Map(CapabilityRef, claims.capabilities), x.capabilities);
    ok := siteOK && nodeOK && capabilityOK;
  }

  lemma CoverageMeaning(t: RuntimeTarget, claims: BindingClaims, bindings: seq<Binding>, named: seq<Binding>)
    requires |t.siteRefs| == 1 && Resolves(t, claims, claims.refs, bindings, named)
    requires forall a, b :: a in bindings && b in bindings && a.id == b.id ==> a == b
    ensures Covered(t, claims, bindings) <==>
            (set n | n in t.nodeRefs) == NodesOf(named) &&
            (set c | c in Map(CapabilityRef, claims.capabilities)) == CapabilitiesOf(named)
  {
    NamedAreResolved(t, claims, bindings, named);
    CoveredNodes(claims, bindings, named, t.nodeRefs);
    CoveredCapabilities(claims, bindings, named);
  }

  lemma NamedAreResolved(t: RuntimeTarget, claims: BindingClaims, bindings: seq<Binding>, named: seq<Binding>)
    requires Resolves(t, claims, claims.refs, bindings, named)
    requires forall a, b :: a in bindings && b in bindings && a.id == b.id ==> a == b
    ensures forall b :: Names(claims.refs, bindings, b) <==> b in named
    ensures forall ref :: ref in claims.refs ==> exists b :: b in bindings && b.id == ref && BindingFits(t, claims, b)
  {
    forall b ensures Names(claims.refs, bindings, b) <==> b in named {
      if Names(claims.refs, bindings, b) {
        var j :| 0 <= j < |claims.refs| && claims.refs[j] == b.id;
        assert named[j] == b;
      }
    }
  }

  lemma CoveredNodes(claims: BindingClaims, bindings: seq<Binding>, named: seq<Binding>, refs: seq<string>)
    requires forall b :: Names(claims.refs, bindings, b) <==> b in named
    ensures (set n | n in refs) == NodesOf(named) <==>
      forall n :: n in refs <==> exists b :: Names(claims.refs, bindings, b) && n in b.targetNodeRefs
  {
    assert forall n :: n in NodesOf(named) <==> exists b :: Names(claims.refs, bindings, b) && n in b.targetNodeRefs;
    var nodes := set n | n in refs;
    assert forall n :: n in nodes <==> n in refs;
  }

  lemma CoveredCapabilities(claims: BindingClaims, bindings: seq<Binding>, named: seq<Binding>)
    requires forall b :: Names(claims.refs, bindings, b) <==> b in named
    ensures (set c | c in Map(CapabilityRef, claims.capabilities)) == CapabilitiesOf(named) <==>
      forall c :: c in Map(CapabilityRef, claims.capabilities) <==>
        exists b :: Names(claims.refs, bindings, b) && b.capabilityRef == c
  {
    assert forall c :: c in CapabilitiesOf(named) <==>
      exists b :: Names(claims.refs, bindings, b) && b.capabilityRef == c;
    var refs := Map(CapabilityRef, claims.capabilities);
    var capabilities := set c | c in refs;
    assert forall c :: c in capabilities <==> c in refs;
  }

  method IndexBindings(bindings: seq<Binding>) returns (available: map<string, Binding>)
    requires Distinct(Map(BindingId, bindings))
    ensures AvailableBindings(available, bindings)
  {
    available := map[];
    for i := 0 to |bindings|
      invariant AvailableBindings(available, bindings[..i])
    {
      var b := bindings[i];
      assert bindings[..i + 1] == bindings[..i] + [b];
      forall c | c in bindings[..i] ensures c.id != b.id {
        var j :| 0 <= j < i && bindings[j] == c;
        assert Map(BindingId, bindings)[j] != Map(BindingId, bindings)[i];
      }
      available := available[b.id := b];
    }
    assert bindings[..|bindings|] == bindings;
  }

  method CountedOnce(bindings: seq<Binding>, counts: map<string, nat>) returns (ok: bool)
    ensures ok <==> forall b :: b in bindings ==> Count(counts, b.id) == 1
  {
    for i := 0 to |bindings|
      invariant forall j :: 0 <= j < i ==> Count(counts, bindings[j].id) == 1
    {
      if Count(counts, bindings[i].id) != 1 {
        assert bindings[i] in bindings;
        return false;
      }
    }
    return true;
  }

  /** The closure of one side accepts exactly when the bindings are partitioned among the targets they cover. */
  method ValidateBindingClosure(targets: seq<RuntimeTarget>, bindings: seq<Binding>, side: Side) returns (ok: bool)
    requires Distinct(Map(BindingId, bindings))
    requires forall t :: t in targets ==> Listed(t, side)
    ensures ok <==> BindingsPartitioned(targets, bindings, side)
  {
    var available := IndexBindings(bindings);
    var counts: map<string, nat> := map[];
    for i := 0 to |targets|
      invariant Tallies(counts, AllBindingRefs(targets[..i], side))
      invariant BoundTargetsCovered(targets[..i], bindings, side)
    {
      var t := targets[i];
      assert t in targets && targets[..i + 1] == targets[..i] + [t] && targets[..i + 1][..i] == targets[..i];
      ghost var seen := AllBindingRefs(targets[..i], side);
      if |Claims(t, side).refs| == 0 {
        assert seen + Claims(t, side).refs == seen;
        continue;
      }
      ok, counts := ValidateTargetBindings(t, side, available, counts, bindings, seen);
      if !ok { return; }
    }
    assert targets[..|targets|] == targets;
    ok := CountedOnce(bindings, counts);
    TalliesMultiplicity(counts, AllBindingRefs(targets, side));
    SingleCounts(targets, bindings, side);
  }

  lemma {:induction false} AllBindingRefsMembers(targets: seq<RuntimeTarget>, side: Side)
    ensures forall ref :: ref in AllBindingRefs(targets, side) <==>
      exists t :: t in targets && ref in Claims(t, side).refs
  {
    if targets != [] {
      var n := |targets| - 1;
      AllBindingRefsMembers(targets[..n], side);
      assert targets == targets[..n] + [targets[n]];
    }
  }

  /** Being referenced once each, over present references, is a permutation of the ids. */
  lemma SingleCounts(targets: seq<RuntimeTarget>, bindings: seq<Binding>, side: Side)
    requires Distinct(Map(BindingId, bindings)) && BoundTargetsCovered(targets, bindings, side)
    ensures multiset(AllBindingRefs(targets, side)) == multiset(Map(BindingId, bindings)) <==>
            forall b :: b in bindings ==> multiset(AllBindingRefs(targets, side))[b.id] == 1
  {
    var refs, ids := AllBindingRefs(targets, side), Map(BindingId, bindings);
    DistinctCounts(ids);
    AllBindingRefsMembers(targets, side);
    forall b | b in bindings ensures b.id in ids {
      var j :| 0 <= j < |bindings| && bindings[j] == b;
      assert ids[j] == b.id;
    }
    forall ref | ref in refs ensures ref in ids {
      var t :| t in targets && ref in Claims(t, side).refs;
      assert Covered(t, Claims(t, side), bindings);
    }
    if forall b :: b in bindings ==> multiset(refs)[b.id] == 1 {
      forall id ensures multiset(refs)[id] == multiset(ids)[id] {
        if id in ids {
          var j :| 0 <= j < |ids| && ids[j] == id;
          assert bindings[j] in bindings;
        }
      }
    }
  }
}
