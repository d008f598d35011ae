/** The Advanced change set: a diff of two rendered artifact lists that must be an exact, invertible patch. */
module ChangeSet {
  import opened Wrappers
  import opened Ordering

  const MAX_CHANGES: nat := 20_000

  datatype Metadata = Metadata(id: string, kind: string, format: string, mode: string,
                               moduleId: string, unitId: string, instanceId: string, outputRef: string)
  datatype Artifact = Artifact(path: string, bytes: string, metadata: Metadata)

  datatype Status = Added | Removed | Modified
  datatype Change = Change(path: string, status: Status, before: string, after: string, metadataChanged: bool)

  predicate LowerHex(c: char) { '0' <= c <= '9' || 'a' <= c <= 'f' }

  predicate HashShaped(s: string) {
    |s| == 71 && s[..7] == "sha256:" && forall i :: 7 <= i < 71 ==> LowerHex(s[i])
  }

  /** All that is assumed of SHA-256: what it returns has the shape of a digest. */
  ghost predicate IsDigest(digest: string -> string) {
    forall a :: HashShaped(digest(a))
  }

  type Index = map<string, Artifact>

  /** The list is a valid rendering: bounded, portable paths, no path twice. */
  ghost predicate Listable(artifacts: seq<Artifact>, portable: string -> bool) {
    && 1 <= |artifacts| <= MAX_CHANGES
    && (forall a :: a in artifacts ==> portable(a.path))
    && (forall i, j :: 0 <= i < j < |artifacts| ==> artifacts[i].path != artifacts[j].path)
  }

  /** The list as a map from path to artifact. */
  function ByPath(artifacts: seq<Artifact>): Index {
    if artifacts == [] then map[]
    else
      var last := artifacts[|artifacts| - 1];
      ByPath(artifacts[..|artifacts| - 1])[last.path := last]
  }

  lemma {:induction false} ByPathMembers(artifacts: seq<Artifact>)
    ensures forall p :: p in ByPath(artifacts) ==> ByPath(artifacts)[p] in artifacts && ByPath(artifacts)[p].path == p
    ensures forall a :: a in artifacts ==> a.path in ByPath(artifacts)
  {
    if artifacts != [] {
      var n := |artifacts| - 1;
      ByPathMembers(artifacts[..n]);
      assert artifacts == artifacts[..n] + [artifacts[n]];
    }
  }

  /** The index knows a path exactly when an earlier artifact has it. */
  lemma NextPath(artifacts: seq<Artifact>, i: nat)
    requires i < |artifacts|
    ensures artifacts[i].path in ByPath(artifacts[..i]) <==>
      exists j :: 0 <= j < i && artifacts[j].path == artifacts[i].path
    ensures ByPath(artifacts[..i + 1]) == ByPath(artifacts[..i])[artifacts[i].path := artifacts[i]]
  {
    var done := artifacts[..i];
    assert artifacts[..i + 1][..i] == done;
    ByPathMembers(done);
    if artifacts[i].path in ByPath(done) {
      var j :| 0 <= j < i && done[j] == ByPath(done)[artifacts[i].path];
      assert artifacts[j] == done[j];
    }
    forall j | 0 <= j < i ensures artifacts[j].path in ByPath(done) { assert done[j] in done; }
  }

  method ArtifactsByPath(artifacts: seq<Artifact>, portable: string -> bool) returns (result: Option<Index>)
    ensures result == if Listable(artifacts, portable) then Some(ByPath(artifacts)) else None
  {
    if |artifacts| == 0 || |artifacts| > MAX_CHANGES { return None; }
    var index: Index := map[];
    for i := 0 to |artifacts|
      invariant index == ByPath(artifacts[..i])
      invariant forall j :: 0 <= j < i ==> portable(artifacts[j].path)
      invariant forall j, k :: 0 <= j < k < i ==> artifacts[j].path != artifacts[k].path
    {
      var artifact := artifacts[i];
      NextPath(artifacts, i);
      if !portable(artifact.path) {
        assert artifact in artifacts;
        return None;
      }
      if artifact.path in index { return None; }
      index := index[artifact.path := artifact];
    }
    assert artifacts[..|artifacts|] == artifacts;
    return Some(index);
  }

  predicate Agree(a: Artifact, b: Artifact) {
    a.bytes == b.bytes && a.metadata == b.metadata
  }

  /** The transition of one path, if any. */
  function Transition(before: Index, after: Index, digest: string -> string, p: string): Option<Change> {
    if p !in before && p !in after then None
    else if p !in before then Some(Change(p, Added, "", digest(after[p].bytes), false))
    else if p !in after then Some(Change(p, Removed, digest(before[p].bytes), "", false))
    else if Agree(before[p], after[p]) then None
    else Some(Change(p, Modified, digest(before[p].bytes), digest(after[p].bytes),
      before[p].metadata != after[p].metadata))
  }

  function Path(c: Change): string { c.path }

  /** The list holds exactly the transitions of all paths, sorted by path. */
  ghost predicate IsDiff(changes: seq<Change>, before: Index, after: Index, digest: string -> string) {
    && StrictlySorted(Map(Path, changes), Less)
    && (forall c :: c in changes ==> Transition(before, after, digest, c.path) == Some(c))
    && (forall p :: (p in before || p in after) && Transition(before, after, digest, p).Some?
                    ==> Transition(before, after, digest, p).value in changes)
  }

  /** The merge over the sorted union of paths, up to `i` of them. */
  ghost predicate DiffPrefix(changes: seq<Change>, paths: seq<string>, i: nat, before: Index, after: Index,
                             digest: string -> string)
    requires i <= |paths|
  {
    && StrictlySorted(Map(Path, changes), Less)
    && (forall c :: c in changes ==> c.path in paths[..i] && Transition(before, after, digest, c.path) == Some(c))
    && (forall j :: 0 <= j < i && Transition(before, after, digest, paths[j]).Some?
          ==> Transition(before, after, digest, paths[j]).value in changes)
  }

  lemma ExtendDiff(changes: seq<Change>, paths: seq<string>, i: nat, before: Index, after: Index,
                   digest: string -> string)
    requires i < |paths| && StrictlySorted(paths, Less)
    requires DiffPrefix(changes, paths, i, before, after, digest)
    ensures var t := Transition(before, after, digest, paths[i]);
            DiffPrefix(if t.Some? then changes + [t.value] else changes, paths, i + 1, before, after, digest)
  {
    var t := Transition(before, after, digest, paths[i]);
    assert paths[..i + 1] == paths[..i] + [paths[i]];
    if t.Some? {
      var extended := Map(Path, changes + [t.value]);
      assert extended == Map(Path, changes) + [paths[i]];
      forall k | 0 <= k < |changes| ensures Less(extended[k], paths[i]) {
        assert changes[k] in changes;
        var j :| 0 <= j < i && paths[..i][j] == changes[k].path;
        assert Less(paths[j], paths[i]);
      }
    }
  }

  method DiffArtifacts(baseline: seq<Artifact>, candidate: seq<Artifact>, portable: string -> bool,
                       digest: string -> string)
    returns (result: Option<seq<Change>>)
    ensures result.Some? ==>
      Listable(baseline, portable) && Listable(candidate, portable) && |result.value| <= MAX_CHANGES
    ensures result.Some? ==> IsDiff(result.value, ByPath(baseline), ByPath(candidate), digest)
    ensures result.None? && Listable(baseline, portable) && Listable(candidate, portable)
            ==> exists changes ::
              IsDiff(changes, ByPath(baseline), ByPath(candidate), digest) && |changes| > MAX_CHANGES
  {
    var left := ArtifactsByPath(baseline, portable);
    if left.None? { return None; }
    var right := ArtifactsByPath(candidate, portable);
    if right.None? { return None; }
    var before, after := left.value, right.value;
    var paths := SortedKeys(before.Keys + after.Keys);
    SortedKeysAreSorted(before.Keys + after.Keys);
    var changes: seq<Change> := [];
    for i := 0 to |paths|
      invariant DiffPrefix(changes, paths, i, before, after, digest)
    {
      var p := paths[i];
      assert p in paths && p in before.Keys + after.Keys;
      ExtendDiff(changes, paths, i, before, after, digest);
      if p !in before {
        changes := changes + [Change(p, Added, "", digest(after[p].bytes), false)];
      } else if p !in after {
        changes := changes + [Change(p, Removed, digest(before[p].bytes), "", false)];
      } else {
        var metadataChanged := before[p].metadata != after[p].metadata;
        if !metadataChanged && before[p].bytes == after[p].bytes { continue; }
        changes := changes + [Change(p, Modified, digest(before[p].bytes), digest(after[p].bytes), metadataChanged)];
      }
    }
    PrefixIsDiff(changes, paths, before, after, digest);
    if |changes| > MAX_CHANGES { return None; }
    return Some(changes);
  }

  lemma PrefixIsDiff(changes: seq<Change>, paths: seq<string>, before: Index, after: Index, digest: string -> string)
    requires DiffPrefix(changes, paths, |paths|, before, after, digest)
    requires forall p :: p in paths <==> p in before.Keys + after.Keys
    ensures IsDiff(changes, before, after, digest)
  {
    forall p | (p in before || p in after) && Transition(before, after, digest, p).Some?
      ensures Transition(before, after, digest, p).value in changes
    {
      assert p in before.Keys + after.Keys && p in paths;
      var j :| 0 <= j < |paths| && paths[j] == p;
    }
  }

  /** Permuting a rendering leaves its index, hence its diff, unchanged. */
  lemma DiffIgnoresListOrder(baseline: seq<Artifact>, candidate: seq<Artifact>, permutedBaseline: seq<Artifact>,
                             permutedCandidate: seq<Artifact>, portable: string -> bool, digest: string -> string,
                             a: seq<Change>, b: seq<Change>)
    requires Listable(baseline, portable) && Listable(candidate, portable)
    requires multiset(baseline) == multiset(permutedBaseline) && multiset(candidate) == multiset(permutedCandidate)
    requires IsDiff(a, ByPath(baseline), ByPath(candidate), digest)
    requires IsDiff(b, ByPath(permutedBaseline), ByPath(permutedCandidate), digest)
    ensures a == b
  {
    IndexIgnoresOrder(baseline, permutedBaseline, portable);
    IndexIgnoresOrder(candidate, permutedCandidate, portable);
    DiffIsDetermined(a, b, ByPath(baseline), ByPath(candidate), digest);
  }

  /** Two indexes have one diff. */
  lemma DiffIsDetermined(a: seq<Change>, b: seq<Change>, before: Index, after: Index, digest: string -> string)
    requires IsDiff(a, before, after, digest) && IsDiff(b, before, after, digest)
    ensures a == b
  {
    SameMembersSameList(a, b);
  }

  lemma IndexIgnoresOrder(artifacts: seq<Artifact>, permuted: seq<Artifact>, portable: string -> bool)
    requires Listable(artifacts, portable) && multiset(artifacts) == multiset(permuted)
    ensures ByPath(artifacts) == ByPath(permuted)
  {
    PermutationMembers(artifacts, permuted);
    ByPathMembers(artifacts);
    ByPathMembers(permuted);
    var x, y := ByPath(artifacts), ByPath(permuted);
    forall p ensures p in x <==> p in y {
      if p in x { assert x[p] in permuted; }
      if p in y { assert y[p] in artifacts; }
    }
    forall p | p in x && p in y ensures x[p] == y[p] { PathsIdentify(artifacts, portable, x[p], y[p]); }
  }

  lemma PathsIdentify(artifacts: seq<Artifact>, portable: string -> bool, a: Artifact, b: Artifact)
    requires Listable(artifacts, portable) && a in artifacts && b in artifacts && a.path == b.path
    ensures a == b
  {
    var i :| 0 <= i < |artifacts| && artifacts[i] == a;
    var j :| 0 <= j < |artifacts| && artifacts[j] == b;
  }

  lemma {:induction false} SameMembersSameList(a: seq<Change>, b: seq<Change>)
    requires StrictlySorted(Map(Path, a), Less) && StrictlySorted(Map(Path, b), Less)
    requires forall c :: c in a <==> c in b
    ensures a == b
  {
    assert a != [] ==> a[0] in b;
    assert b != [] ==> b[0] in a;
    if a != [] {
      var k :| 0 <= k < |b| && b[k] == a[0];
      var m :| 0 <= m < |a| && a[m] == b[0];
      assert a[0] == b[0] by {
        assert k > 0 ==> Less(Map(Path, b)[0], Map(Path, b)[k]);
        assert m > 0 ==> Less(Map(Path, a)[0], Map(Path, a)[m]);
        if k > 0 && m > 0 { LessAsymmetric(a[0].path, b[0].path); }
      }
      Uniform(a);
      Uniform(b);
      SameMembersSameList(a[1..], b[1..]);
      assert a == [a[0]] + a[1..] && b == [b[0]] + b[1..];
    }
  }

  lemma Uniform(a: seq<Change>)
    requires |a| > 0 && StrictlySorted(Map(Path, a), Less)
    ensures StrictlySorted(Map(Path, a[1..]), Less)
    ensures forall c :: c in a[1..] <==> c in a && c != a[0]
  {
    forall i, j | 0 <= i < j < |a| - 1 ensures Less(Map(Path, a[1..])[i], Map(Path, a[1..])[j]) {
      assert Less(Map(Path, a)[i + 1], Map(Path, a)[j + 1]);
    }
    forall i | 0 < i < |a| ensures a[i] != a[0] {
      assert Less(Map(Path, a)[0], Map(Path, a)[i]);
      LessIrreflexive(a[0].path);
    }
  }

  function Digests(index: Index, digest: string -> string): map<string, string> {
    map p | p in index :: digest(index[p].bytes)
  }

  function Look(m: map<string, string>, p: string): Option<string> {
    if p in m then Some(m[p]) else None
  }

  /** Applies a change only where its recorded old state holds. */
  function ApplyChange(state: map<string, string>, c: Change): Option<map<string, string>> {
    match c.status
    case Added => if c.path in state then None else Some(state[c.path := c.after])
    case Removed => if Look(state, c.path) != Some(c.before) then None else Some(state - {c.path})
    case Modified => if Look(state, c.path) != Some(c.before) then None else Some(state[c.path := c.after])
  }

  function ApplyChanges(state: map<string, string>, changes: seq<Change>): Option<map<string, string>> {
    if changes == [] then Some(state)
    else
      var last := |changes| - 1;
      var earlier := ApplyChanges(state, changes[..last]);
      if earlier.None? then None else ApplyChange(earlier.value, changes[last])
  }

  /** After `k` changes exactly their paths have moved to the candidate. */
  ghost predicate Mixed(state: map<string, string>, moved: seq<string>, source: map<string, string>,
                        target: map<string, string>) {
    forall p :: Look(state, p) == Look(if p in moved then target else source, p)
  }

  /** The change records the exact state of its path on both sides. */
  predicate Records(c: Change, source: map<string, string>, target: map<string, string>) {
    match c.status
    case Added => Look(source, c.path) == None && Look(target, c.path) == Some(c.after)
    case Removed => Look(source, c.path) == Some(c.before) && Look(target, c.path) == None
    case Modified => Look(source, c.path) == Some(c.before) && Look(target, c.path) == Some(c.after)
  }

  lemma {:induction false} PatchPrefix(changes: seq<Change>, source: map<string, string>, target: map<string, string>)
    requires StrictlySorted(Map(Path, changes), Less)
    requires forall c :: c in changes ==> Records(c, source, target)
    ensures ApplyChanges(source, changes).Some?
    ensures Mixed(ApplyChanges(source, changes).value, Map(Path, changes), source, target)
  {
    if changes != [] {
      var k := |changes| - 1;
      var c, moved := changes[k], Map(Path, changes[..k]);
      assert Map(Path, changes) == moved + [c.path] && c in changes;
      assert forall i :: 0 <= i < k ==> changes[..k][i] in changes;
      assert StrictlySorted(moved, Less) by {
        forall i, j | 0 <= i < j < k ensures Less(moved[i], moved[j]) {
          assert Less(Map(Path, changes)[i], Map(Path, changes)[j]);
        }
      }
      PatchPrefix(changes[..k], source, target);
      NextPathIsFresh(changes, k);
      assert moved == Map(Path, changes)[..k];
      PatchStep(ApplyChanges(source, changes[..k]).value, moved, c, source, target);
    }
  }

  lemma PatchStep(state: map<string, string>, moved: seq<string>, c: Change, source: map<string, string>,
                  target: map<string, string>)
    requires Mixed(state, moved, source, target) && c.path !in moved && Records(c, source, target)
    ensures ApplyChange(state, c).Some?
    ensures Mixed(ApplyChange(state, c).value, moved + [c.path], source, target)
  {
    assert Look(state, c.path) == Look(source, c.path);
  }

  lemma NextPathIsFresh(changes: seq<Change>, k: nat)
    requires k < |changes| && StrictlySorted(Map(Path, changes), Less)
    ensures changes[k].path !in Map(Path, changes)[..k]
  {
    var paths := Map(Path, changes);
    forall j | 0 <= j < k ensures paths[j] != paths[k] {
      assert Less(paths[j], paths[k]);
      LessIrreflexive(paths[k]);
    }
  }

  /** Applying the changes to the baseline gives exactly the candidate. */
  lemma DiffIsExactPatch(changes: seq<Change>, before: Index, after: Index, digest: string -> string)
    requires IsDiff(changes, before, after, digest)
    ensures ApplyChanges(Digests(before, digest), changes) == Some(Digests(after, digest))
  {
    forall c | c in changes ensures Records(c, Digests(before, digest), Digests(after, digest)) {
      assert Transition(before, after, digest, c.path) == Some(c);
    }
    PatchPrefix(changes, Digests(before, digest), Digests(after, digest));
    var r := ApplyChanges(Digests(before, digest), changes).value;
    forall p ensures Look(r, p) == Look(Digests(after, digest), p) {
      var t := Transition(before, after, digest, p);
      if t.Some? {
        var i :| 0 <= i < |changes| && changes[i] == t.value;
        assert Map(Path, changes)[i] == p;
      }
    }
    SameLookups(r, Digests(after, digest));
  }

  lemma SameLookups(a: map<string, string>, b: map<string, string>)
    requires forall p :: Look(a, p) == Look(b, p)
    ensures a == b
  {
    forall p ensures p in a <==> p in b { assert Look(a, p) == Look(b, p); }
    forall p | p in a ensures a[p] == b[p] { assert Look(a, p) == Look(b, p); }
  }

  function Invert(c: Change): Change {
    var status := match c.status case Added => Removed case Removed => Added case Modified => Modified;
    Change(c.path, status, c.after, c.before, c.metadataChanged)
  }

  /** Swapping the two renderings inverts every change, so the inverted list undoes the patch. */
  lemma SwappingInvertsTheDiff(changes: seq<Change>, before: Index, after: Index, digest: string -> string)
    requires IsDiff(changes, before, after, digest)
    ensures IsDiff(Map(Invert, changes), after, before, digest)
    ensures ApplyChanges(Digests(after, digest), Map(Invert, changes)) == Some(Digests(before, digest))
  {
    var inverted := Map(Invert, changes);
    assert Map(Path, inverted) == Map(Path, changes);
    forall c | c in inverted ensures Transition(after, before, digest, c.path) == Some(c) {
      var i :| 0 <= i < |changes| && inverted[i] == c;
      assert changes[i] in changes;
      InvertTransition(before, after, digest, c.path);
    }
    forall p | (p in after || p in before) && Transition(after, before, digest, p).Some?
      ensures Transition(after, before, digest, p).value in inverted
    {
      InvertTransition(before, after, digest, p);
      var i :| 0 <= i < |changes| && changes[i] == Transition(before, after, digest, p).value;
      assert inverted[i] in inverted;
    }
    DiffIsExactPatch(inverted, after, before, digest);
  }

  lemma InvertTransition(before: Index, after: Index, digest: string -> string, p: string)
    ensures var t := Transition(before, after, digest, p);
            Transition(after, before, digest, p) == if t.Some? then Some(Invert(t.value)) else None
  {
  }

  /** Path by path: a change is listed exactly where the renderings differ, with the true kind, both digests and
      whether the governed metadata differ. */
  predicate Tells(before: Index, after: Index, digest: string -> string, c: Change) {
    && (c.status == Added <==> c.path !in before) && (c.status == Removed <==> c.path !in after)
    && c.before == (if c.path in before then digest(before[c.path].bytes) else "")
    && c.after == (if c.path in after then digest(after[c.path].bytes) else "")
    && (c.metadataChanged <==>
        c.path in before && c.path in after && before[c.path].metadata != after[c.path].metadata)
  }

  lemma ListedExactlyWhereDifferent(changes: seq<Change>, before: Index, after: Index, digest: string -> string,
                                    p: string)
    requires IsDiff(changes, before, after, digest)
    ensures (exists c :: c in changes && c.path == p) <==>
      || (p in before && p !in after) || (p !in before && p in after)
      || (p in before && p in after &&
          (before[p].bytes != after[p].bytes || before[p].metadata != after[p].metadata))
    ensures forall c :: c in changes ==> Tells(before, after, digest, c)
  {
    forall c | c in changes ensures Tells(before, after, digest, c) {
      assert Transition(before, after, digest, c.path) == Some(c);
    }
    var t := Transition(before, after, digest, p);
    if t.Some? { assert t.value in changes && t.value.path == p; }
  }

  /** The diff is empty exactly when paths, bytes and governed metadata agree. */
  lemma EmptyExactlyWhenEqual(changes: seq<Change>, before: Index, after: Index, digest: string -> string)
    requires IsDiff(changes, before, after, digest)
    ensures changes == [] <==>
      before.Keys == after.Keys &&
      forall p :: p in before && p in after ==>
        before[p].bytes == after[p].bytes && before[p].metadata == after[p].metadata
  {
    if changes == [] {
      forall p | p in before || p in after ensures p in before && p in after && Agree(before[p], after[p]) {
        assert Transition(before, after, digest, p).None?;
      }
    } else {
      assert changes[0] in changes;
      assert Transition(before, after, digest, changes[0].path).Some?;
    }
  }

  predicate ChangeAccepted(c: Change, portable: string -> bool) {
    portable(c.path) &&
    match c.status
    case Added => c.before == "" && HashShaped(c.after) && !c.metadataChanged
    case Removed => HashShaped(c.before) && c.after == "" && !c.metadataChanged
    case Modified => HashShaped(c.before) && HashShaped(c.after) && (c.before != c.after || c.metadataChanged)
  }

  ghost predicate ChangesAccepted(changes: seq<Change>, portable: string -> bool) {
    && |changes| <= MAX_CHANGES
    && StrictlySorted(Map(Path, changes), Less)
    && forall c :: c in changes ==> ChangeAccepted(c, portable)
  }

  method ValidateChange(change: Change, portable: string -> bool) returns (ok: bool)
    ensures ok <==> ChangeAccepted(change, portable)
  {
    if !portable(change.path) { return false; }
    var beforeOK, afterOK := HashShaped(change.before), HashShaped(change.after);
    match change.status {
      case Added => if change.before != "" || !afterOK || change.metadataChanged { return false; }
      case Removed => if !beforeOK || change.after != "" || change.metadataChanged { return false; }
      case Modified =>
        if !beforeOK || !afterOK || (change.before == change.after && !change.metadataChanged) { return false; }
    }
    return true;
  }

  /** A missing list is refused; an empty one is not. */
  method ValidateChanges(list: Option<seq<Change>>, portable: string -> bool) returns (ok: bool)
    ensures ok <==> list.Some? && ChangesAccepted(list.value, portable)
  {
    if list.None? || |list.value| > MAX_CHANGES { return false; }
    var changes := list.value;
    for i := 0 to |changes|
      invariant forall h, j :: 0 <= h < j < i && h == j - 1 ==> Less(changes[h].path, changes[j].path)
      invariant forall j :: 0 <= j < i ==> ChangeAccepted(changes[j], portable)
    {
      var accepted := ValidateChange(changes[i], portable);
      if !accepted {
        assert changes[i] in changes;
        return false;
      }
      if i > 0 && !Less(changes[i - 1].path, changes[i].path) {
        assert Map(Path, changes)[i - 1] == changes[i - 1].path;
        return false;
      }
    }
    AdjacentStringsSorted(Map(Path, changes));
    return true;
  }

  /** The one way a diff can be refused: equal metadata, different bytes, and one digest for both. */
  predicate Collides(before: Index, after: Index, digest: string -> string, p: string) {
    p in before && p in after && before[p].metadata == after[p].metadata
    && before[p].bytes != after[p].bytes && digest(before[p].bytes) == digest(after[p].bytes)
  }

  lemma TransitionAccepted(before: Index, after: Index, portable: string -> bool, digest: string -> string, p: string)
    requires IsDigest(digest) && (p in before || p in after) && portable(p)
    ensures var t := Transition(before, after, digest, p);
            t.Some? ==> (ChangeAccepted(t.value, portable) <==> !Collides(before, after, digest, p))
    ensures Collides(before, after, digest, p) ==> Transition(before, after, digest, p).Some?
  {
    assert HashShaped(digest(if p in before then before[p].bytes else after[p].bytes));
    if p in after { assert HashShaped(digest(after[p].bytes)); }
  }

  /** A diff within the bound over portable paths passes the record validator exactly when no path collides. */
  lemma DiffPassesValidation(changes: seq<Change>, before: Index, after: Index,
                             portable: string -> bool, digest: string -> string)
    requires IsDigest(digest) && IsDiff(changes, before, after, digest) && |changes| <= MAX_CHANGES
    requires forall p :: p in before || p in after ==> portable(p)
    ensures ChangesAccepted(changes, portable) <==>
      forall p :: p in before && p in after ==> !Collides(before, after, digest, p)
  {
    forall c | c in changes
      ensures ChangeAccepted(c, portable) <==> !Collides(before, after, digest, c.path)
    {
      assert Transition(before, after, digest, c.path) == Some(c);
      TransitionAccepted(before, after, portable, digest, c.path);
    }
    forall p | p in before && p in after && Collides(before, after, digest, p)
      ensures exists c :: c in changes && c.path == p
    {
      TransitionAccepted(before, after, portable, digest, p);
      assert Transition(before, after, digest, p).value in changes;
    }
  }

  /** Such digests exist, and so do collisions: a digest that returns one value for all bytes. */
  lemma RefusedDiffExists(portable: string -> bool, left: Artifact, right: Artifact)
    requires portable(left.path) && left.path == right.path && left.metadata == right.metadata
    requires left.bytes != right.bytes
    ensures var digest := (s: string) => CONSTANT_DIGEST;
            var before, after := map[left.path := left], map[right.path := right];
            var c := Change(left.path, Modified, CONSTANT_DIGEST, CONSTANT_DIGEST, false);
            IsDigest(digest) && IsDiff([c], before, after, digest) && !ChangesAccepted([c], portable)
  {
    var digest := (s: string) => CONSTANT_DIGEST;
    var before, after := map[left.path := left], map[right.path := right];
    var c := Change(left.path, Modified, CONSTANT_DIGEST, CONSTANT_DIGEST, false);
    ConstantDigestIsShaped();
    assert Transition(before, after, digest, left.path) == Some(c);
    assert [c][0] in [c];
  }

  const CONSTANT_DIGEST: string := "sha256:" + seq(64, i => '0')

  lemma ConstantDigestIsShaped()
    ensures HashShaped(CONSTANT_DIGEST)
  {
    assert CONSTANT_DIGEST[..7] == "sha256:";
  }
}
