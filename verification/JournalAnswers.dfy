/** What the dispatcher checks of the snapshot a journal answers a step commit with. */
module JournalAnswers {
  import opened Ordering
  import opened ExecutionModel
  import opened ApplyOperation
  import opened ApplyJournal
  import opened ApplyRuns

  type Index = map<string, StepSnapshot>

  // ---- The index by request digest ----

  function DigestOf(x: StepSnapshot): string { x.requestDigest }

  /** The index of a snapshot whose digests are distinct. */
  ghost predicate Indexes(m: Index, steps: seq<StepSnapshot>) {
    && (forall i :: 0 <= i < |steps| ==> steps[i].requestDigest in m && m[steps[i].requestDigest] == steps[i])
    && (forall d :: d in m ==> exists i :: 0 <= i < |steps| && steps[i].requestDigest == d)
  }

  method IndexStepSnapshots(steps: seq<StepSnapshot>) returns (m: Index)
    ensures m.Keys == set x | x in steps :: x.requestDigest
    ensures Distinct(Map(DigestOf, steps)) ==> Indexes(m, steps)
  {
    m := map[];
    for i := 0 to |steps|
      invariant m.Keys == set x | x in steps[..i] :: x.requestDigest
      invariant Distinct(Map(DigestOf, steps)) ==> Indexes(m, steps[..i])
    {
      assert steps[..i + 1] == steps[..i] + [steps[i]];
      if Distinct(Map(DigestOf, steps)) { NewDigest(steps, i); }
      m := m[steps[i].requestDigest := steps[i]];
    }
    assert steps[..|steps|] == steps;
  }

  lemma NewDigest(steps: seq<StepSnapshot>, i: nat)
    requires i < |steps| && Distinct(Map(DigestOf, steps))
    ensures forall j :: 0 <= j < i ==> steps[j].requestDigest != steps[i].requestDigest
  {
    forall j | 0 <= j < i ensures steps[j].requestDigest != steps[i].requestDigest {
      assert Map(DigestOf, steps)[j] != Map(DigestOf, steps)[i];
    }
  }

  // ---- The expected operation state ----

  function Projected(x: StepSnapshot, d: string, c: StepCommit): StepSnapshot {
    if d == c.requestDigest then x.(state := c.state) else x
  }

  /** After the commit some indexed step is in this state. */
  ghost predicate WouldHold(previous: Index, c: StepCommit, state: StepState) {
    exists d :: d in previous && Projected(previous[d], d, c).state == state
  }

  ghost function ExpectedState(previous: Index, c: StepCommit): OperationState {
    if WouldHold(previous, c, Failed) && !WouldHold(previous, c, Pending) && !WouldHold(previous, c, Running)
    then ReconcileRequired else Active
  }

  /** The projected steps of the digests in `done`, in any order. */
  ghost predicate Projects(previous: Index, c: StepCommit, done: set<string>, projected: seq<StepSnapshot>) {
    && (forall x :: x in projected ==> exists d :: d in done && d in previous && Projected(previous[d], d, c) == x)
    && (forall d :: d in done && d in previous ==> Projected(previous[d], d, c) in projected)
  }

  lemma ProjectsNext(previous: Index, c: StepCommit, done: set<string>, projected: seq<StepSnapshot>, d: string)
    requires Projects(previous, c, done, projected) && d in previous
    ensures Projects(previous, c, done + {d}, projected + [Projected(previous[d], d, c)])
  {
  }

  lemma ProjectedHolds(previous: Index, c: StepCommit, projected: seq<StepSnapshot>, state: StepState)
    requires Projects(previous, c, previous.Keys, projected)
    ensures Holds(projected, state) <==> WouldHold(previous, c, state)
  {
    if Holds(projected, state) {
      var i :| 0 <= i < |projected| && projected[i].state == state;
      assert projected[i] in projected;
    }
  }

  method ExpectedOperationState(previous: Index, c: StepCommit) returns (state: OperationState)
    ensures state == ExpectedState(previous, c)
  {
    var projected: seq<StepSnapshot>, left := [], previous.Keys;
    while left != {}
      invariant left <= previous.Keys && Projects(previous, c, previous.Keys - left, projected)
      decreases |left|
    {
      var d :| d in left;
      ProjectsNext(previous, c, previous.Keys - left, projected, d);
      assert previous.Keys - (left - {d}) == (previous.Keys - left) + {d};
      projected, left := projected + [Projected(previous[d], d, c)], left - {d};
    }
    ProjectedHolds(previous, c, projected, Failed);
    ProjectedHolds(previous, c, projected, Pending);
    ProjectedHolds(previous, c, projected, Running);
    state := OperationStateForSteps(projected);
  }

  // ---- The check ----

  /** Another step, as it was. */
  predicate Unrelated(x: StepSnapshot, previous: Index, c: StepCommit) {
    x.stepId != c.stepId && x.requestDigest in previous && previous[x.requestDigest] == x
  }

  /** The committed step stands at `i` as committed, and each step before it as it was. */
  ghost predicate ReflectsAt(y: seq<StepSnapshot>, previous: Index, c: StepCommit, i: int) {
    0 <= i < |y| && y[i] == Recorded(c) && forall j :: 0 <= j < i ==> Unrelated(y[j], previous, c)
  }

  ghost predicate AnswerOK(k: Rules, o: Operation, y: Snapshot, previous: Index, c: StepCommit) {
    SnapshotOK(k, o, y) && y.state == ExpectedState(previous, c) && exists i :: ReflectsAt(y.steps, previous, c, i)
  }

  method ValidateCommittedSnapshot(k: Rules, o: Operation, y: Snapshot, previous: Index, c: StepCommit)
    returns (ok: bool)
    requires TokensAreNulFree(k)
    ensures ok <==> AnswerOK(k, o, y, previous, c)
  {
    ok := ValidateSnapshot(k, o, y);
    if !ok { return; }
    var expected := ExpectedOperationState(previous, c);
    if y.state != expected { return false; }
    for i := 0 to |y.steps|
      invariant forall j :: 0 <= j < i ==> Unrelated(y.steps[j], previous, c)
    {
      var x := y.steps[i];
      if x.stepId != c.stepId {
        if x.requestDigest !in previous || x != previous[x.requestDigest] { return false; }
      } else {
        if x.requestDigest != c.requestDigest || x.state != c.state || x.failure != c.failure ||
          x.receipt != c.receipt || x.result != c.result { return false; }
        assert ReflectsAt(y.steps, previous, c, i);
        return true;
      }
    }
    return false;
  }

  // ---- What the check means ----

  /** As in every accepted operation: sorted step ids, which are the request digests. */
  ghost predicate SealedIds(o: Operation) {
    IdsSorted(o) && forall i :: 0 <= i < |o.steps| ==> o.steps[i].id == o.steps[i].requestDigest
  }

  lemma SnapshotDigestsDiffer(k: Rules, o: Operation, x: Snapshot)
    requires SealedIds(o) && SnapshotOK(k, o, x)
    ensures Distinct(Map(DigestOf, x.steps))
  {
    var ids := Map(StepId, o.steps);
    forall i, j | 0 <= i < j < |x.steps| ensures x.steps[i].requestDigest != x.steps[j].requestDigest {
      assert StepSnapshotOK(k, o.steps[i], x.steps[i]) && StepSnapshotOK(k, o.steps[j], x.steps[j]);
      assert Less(ids[i], ids[j]);
      LessIrreflexive(ids[i]);
    }
  }

  /** Snapshot `x` of the operation, indexed, and a commit of its step `i`. */
  ghost predicate Awaits(k: Rules, o: Operation, x: Snapshot, previous: Index, c: StepCommit, i: nat) {
    SnapshotOK(k, o, x) && SealedIds(o) && Indexes(previous, x.steps) && Names(o, c, i)
  }

  lemma ExpectedIsDerived(k: Rules, o: Operation, x: Snapshot, previous: Index, c: StepCommit, i: nat)
    requires Awaits(k, o, x, previous, c, i)
    ensures ExpectedState(previous, c) == Committed(x, i, c).state
  {
    SnapshotDigestsDiffer(k, o, x);
    assert StepSnapshotOK(k, o.steps[i], x.steps[i]);
    forall state ensures WouldHold(previous, c, state) <==> Holds(x.steps[i := Recorded(c)], state) {
      ProjectionIsCommit(x.steps, previous, c, i, state);
    }
  }

  lemma ProjectedAt(steps: seq<StepSnapshot>, c: StepCommit, i: nat, j: nat)
    requires Distinct(Map(DigestOf, steps)) && i < |steps| && j < |steps| && steps[i].requestDigest == c.requestDigest
    ensures Projected(steps[j], steps[j].requestDigest, c).state == steps[i := Recorded(c)][j].state
  {
    if i < j { NewDigest(steps, j); }
    if j < i { NewDigest(steps, i); }
  }

  lemma ProjectionIsCommit(steps: seq<StepSnapshot>, previous: Index, c: StepCommit, i: nat, state: StepState)
    requires Indexes(previous, steps) && Distinct(Map(DigestOf, steps))
    requires i < |steps| && steps[i].requestDigest == c.requestDigest
    ensures WouldHold(previous, c, state) <==> Holds(steps[i := Recorded(c)], state)
  {
    var after := steps[i := Recorded(c)];
    if WouldHold(previous, c, state) {
      var d :| d in previous && Projected(previous[d], d, c).state == state;
      var j :| 0 <= j < |steps| && steps[j].requestDigest == d;
      ProjectedAt(steps, c, i, j);
      assert after[j].state == state;
    }
    if Holds(after, state) {
      var j :| 0 <= j < |after| && after[j].state == state;
      ProjectedAt(steps, c, i, j);
      assert steps[j].requestDigest in previous;
    }
  }

  /** The first `n` steps agree. */
  ghost predicate AgreeUpTo(a: seq<StepSnapshot>, b: seq<StepSnapshot>, n: int) {
    n <= |a| && n <= |b| && forall j :: 0 <= j < n ==> a[j] == b[j]
  }

  lemma ReflectionMeans(k: Rules, o: Operation, x: Snapshot, y: Snapshot, previous: Index, c: StepCommit, i: nat)
    requires Awaits(k, o, x, previous, c, i) && SnapshotOK(k, o, y)
    ensures (exists h :: ReflectsAt(y.steps, previous, c, h)) <==>
      AgreeUpTo(y.steps, Committed(x, i, c).steps, i + 1)
  {
    NamedIsFound(o, c);
    if h :| ReflectsAt(y.steps, previous, c, h) { ReflectedAgrees(k, o, x, y, previous, c, i, h); }
    if AgreeUpTo(y.steps, Committed(x, i, c).steps, i + 1) { AgreedReflects(k, o, x, y, previous, c, i); }
  }

  lemma ReflectedAgrees(k: Rules, o: Operation, x: Snapshot, y: Snapshot, previous: Index, c: StepCommit, i: nat,
                        h: int)
    requires Awaits(k, o, x, previous, c, i) && SnapshotOK(k, o, y) && ReflectsAt(y.steps, previous, c, h)
    ensures AgreeUpTo(y.steps, Committed(x, i, c).steps, i + 1)
  {
    NamedIsFound(o, c);
    assert StepSnapshotOK(k, o.steps[h], y.steps[h]);
    assert Names(o, c, h);
    forall j | 0 <= j < i ensures y.steps[j] == x.steps[j] {
      assert StepSnapshotOK(k, o.steps[j], y.steps[j]) && StepSnapshotOK(k, o.steps[j], x.steps[j]);
    }
  }

  lemma AgreedReflects(k: Rules, o: Operation, x: Snapshot, y: Snapshot, previous: Index, c: StepCommit, i: nat)
    requires Awaits(k, o, x, previous, c, i) && SnapshotOK(k, o, y)
    requires AgreeUpTo(y.steps, Committed(x, i, c).steps, i + 1)
    ensures ReflectsAt(y.steps, previous, c, i)
  {
    var ids := Map(StepId, o.steps);
    LessIrreflexive(c.stepId);
    forall j | 0 <= j < i ensures Unrelated(y.steps[j], previous, c) {
      assert StepSnapshotOK(k, o.steps[j], y.steps[j]);
      assert Less(ids[j], ids[i]);
      assert y.steps[j] == Committed(x, i, c).steps[j] == x.steps[j];
    }
    assert y.steps[i] == Committed(x, i, c).steps[i] == Recorded(c);
  }

  /** The check accepts exactly the valid snapshots in the derived state that agree with the commit up to its step. */
  lemma AnswerMeans(k: Rules, o: Operation, x: Snapshot, y: Snapshot, previous: Index, c: StepCommit, i: nat)
    requires Awaits(k, o, x, previous, c, i)
    ensures AnswerOK(k, o, y, previous, c) <==>
      && SnapshotOK(k, o, y) && y.state == Committed(x, i, c).state
      && AgreeUpTo(y.steps, Committed(x, i, c).steps, i + 1)
  {
    ExpectedIsDerived(k, o, x, previous, c, i);
    if SnapshotOK(k, o, y) { ReflectionMeans(k, o, x, y, previous, c, i); }
  }

  /** A journal that keeps the rules is believed. */
  lemma HonestAnswerPasses(k: Rules, o: Operation, fence: string, x: Snapshot, y: Snapshot, previous: Index,
                           c: StepCommit, i: nat)
    requires Awaits(k, o, x, previous, c, i) && Accepts(k, o, fence, x, Commit(c), y)
    ensures AnswerOK(k, o, y, previous, c)
  {
    NamedIsFound(o, c);
    AnswerMeans(k, o, x, y, previous, c, i);
  }

  /** For the last step the check admits no other answer. */
  lemma LastAnswerIsExact(k: Rules, o: Operation, x: Snapshot, y: Snapshot, previous: Index, c: StepCommit, i: nat)
    requires Awaits(k, o, x, previous, c, i) && i == |o.steps| - 1 && AnswerOK(k, o, y, previous, c)
    ensures y == Committed(x, i, c)
  {
    AnswerMeans(k, o, x, y, previous, c, i);
    assert y.steps == Committed(x, i, c).steps;
  }

  /** For an earlier one it does: the loop ends at the committed step, so a pending step after it may have been set
      running. */
  lemma LaterStepMayMove(k: Rules, o: Operation, x: Snapshot, previous: Index, c: StepCommit, i: nat, j: nat)
    requires Awaits(k, o, x, previous, c, i) && i < j < |o.steps|
    requires var y := Committed(x, i, c); SnapshotOK(k, o, y) && y.state == Active && y.steps[j].state == Pending
    ensures var y := Committed(x, i, c);
      AnswerOK(k, o, y.(steps := y.steps[j := y.steps[j].(state := Running)]), previous, c)
  {
    var y := Committed(x, i, c);
    var z := y.(steps := y.steps[j := y.steps[j].(state := Running)]);
    assert StepSnapshotOK(k, o.steps[j], y.steps[j]);
    forall h | 0 <= h < |z.steps| ensures StepSnapshotOK(k, o.steps[h], z.steps[h]) {
      assert StepSnapshotOK(k, o.steps[h], y.steps[h]);
    }
    assert z.steps[j].state == Running;
    assert StateFits(Active, z.steps);
    AnswerMeans(k, o, x, z, previous, c, i);
  }
}
