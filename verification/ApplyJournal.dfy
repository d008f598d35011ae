/** The records of an apply journal and the validators every journal and its caller share. */
module ApplyJournal {
  import opened Wrappers
  import opened Ordering
  import opened Searching
  import opened ExecutionModel
  import opened ApplyOperation
  import opened ApplyCoverage

  datatype StepState = Pending | Running | Succeeded | Failed | Compensated
  datatype OperationState = Active | ReconcileRequired | Completed | Undone
  datatype Disposition = Acquired | Resume | Replay | InProgress | Conflict

  datatype StepSnapshot = StepSnapshot(stepId: string, requestDigest: string, state: StepState,
                                       result: Option<Result>, failure: string, receipt: string)
  datatype Snapshot = Snapshot(operationId: string, state: OperationState, steps: seq<StepSnapshot>)
  datatype Reservation = Reservation(disposition: Disposition, fence: string, snapshot: Option<Snapshot>)
  datatype StepCommit = StepCommit(operationId: string, fence: string, stepId: string, requestDigest: string,
                                   expected: StepState, state: StepState, result: Option<Result>, failure: string,
                                   receipt: string)
  datatype Finalization = Finalization(operationId: string, fence: string, expected: OperationState,
                                       state: OperationState)

  predicate FailureCode(code: string) {
    code == "executor-failed" || code == "cancelled" || code == "verification-failed"
  }

  predicate Alphanumeric(c: char) { 'A' <= c <= 'Z' || 'a' <= c <= 'z' || '0' <= c <= '9' }

  /** The opaque fence token: 16 to 256 characters of the token alphabet. */
  predicate Fence(s: string) {
    && 16 <= |s| <= 256 && Alphanumeric(s[0])
    && forall i :: 0 <= i < |s| ==> Alphanumeric(s[i]) || s[i] in "._:/-"
  }

  predicate StepTransition(from: StepState, to: StepState) {
    || (from == Pending && to == Running)
    || (from == Running && (to == Succeeded || to == Failed))
    || (from == Failed && to == Running)
    || (from == Succeeded && to == Compensated)
  }

  predicate OperationTransition(from: OperationState, to: OperationState) {
    || (from == Active && (to == Completed || to == ReconcileRequired))
    || (from == ReconcileRequired && (to == Completed || to == Undone))
    || ((from == Completed || from == Undone) && from == to)
  }

  /** The evidence a step carries is exactly the evidence its state calls for. */
  ghost predicate StepStateOK(k: Rules, step: Step, state: StepState, result: Option<Result>, failure: string,
                              receipt: string) {
    match state
    case Pending => result == None && failure == "" && receipt == ""
    case Running => result == None && failure == "" && receipt == ""
    case Succeeded => result.Some? && failure == "" && receipt == "" && Proves(k, step, result.value)
    case Compensated =>
      step.compensation == MODE_EXPLICIT && result.Some? && failure == "" && k.digest(receipt) &&
        Proves(k, step, result.value)
    case Failed => result == None && FailureCode(failure) && receipt == ""
  }

  ghost predicate StepSnapshotOK(k: Rules, step: Step, x: StepSnapshot) {
    x.stepId == step.id && x.requestDigest == step.requestDigest &&
      StepStateOK(k, step, x.state, x.result, x.failure, x.receipt)
  }

  predicate Holds(steps: seq<StepSnapshot>, state: StepState) {
    exists i :: 0 <= i < |steps| && steps[i].state == state
  }

  predicate StateFits(state: OperationState, steps: seq<StepSnapshot>) {
    match state
    case Active =>
      !Holds(steps, Compensated) && (Holds(steps, Failed) ==> Holds(steps, Pending) || Holds(steps, Running))
    case ReconcileRequired => Holds(steps, Failed) && !Holds(steps, Running)
    case Completed => forall i :: 0 <= i < |steps| ==> steps[i].state == Succeeded
    case Undone =>
      Holds(steps, Compensated) &&
        forall i :: 0 <= i < |steps| ==> steps[i].state == Compensated || steps[i].state == Failed
  }

  /** The operation state a journal must report for a step set: a failure is terminal once nothing
      is left to attempt. */
  function StateFor(steps: seq<StepSnapshot>): OperationState {
    if Holds(steps, Failed) && !Holds(steps, Pending) && !Holds(steps, Running) then ReconcileRequired else Active
  }

  ghost predicate SnapshotOK(k: Rules, o: Operation, x: Snapshot) {
    && x.operationId == o.operationId && |x.steps| == |o.steps|
    && (forall i :: 0 <= i < |x.steps| ==> StepSnapshotOK(k, o.steps[i], x.steps[i]))
    && StateFits(x.state, x.steps)
  }

  // ---- Validators ----

  method ValidateStepState(k: Rules, step: Step, state: StepState, result: Option<Result>, failure: string,
                           receipt: string)
    returns (ok: bool)
    requires TokensAreNulFree(k)
    ensures ok <==> StepStateOK(k, step, state, result, failure, receipt)
  {
    match state {
      case Pending | Running => return result == None && failure == "" && receipt == "";
      case Failed => return result == None && FailureCode(failure) && receipt == "";
      case Succeeded => if result == None || failure != "" || receipt != "" { return false; }
      case Compensated =>
        if step.compensation != MODE_EXPLICIT || result == None || failure != "" || !k.digest(receipt) {
          return false;
        }
    }
    ok := VerifyStepResult(k, step, result.value);
  }

  /** How many steps are in each state. */
  datatype Counts = Counts(failed: nat, pending: nat, running: nat, succeeded: nat, compensated: nat)

  function Of(c: Counts, state: StepState): nat {
    match state case Failed => c.failed case Pending => c.pending case Running => c.running
                case Succeeded => c.succeeded case Compensated => c.compensated
  }

  ghost predicate Tallied(c: Counts, steps: seq<StepSnapshot>) {
    && c.failed + c.pending + c.running + c.succeeded + c.compensated == |steps|
    && forall state :: Of(c, state) == 0 <==> !Holds(steps, state)
  }

  function Bumped(c: Counts, state: StepState): Counts {
    match state
    case Pending => c.(pending := c.pending + 1)
    case Running => c.(running := c.running + 1)
    case Succeeded => c.(succeeded := c.succeeded + 1)
    case Failed => c.(failed := c.failed + 1)
    case Compensated => c.(compensated := c.compensated + 1)
  }

  lemma TalliedNext(c: Counts, steps: seq<StepSnapshot>, x: StepSnapshot)
    requires Tallied(c, steps)
    ensures Tallied(Bumped(c, x.state), steps + [x])
  {
    var all, c' := steps + [x], Bumped(c, x.state);
    forall state ensures Of(c', state) == 0 <==> !Holds(all, state) {
      if Holds(steps, state) {
        var i :| 0 <= i < |steps| && steps[i].state == state;
        assert all[i].state == state;
      }
      assert all[|steps|].state == x.state;
    }
  }

  method ValidateStepSnapshot(k: Rules, step: Step, x: StepSnapshot) returns (ok: bool)
    requires TokensAreNulFree(k)
    ensures ok <==> StepSnapshotOK(k, step, x)
  {
    if x.stepId != step.id || x.requestDigest != step.requestDigest { return false; }
    ok := ValidateStepState(k, step, x.state, x.result, x.failure, x.receipt);
  }

  method CountStep(c: Counts, x: StepSnapshot, ghost steps: seq<StepSnapshot>) returns (c': Counts)
    requires Tallied(c, steps)
    ensures Tallied(c', steps + [x])
  {
    TalliedNext(c, steps, x);
    c' := c;
    match x.state {
      case Pending => c' := c'.(pending := c.pending + 1);
      case Running => c' := c'.(running := c.running + 1);
      case Succeeded => c' := c'.(succeeded := c.succeeded + 1);
      case Failed => c' := c'.(failed := c.failed + 1);
      case Compensated => c' := c'.(compensated := c.compensated + 1);
    }
    assert c' == Bumped(c, x.state);
  }

  method ValidateSnapshotSteps(k: Rules, o: Operation, steps: seq<StepSnapshot>) returns (ok: bool, c: Counts)
    requires TokensAreNulFree(k) && |steps| == |o.steps|
    ensures ok <==> forall i :: 0 <= i < |steps| ==> StepSnapshotOK(k, o.steps[i], steps[i])
    ensures ok ==> Tallied(c, steps)
  {
    c := Counts(0, 0, 0, 0, 0);
    for i := 0 to |steps|
      invariant forall j :: 0 <= j < i ==> StepSnapshotOK(k, o.steps[j], steps[j])
      invariant Tallied(c, steps[..i])
    {
      var x := steps[i];
      var fine := ValidateStepSnapshot(k, o.steps[i], x);
      if !fine { return false, c; }
      assert steps[..i + 1] == steps[..i] + [x];
      c := CountStep(c, x, steps[..i]);
    }
    assert steps[..|steps|] == steps;
    return true, c;
  }

  method ValidateCounts(c: Counts, state: OperationState, n: nat, ghost steps: seq<StepSnapshot>) returns (ok: bool)
    requires Tallied(c, steps) && n == |steps|
    ensures ok <==> StateFits(state, steps)
  {
    AllInState(steps, Succeeded);
    SettledStates(steps);
    forall s ensures Of(c, s) == 0 <==> !Holds(steps, s) {}
    assert Of(c, Failed) == c.failed && Of(c, Pending) == c.pending && Of(c, Running) == c.running;
    assert Of(c, Succeeded) == c.succeeded && Of(c, Compensated) == c.compensated;
    match state
    case Active =>
      if c.compensated != 0 || c.pending + c.running + c.succeeded + c.failed != n { return false; }
      return !(c.failed != 0 && c.pending + c.running == 0);
    case ReconcileRequired => return c.failed != 0 && c.running == 0;
    case Completed => return c.succeeded == n;
    case Undone =>
      return !(c.compensated == 0 || c.pending != 0 || c.running != 0 || c.succeeded != 0 ||
        c.compensated + c.failed != n);
  }

  lemma AllInState(steps: seq<StepSnapshot>, state: StepState)
    ensures (forall i :: 0 <= i < |steps| ==> steps[i].state == state) <==>
      forall other :: other != state ==> !Holds(steps, other)
  {
    if forall other :: other != state ==> !Holds(steps, other) {
      forall i | 0 <= i < |steps| ensures steps[i].state == state { assert Holds(steps, steps[i].state); }
    }
  }

  lemma SettledStates(steps: seq<StepSnapshot>)
    ensures (forall i :: 0 <= i < |steps| ==> steps[i].state == Compensated || steps[i].state == Failed) <==>
      !Holds(steps, Pending) && !Holds(steps, Running) && !Holds(steps, Succeeded)
  {
    if !Holds(steps, Pending) && !Holds(steps, Running) && !Holds(steps, Succeeded) {
      forall i | 0 <= i < |steps| ensures steps[i].state == Compensated || steps[i].state == Failed {
        assert Holds(steps, steps[i].state);
      }
    }
  }

  /** The one place the rule lives, as it is computed: by counting. */
  method OperationStateForSteps(steps: seq<StepSnapshot>) returns (state: OperationState)
    ensures state == StateFor(steps)
  {
    var failed, remaining := 0, 0;
    for i := 0 to |steps|
      invariant failed == 0 <==> !Holds(steps[..i], Failed)
      invariant remaining == 0 <==> !Holds(steps[..i], Pending) && !Holds(steps[..i], Running)
      invariant failed >= 0 && remaining >= 0
    {
      assert steps[..i + 1] == steps[..i] + [steps[i]];
      forall s { HoldsNext(steps[..i], steps[i], s); }
      match steps[i].state {
        case Pending | Running => remaining := remaining + 1;
        case Failed => failed := failed + 1;
        case Succeeded | Compensated =>
      }
    }
    assert steps[..|steps|] == steps;
    return if failed > 0 && remaining == 0 then ReconcileRequired else Active;
  }

  lemma HoldsNext(steps: seq<StepSnapshot>, x: StepSnapshot, state: StepState)
    ensures Holds(steps + [x], state) <==> Holds(steps, state) || x.state == state
  {
    if Holds(steps, state) {
      var i :| 0 <= i < |steps| && steps[i].state == state;
      assert (steps + [x])[i].state == state;
    }
    assert (steps + [x])[|steps|] == x;
  }

  method ValidateSnapshot(k: Rules, o: Operation, x: Snapshot) returns (ok: bool)
    requires TokensAreNulFree(k)
    ensures ok <==> SnapshotOK(k, o, x)
  {
    if x.operationId != o.operationId || |x.steps| != |o.steps| { return false; }
    var c;
    ok, c := ValidateSnapshotSteps(k, o, x.steps);
    if !ok { return; }
    ok := ValidateCounts(c, x.state, |x.steps|, x.steps);
  }

  ghost predicate ReservationOK(k: Rules, o: Operation, r: Reservation) {
    match r.disposition
    case Acquired => Fence(r.fence) && r.snapshot == None
    case Resume =>
      Fence(r.fence) && r.snapshot.Some? && SnapshotOK(k, o, r.snapshot.value) &&
        r.snapshot.value.state in {Active, ReconcileRequired}
    case Replay =>
      r.fence == "" && r.snapshot.Some? && SnapshotOK(k, o, r.snapshot.value) &&
        r.snapshot.value.state in {Completed, Undone}
    case InProgress => r.fence == "" && r.snapshot == None
    case Conflict => r.fence == "" && r.snapshot == None
  }

  method ValidateReservation(k: Rules, o: Operation, r: Reservation) returns (ok: bool)
    requires TokensAreNulFree(k)
    ensures ok <==> ReservationOK(k, o, r)
  {
    match r.disposition {
      case Acquired => return Fence(r.fence) && r.snapshot == None;
      case InProgress | Conflict => return r.fence == "" && r.snapshot == None;
      case Resume => if !Fence(r.fence) || r.snapshot == None { return false; }
      case Replay => if r.fence != "" || r.snapshot == None { return false; }
    }
    ok := ValidateSnapshot(k, o, r.snapshot.value);
    if !ok { return; }
    var state := r.snapshot.value.state;
    return if r.disposition == Resume then state == Active || state == ReconcileRequired
      else state == Completed || state == Undone;
  }

  ghost predicate Names(o: Operation, c: StepCommit, i: int) {
    0 <= i < |o.steps| && o.steps[i].id == c.stepId && o.steps[i].requestDigest == c.requestDigest
  }

  /** What the commit validator accepts, for the step it names. */
  ghost predicate CommitOK(k: Rules, o: Operation, c: StepCommit, i: int) {
    && c.operationId == o.operationId && Fence(c.fence) && Names(o, c, i)
    && StepTransition(c.expected, c.state) && StepStateOK(k, o.steps[i], c.state, c.result, c.failure, c.receipt)
  }

  ghost predicate IdsSorted(o: Operation) { StrictlySorted(Map(StepId, o.steps), Less) }

  lemma AcceptedIdsSorted(o: Operation)
    requires StepsSorted(o.steps)
    ensures IdsSorted(o)
  {
    AdjacentStringsSorted(Map(StepId, o.steps));
  }

  /** The step a commit can mean, in a sorted operation the only one of its id. */
  function Sought(o: Operation, c: StepCommit): nat { Search(Map(StepId, o.steps), c.stepId) }

  method ValidateStepCommit(k: Rules, o: Operation, c: StepCommit) returns (ok: bool, index: nat)
    requires TokensAreNulFree(k)
    ensures ok <==> CommitOK(k, o, c, Sought(o, c))
    ensures ok ==> index == Sought(o, c)
    ensures IdsSorted(o) && (exists i :: CommitOK(k, o, c, i)) ==> ok
  {
    if c.operationId != o.operationId || !Fence(c.fence) { return false, 0; }
    index := SearchBy(o.steps, StepId, c.stepId);
    if IdsSorted(o) { NamedIsFound(o, c); }
    if index == |o.steps| || o.steps[index].id != c.stepId || o.steps[index].requestDigest != c.requestDigest {
      return false, index;
    }
    if !StepTransition(c.expected, c.state) { return false, index; }
    ok := ValidateStepState(k, o.steps[index], c.state, c.result, c.failure, c.receipt);
    assert ok <==> CommitOK(k, o, c, index);
  }

  /** In a sorted operation only the step the search finds can be named. */
  lemma NamedIsFound(o: Operation, c: StepCommit)
    requires IdsSorted(o)
    ensures forall i :: Names(o, c, i) ==> i == Sought(o, c)
  {
    var ids := Map(StepId, o.steps);
    forall i | Names(o, c, i) ensures i == Sought(o, c) {
      assert ids[i] == c.stepId;
      SearchFinds(ids, c.stepId, i);
    }
  }

  ghost predicate FinalizationOK(o: Operation, f: Finalization) {
    f.operationId == o.operationId && Fence(f.fence) && OperationTransition(f.expected, f.state)
  }

  method ValidateFinalization(o: Operation, f: Finalization) returns (ok: bool)
    ensures ok <==> FinalizationOK(o, f)
  {
    if f.operationId != o.operationId || !Fence(f.fence) { return false; }
    return OperationTransition(f.expected, f.state);
  }
}
