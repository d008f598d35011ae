/**
 * What a dispatcher may do to the outside, act by act, when nothing is assumed of its journal and its executors,
 * and what therefore holds of every log of permitted acts.
 */
module DispatchProtocol {
  import opened Wrappers
  import opened ExecutionModel
  import opened Invocation
  import opened ApplyOperation
  import opened ApplyJournal
  import opened ApplyRuns
  import opened JournalAnswers

  /** A sealed child request; a platform is what platform-bound children deploy through. */
  datatype Child = Child(request: Request, compensation: string, critical: bool, platform: bool, platformBound: bool)

  datatype Cause = ContextEnded | ExecutorFault(code: Refusal) | OtherFault

  /** A result, or an error; `degradedOnly` errors come from units that were applied but report themselves degraded. */
  datatype Attempt = Delivered(result: Result) | Broke(cause: Cause, degradedOnly: bool)

  /** Interrupted before or while the executor ran. */
  predicate Interrupted(cause: Cause) { cause == ContextEnded || cause == ExecutorFault(Cancelled) }

  /** The executor answered, or would have, but not with what was agreed. */
  predicate Unverified(cause: Cause) {
    cause.ExecutorFault? && cause.code in {InvalidRequest, IdentityMismatch, SetMismatch, InvalidResult}
  }

  function Classify(cause: Cause): (code: string)
    ensures FailureCode(code) && (code == "cancelled" <==> Interrupted(cause))
    ensures code == "verification-failed" <==> Unverified(cause)
  {
    match cause
    case ContextEnded => "cancelled"
    case OtherFault => "executor-failed"
    case ExecutorFault(code) =>
      match code
      case Cancelled => "cancelled"
      case ExecutorFailed => "executor-failed"
      case ExecutorPanic => "executor-failed"
      case _ => "verification-failed"
  }

  /** Asking the journal for an event, calling the executor of a child, or refusing that call to its executor. */
  datatype Act = Asked(e: Event) | Called(child: nat) | Refrained(child: nat)

  /** What the outside answers; each answer may depend on everything done so far. */
  datatype Env = Env(reserve: Operation -> Option<Reservation>, answer: seq<Act> -> Option<Snapshot>,
                     attempt: seq<Act> -> Attempt)

  /** One dispatch: `steps` holds, child by child, the steps of the operation. */
  datatype Setting = Setting(k: Rules, o: Operation, fence: string, children: seq<Child>, steps: seq<Step>, env: Env)

  ghost predicate SettingOK(x: Setting) {
    && SealedIds(x.o) && |x.children| == |x.steps| && multiset(x.steps) == multiset(x.o.steps)
    && forall i :: 0 <= i < |x.steps| ==> x.steps[i].requestDigest == x.children[i].request.requestDigest
  }

  predicate IsAttempt(a: Act) { a.Called? || a.Refrained? }

  function Latest(p: seq<Act>): Act
    requires p != []
  {
    p[|p| - 1]
  }

  /** An executor that is not called never delivers. */
  function Came(env: Env, p: seq<Act>): Attempt {
    var a := env.attempt(p);
    if p != [] && Latest(p).Refrained? then Broke(if a.Broke? then a.cause else ExecutorFault(ExecutorFailed), false)
    else a
  }

  function StartFor(x: Setting, i: nat, expected: StepState): StepCommit
    requires i < |x.steps|
  {
    StepCommit(x.o.operationId, x.fence, x.steps[i].id, x.steps[i].requestDigest, expected, Running, None, "", "")
  }

  function ReportFor(x: Setting, i: nat, a: Attempt): StepCommit
    requires i < |x.steps|
  {
    match a
    case Delivered(result) =>
      StepCommit(x.o.operationId, x.fence, x.steps[i].id, x.steps[i].requestDigest, Running, Succeeded, Some(result),
        "", "")
    case Broke(cause, _) =>
      StepCommit(x.o.operationId, x.fence, x.steps[i].id, x.steps[i].requestDigest, Running, Failed, None,
        Classify(cause), "")
  }

  /** The journal answered with a valid snapshot that shows the commit. */
  ghost predicate Shows(x: Setting, answer: Option<Snapshot>, c: StepCommit) {
    answer.Some? && SnapshotOK(x.k, x.o, answer.value) && Recorded(c) in answer.value.steps
  }

  /** The commit starts the step of child `i`, which was pending or had failed. */
  predicate IsStart(x: Setting, i: int, c: StepCommit) {
    0 <= i < |x.steps| && (c == StartFor(x, i, Pending) || c == StartFor(x, i, Failed))
  }

  /** The last act was to start the step of the child, and the journal showed it running. */
  ghost predicate Started(x: Setting, p: seq<Act>, i: nat) {
    && p != [] && Latest(p).Asked? && Latest(p).e.Commit? && IsStart(x, i, Latest(p).e.c)
    && Shows(x, x.env.answer(p), Latest(p).e.c)
  }

  /** Only children before `i` have been attempted. */
  predicate OnlyBefore(p: seq<Act>, i: nat) { forall n :: 0 <= n < |p| && IsAttempt(p[n]) ==> p[n].child < i }

  /** The last act was an attempt, and `c` reports what came of it. */
  predicate Reports(x: Setting, p: seq<Act>, c: StepCommit) {
    && p != [] && IsAttempt(Latest(p)) && Latest(p).child < |x.steps|
    && c == ReportFor(x, Latest(p).child, Came(x.env, p))
  }

  /** The last act was an attempt that failed; its child did not merely come up degraded. */
  predicate Breaks(x: Setting, p: seq<Act>) {
    && p != [] && IsAttempt(Latest(p)) && Latest(p).child < |x.children|
    && Came(x.env, p).Broke? && !Came(x.env, p).degradedOnly
  }

  predicate BreaksPlatform(x: Setting, p: seq<Act>) { Breaks(x, p) && x.children[Latest(p).child].platform }
  predicate BreaksCritical(x: Setting, p: seq<Act>) { Breaks(x, p) && x.children[Latest(p).child].critical }

  predicate PlatformBroke(x: Setting, p: seq<Act>) {
    p != [] && (BreaksPlatform(x, p) || PlatformBroke(x, p[..|p| - 1]))
  }

  predicate CriticalBroke(x: Setting, p: seq<Act>) {
    p != [] && (BreaksCritical(x, p) || CriticalBroke(x, p[..|p| - 1]))
  }

  predicate ReportsFailure(a: Act) { a.Asked? && a.e.Commit? && a.e.c.state == Failed }

  predicate NoneFailed(p: seq<Act>) { forall n :: 0 <= n < |p| ==> !ReportsFailure(p[n]) }

  /** The child may be attempted now; whether it is called is up to its platform. */
  ghost predicate MayAttempt(x: Setting, p: seq<Act>, i: nat) {
    Started(x, p, i) && i < |x.children| && OnlyBefore(p, i) && !CriticalBroke(x, p)
  }

  ghost predicate Permitted(x: Setting, p: seq<Act>, a: Act) {
    match a
    case Called(i) => MayAttempt(x, p, i) && !(x.children[i].platformBound && PlatformBroke(x, p))
    case Refrained(i) => MayAttempt(x, p, i) && x.children[i].platformBound && PlatformBroke(x, p)
    case Asked(Commit(c)) => Reports(x, p, c) || (!CriticalBroke(x, p) && exists i :: IsStart(x, i, c))
    case Asked(Finish(f)) => f.state == OperationState.Completed && NoneFailed(p) && !CriticalBroke(x, p)
  }

  ghost predicate Orderly(x: Setting, p: seq<Act>) {
    p == [] || (Orderly(x, p[..|p| - 1]) && Permitted(x, p[..|p| - 1], Latest(p)))
  }

  lemma OrderlyNext(x: Setting, p: seq<Act>, a: Act)
    requires Orderly(x, p) && Permitted(x, p, a)
    ensures Orderly(x, p + [a])
  {
    assert (p + [a])[..|p|] == p;
  }

  lemma {:induction false} OrderlyAt(x: Setting, p: seq<Act>, n: nat)
    requires Orderly(x, p) && n < |p|
    ensures Orderly(x, p[..n]) && Permitted(x, p[..n], p[n])
  {
    var init := p[..|p| - 1];
    if n < |p| - 1 {
      OrderlyAt(x, init, n);
      assert init[..n] == p[..n];
    }
  }

  lemma BrokeNext(x: Setting, p: seq<Act>, a: Act)
    ensures PlatformBroke(x, p + [a]) <==> BreaksPlatform(x, p + [a]) || PlatformBroke(x, p)
    ensures CriticalBroke(x, p + [a]) <==> BreaksCritical(x, p + [a]) || CriticalBroke(x, p)
  {
    assert (p + [a])[..|p|] == p;
  }

  // ---- What every orderly log tells ----

  /** Write-ahead: an executor is called only after the journal has shown the step running for this holder. */
  lemma CallIsWrittenAhead(x: Setting, p: seq<Act>, n: nat)
    requires Orderly(x, p) && n < |p| && IsAttempt(p[n])
    ensures n > 0 && p[n - 1].Asked? && p[n - 1].e.Commit? && p[n].child < |x.steps|
    ensures var c, step := p[n - 1].e.c, x.steps[p[n].child];
      && c.operationId == x.o.operationId && c.fence == x.fence && c.stepId == step.id
      && c.requestDigest == step.requestDigest && c.state == Running && c.expected in {Pending, Failed}
      && c.result == None && c.failure == "" && c.receipt == "" && Shows(x, x.env.answer(p[..n]), c)
  {
    OrderlyAt(x, p, n);
  }

  /** No child is attempted twice, and children are attempted in their order. */
  lemma AttemptsAscend(x: Setting, p: seq<Act>, m: nat, n: nat)
    requires Orderly(x, p) && m < n < |p| && IsAttempt(p[m]) && IsAttempt(p[n])
    ensures p[m].child < p[n].child
  {
    OrderlyAt(x, p, n);
    assert p[..n][m] == p[m];
  }

  lemma {:induction false} BrokeStays(x: Setting, p: seq<Act>, m: nat, n: nat)
    requires m <= n <= |p|
    ensures PlatformBroke(x, p[..m]) ==> PlatformBroke(x, p[..n])
    ensures CriticalBroke(x, p[..m]) ==> CriticalBroke(x, p[..n])
    decreases n
  {
    if m < n {
      BrokeStays(x, p, m, n - 1);
      assert p[..n][..n - 1] == p[..n - 1];
    }
  }

  lemma {:induction false} PlatformBrokeAt(x: Setting, p: seq<Act>) returns (m: nat)
    requires PlatformBroke(x, p)
    ensures m <= |p| && BreaksPlatform(x, p[..m])
  {
    m := |p|;
    assert p[..m] == p;
    if !BreaksPlatform(x, p) {
      m := PlatformBrokeAt(x, p[..|p| - 1]);
      assert p[..|p| - 1][..m] == p[..m];
    }
  }

  /** After a platform broke, no executor of a child that deploys through it is called. */
  lemma {:induction false} BrokenPlatformIsNotDeployedTo(x: Setting, p: seq<Act>, m: nat, n: nat)
    requires Orderly(x, p) && m < n < |p| && Breaks(x, p[..m + 1]) && x.children[p[m].child].platform && p[n].Called?
    ensures p[n].child < |x.children| && !x.children[p[n].child].platformBound
  {
    assert BreaksPlatform(x, p[..m + 1]);
    BrokeStays(x, p, m + 1, n);
    OrderlyAt(x, p, n);
  }

  /** A call is refused in place of the executor only to a child whose platform broke before. */
  lemma {:induction false} RefusedOnlyAfterBreak(x: Setting, p: seq<Act>, n: nat)
    requires Orderly(x, p) && n < |p| && p[n].Refrained?
    ensures p[n].child < |x.children| && x.children[p[n].child].platformBound
    ensures exists m :: 0 < m <= n && Breaks(x, p[..m]) && x.children[p[m - 1].child].platform
  {
    OrderlyAt(x, p, n);
    var m := PlatformBrokeAt(x, p[..n]);
    assert p[..n][..m] == p[..m];
    assert Latest(p[..m]) == p[m - 1];
  }

  lemma {:induction false} AfterCriticalBreak(x: Setting, p: seq<Act>, m: nat, n: nat)
    requires Orderly(x, p) && m < n < |p| && BreaksCritical(x, p[..m + 1])
    ensures IsAttempt(p[n - 1]) && p[n].Asked? && p[n].e.Commit? && Reports(x, p[..n], p[n].e.c)
  {
    BrokeStays(x, p, m + 1, n);
    OrderlyAt(x, p, n);
    assert Latest(p[..n]) == p[n - 1];
  }

  /** After a critical child failed, that failure is reported and nothing else is done any more. */
  lemma {:induction false} CriticalFailureEndsDispatch(x: Setting, p: seq<Act>, m: nat, n: nat)
    requires Orderly(x, p) && m < n < |p| && Breaks(x, p[..m + 1]) && x.children[p[m].child].critical
    ensures n == m + 1 && p[n].Asked? && p[n].e.Commit? && p[n].e.c.state == Failed
  {
    assert Latest(p[..m + 1]) == p[m];
    AfterCriticalBreak(x, p, m, n);
    if m + 1 < n { AfterCriticalBreak(x, p, m, n - 1); }
  }

  /** Nothing is reported of a step but what came of its attempt, directly before: the delivered result, or a
      failure and its cause. */
  lemma ReportsAreTrue(x: Setting, p: seq<Act>, n: nat)
    requires Orderly(x, p) && n < |p| && p[n].Asked? && p[n].e.Commit? && p[n].e.c.state != Running
    ensures n > 0 && IsAttempt(p[n - 1]) && p[n - 1].child < |x.steps|
    ensures var c, i := p[n].e.c, p[n - 1].child;
      && c.operationId == x.o.operationId && c.fence == x.fence && c.stepId == x.steps[i].id
      && c.requestDigest == x.steps[i].requestDigest && c.expected == Running && c.receipt == ""
    ensures TrueReport(Came(x.env, p[..n]), p[n].e.c)
  {
    OrderlyAt(x, p, n);
  }

  predicate TrueReport(a: Attempt, c: StepCommit) {
    match a
    case Delivered(result) => c.state == Succeeded && c.result == Some(result) && c.failure == ""
    case Broke(cause, _) =>
      && c.state == Failed && c.result == None
      && c.failure == if Interrupted(cause) then "cancelled" else if Unverified(cause) then "verification-failed"
                      else "executor-failed"
  }

  /** Completion is asked for only when no failure was reported. */
  lemma CompletionMeansNoneFailed(x: Setting, p: seq<Act>, n: nat)
    requires Orderly(x, p) && n < |p| && p[n].Asked? && p[n].e.Finish?
    ensures p[n].e.f.state == OperationState.Completed && NoneFailed(p[..n])
  {
    OrderlyAt(x, p, n);
  }
}
