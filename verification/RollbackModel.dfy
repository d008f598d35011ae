/** Stacks, runtime roots and the journal of a coordinated rollback, and the plan it is computed from. */
module RollbackModel {
  import opened Wrappers
  import opened Ordering

  type Root = string
  const HOST_ROLE := "host"

  datatype Stack = Stack(id: string, role: string, root: Root)
  datatype Action = Destroyed | Restored | Recreated | Unchanged
  datatype Step = Step(stackId: string, role: string, root: Root, action: Action)

  datatype FileKind = StateFile | ConfigFile | LockFile | ComposeFile | EnvironmentFile

  /** The files the checkpoint captured for one root; state and configuration always. */
  datatype RootFiles = RootFiles(state: string, config: string, lock: Option<string>, compose: Option<string>,
                                 environment: Option<string>)

  function Content(f: RootFiles, k: FileKind): Option<string> {
    match k
    case StateFile => Some(f.state)
    case ConfigFile => Some(f.config)
    case LockFile => f.lock
    case ComposeFile => f.compose
    case EnvironmentFile => f.environment
  }

  /** A runtime root on disk: the executor's marker and the governed files. */
  datatype RootState = RootState(marker: bool, files: map<FileKind, string>)
  type Disk = map<Root, RootState>

  predicate Holds(d: Disk, r: Root, f: RootFiles, k: FileKind) {
    Content(f, k).Some? ==> r in d && k in d[r].files && d[r].files[k] == Content(f, k).value
  }

  /** The root holds every captured file, byte for byte. */
  ghost predicate Matches(d: Disk, r: Root, f: RootFiles) {
    forall k :: Holds(d, r, f, k)
  }

  predicate HasApplied(d: Disk, r: Root) {
    r in d && ConfigFile in d[r].files && StateFile in d[r].files
  }

  method RootEquals(d: Disk, r: Root, f: RootFiles) returns (equal: bool)
    ensures equal <==> Matches(d, r, f)
  {
    var kinds := [StateFile, ConfigFile, LockFile, ComposeFile, EnvironmentFile];
    for i := 0 to |kinds|
      invariant forall j :: 0 <= j < i ==> Holds(d, r, f, kinds[j])
    {
      var expected := Content(f, kinds[i]);
      if expected.Some? {
        if r !in d || kinds[i] !in d[r].files || d[r].files[kinds[i]] != expected.value {
          assert !Holds(d, r, f, kinds[i]);
          return false;
        }
      }
    }
    forall k ensures Holds(d, r, f, k) {
      assert k == kinds[0] || k == kinds[1] || k == kinds[2] || k == kinds[3] || k == kinds[4];
    }
    return true;
  }

  // ---- The plan ----

  ghost predicate DistinctStacks(stacks: seq<Stack>) {
    forall i, j :: 0 <= i < j < |stacks| ==> stacks[i].root != stacks[j].root
  }

  ghost predicate DistinctSteps(steps: seq<Step>) {
    forall i, j :: 0 <= i < j < |steps| ==> steps[i].root != steps[j].root
  }

  ghost predicate Named(stacks: seq<Stack>, r: Root) { exists s :: s in stacks && s.root == r }

  predicate Host(s: Step) { s.role == HOST_ROLE }

  /** One action per stack of the current graph. */
  ghost function ActionFor(d: Disk, captured: map<Root, RootFiles>, target: seq<Stack>, s: Stack): Action {
    if s.role == HOST_ROLE then Restored
    else if !Named(target, s.root) then (if s.root in d then Destroyed else Unchanged)
    else if s.root !in captured then Unchanged
    else if !HasApplied(d, s.root) then Recreated
    else if Matches(d, s.root, captured[s.root]) then Unchanged
    else Restored
  }

  ghost function StepFor(d: Disk, captured: map<Root, RootFiles>, target: seq<Stack>, s: Stack): Step {
    Step(s.id, s.role, s.root, ActionFor(d, captured, target, s))
  }

  function RecreateStep(s: Stack): Step { Step(s.id, s.role, s.root, Recreated) }

  /** Stacks only the checkpoint has, with a captured root, in run order. */
  ghost function CheckpointOnly(captured: map<Root, RootFiles>, current: seq<Stack>, target: seq<Stack>): seq<Stack> {
    if target == [] then []
    else
      var last := target[|target| - 1];
      CheckpointOnly(captured, current, target[..|target| - 1])
        + if !Named(current, last.root) && last.root in captured then [last] else []
  }

  /** `plan` is the current stacks in exact reverse run order, then the checkpoint-only ones in run order. */
  ghost predicate IsPlan(plan: seq<Step>, d: Disk, captured: map<Root, RootFiles>, current: seq<Stack>,
                         target: seq<Stack>) {
    && |plan| >= |current|
    && (forall i :: 0 <= i < |current| ==> plan[i] == StepFor(d, captured, target, current[|current| - 1 - i]))
    && plan[|current|..] == Map(RecreateStep, CheckpointOnly(captured, current, target))
  }

  /** The root was captured, is applied, and is no longer as captured. */
  ghost predicate Drifted(d: Disk, captured: map<Root, RootFiles>, r: Root) {
    r in captured && HasApplied(d, r) && !Matches(d, r, captured[r])
  }

  method ChooseAction(d: Disk, captured: map<Root, RootFiles>, inTarget: set<Root>, s: Stack, ghost target: seq<Stack>)
    returns (a: Action)
    requires forall r :: r in inTarget <==> Named(target, r)
    ensures a == ActionFor(d, captured, target, s)
    ensures s.role == HOST_ROLE ==> a == Restored
    ensures s.role != HOST_ROLE ==>
      && (a == Destroyed <==> !Named(target, s.root) && s.root in d)
      && (a == Recreated <==> Named(target, s.root) && s.root in captured && !HasApplied(d, s.root))
      && (a == Restored <==> Named(target, s.root) && Drifted(d, captured, s.root))
  {
    if s.role == HOST_ROLE { return Restored; }
    if s.root !in inTarget { return if s.root in d then Destroyed else Unchanged; }
    if s.root !in captured { return Unchanged; }
    if !HasApplied(d, s.root) { return Recreated; }
    var equal := RootEquals(d, s.root, captured[s.root]);
    return if equal then Unchanged else Restored;
  }

  method TargetRootSet(target: seq<Stack>) returns (inTarget: set<Root>)
    ensures forall r :: r in inTarget <==> Named(target, r)
  {
    inTarget := {};
    for i := 0 to |target|
      invariant forall r :: r in inTarget <==> Named(target[..i], r)
    {
      assert target[..i + 1] == target[..i] + [target[i]];
      inTarget := inTarget + {target[i].root};
    }
    assert target[..|target|] == target;
  }

  predicate AllAllowed(allowed: (string, Root) -> bool, steps: seq<Step>) {
    forall s :: s in steps ==> allowed(s.role, s.root)
  }

  /** The current stacks, backwards through the run order. */
  method CurrentSteps(d: Disk, captured: map<Root, RootFiles>, current: seq<Stack>, target: seq<Stack>,
                      allowed: (string, Root) -> bool)
    returns (steps: Option<seq<Step>>, inCurrent: set<Root>)
    ensures steps.Some? ==> |steps.value| == |current| && AllAllowed(allowed, steps.value)
    ensures steps.Some? ==> forall i :: 0 <= i < |current| ==>
      steps.value[i] == StepFor(d, captured, target, current[|current| - 1 - i])
    ensures steps.Some? ==> forall r :: r in inCurrent <==> Named(current, r)
    ensures steps == None ==> exists s :: s in current && !allowed(s.role, s.root)
  {
    var inTarget := TargetRootSet(target);
    var done: seq<Step>, n := [], |current|;
    inCurrent := {};
    for i := 0 to n
      invariant |done| == i && forall j :: 0 <= j < i ==> done[j] == StepFor(d, captured, target, current[n - 1 - j])
      invariant AllAllowed(allowed, done)
      invariant forall r :: r in inCurrent <==> Named(current[n - i..], r)
    {
      var stack := current[n - 1 - i];
      assert stack in current && current[n - 1 - i..] == [stack] + current[n - i..];
      inCurrent := inCurrent + {stack.root};
      var action := ChooseAction(d, captured, inTarget, stack, target);
      if !allowed(stack.role, stack.root) { return None, inCurrent; }
      done := done + [Step(stack.id, stack.role, stack.root, action)];
    }
    assert current[0..] == current;
    return Some(done), inCurrent;
  }

  /** Refuses a stack whose root its role cannot own; otherwise the plan. */
  method Plan(d: Disk, captured: map<Root, RootFiles>, current: seq<Stack>, target: seq<Stack>,
              allowed: (string, Root) -> bool)
    returns (plan: Option<seq<Step>>)
    ensures plan.Some? ==> IsPlan(plan.value, d, captured, current, target) && AllAllowed(allowed, plan.value)
    ensures plan == None ==> exists s :: (s in current || s in target) && !allowed(s.role, s.root)
  {
    var reversed, inCurrent := CurrentSteps(d, captured, current, target, allowed);
    if reversed == None { return None; }
    var more: seq<Step> := [];
    for i := 0 to |target|
      invariant more == Map(RecreateStep, CheckpointOnly(captured, current, target[..i]))
      invariant AllAllowed(allowed, more)
    {
      var stack := target[i];
      CheckpointOnlyNext(captured, current, target, i);
      if stack.root !in inCurrent && stack.root in captured {
        if !allowed(stack.role, stack.root) {
          assert stack in target;
          return None;
        }
        more := more + [RecreateStep(stack)];
      }
    }
    assert target[..|target|] == target;
    var steps := reversed.value + more;
    assert steps[|current|..] == more;
    return Some(steps);
  }

  lemma CheckpointOnlyNext(captured: map<Root, RootFiles>, current: seq<Stack>, target: seq<Stack>, i: nat)
    requires i < |target|
    ensures Map(RecreateStep, CheckpointOnly(captured, current, target[..i + 1])) ==
      Map(RecreateStep, CheckpointOnly(captured, current, target[..i]))
        + if !Named(current, target[i].root) && target[i].root in captured then [RecreateStep(target[i])] else []
  {
    assert target[..i + 1][..i] == target[..i];
  }

  // ---- Plan order and uniqueness ----

  lemma {:induction false} CheckpointOnlyFacts(captured: map<Root, RootFiles>, current: seq<Stack>, target: seq<Stack>)
    requires DistinctStacks(target)
    ensures var c := CheckpointOnly(captured, current, target);
      && DistinctStacks(c)
      && (forall s :: s in c <==> s in target && !Named(current, s.root) && s.root in captured)
  {
    if target != [] {
      var init, last := target[..|target| - 1], target[|target| - 1];
      assert target == init + [last];
      CheckpointOnlyFacts(captured, current, init);
      var c := CheckpointOnly(captured, current, init);
      forall j | 0 <= j < |c| ensures c[j].root != last.root { assert c[j] in init; }
    }
  }

  /** The plan names each root at most once. */
  lemma PlanNamesEachRootOnce(plan: seq<Step>, d: Disk, captured: map<Root, RootFiles>, current: seq<Stack>,
                              target: seq<Stack>)
    requires IsPlan(plan, d, captured, current, target) && DistinctStacks(current) && DistinctStacks(target)
    ensures DistinctSteps(plan)
  {
    var n, c := |current|, CheckpointOnly(captured, current, target);
    CheckpointOnlyFacts(captured, current, target);
    forall i | n <= i < |plan| ensures plan[i] == RecreateStep(c[i - n]) && !Named(current, plan[i].root) {
      assert plan[i] == plan[n..][i - n] && c[i - n] in c;
    }
    forall i | 0 <= i < n ensures Named(current, plan[i].root) { assert current[n - 1 - i] in current; }
  }

  /** `first` runs before `second` in a run order. */
  ghost predicate RunsBefore(stacks: seq<Stack>, first: Stack, second: Stack) {
    exists i, j :: 0 <= i < j < |stacks| && stacks[i] == first && stacks[j] == second
  }

  ghost predicate PlannedBefore(plan: seq<Step>, first: Root, second: Root) {
    exists i, j :: 0 <= i < j < |plan| && plan[i].root == first && plan[j].root == second
  }

  /** In a topological run order every dependent is visited before the current stacks it runs after. */
  lemma DependentsComeFirst(plan: seq<Step>, d: Disk, captured: map<Root, RootFiles>, current: seq<Stack>,
                            target: seq<Stack>,
                            after: (Stack, Stack) -> bool)
    requires IsPlan(plan, d, captured, current, target)
    requires forall a, b :: a in current && b in current && after(a, b) ==> RunsBefore(current, b, a)
    ensures forall a, b :: a in current && b in current && after(a, b) ==> PlannedBefore(plan, a.root, b.root)
  {
    var n := |current|;
    forall a, b | a in current && b in current && after(a, b) ensures PlannedBefore(plan, a.root, b.root) {
      var i, j :| 0 <= i < j < n && current[i] == b && current[j] == a;
      assert plan[n - 1 - j].root == a.root && plan[n - 1 - i].root == b.root;
    }
  }

  ghost predicate RecreatedInOrder(target: seq<Stack>, first: Step, second: Step) {
    exists a, b :: RunsBefore(target, a, b) && first == RecreateStep(a) && second == RecreateStep(b)
  }

  /** Where each step of a plan comes from. */
  lemma PlanSources(plan: seq<Step>, d: Disk, captured: map<Root, RootFiles>, current: seq<Stack>, target: seq<Stack>,
                    i: nat)
    requires IsPlan(plan, d, captured, current, target) && i < |plan|
    ensures i < |current| ==>
      plan[i] == StepFor(d, captured, target, current[|current| - 1 - i]) && current[|current| - 1 - i] in current
    ensures i >= |current| ==> |plan| - |current| == |CheckpointOnly(captured, current, target)|
                               && plan[i] == RecreateStep(CheckpointOnly(captured, current, target)[i - |current|])
  {
    if i >= |current| { assert plan[i] == plan[|current|..][i - |current|]; }
  }

  lemma CheckpointOnlyIsNotCurrent(captured: map<Root, RootFiles>, current: seq<Stack>, target: seq<Stack>, m: nat)
    requires DistinctStacks(target) && m < |CheckpointOnly(captured, current, target)|
    ensures !Named(current, CheckpointOnly(captured, current, target)[m].root)
  {
    CheckpointOnlyFacts(captured, current, target);
    assert CheckpointOnly(captured, current, target)[m] in CheckpointOnly(captured, current, target);
  }

  /** Current stacks come before checkpoint-only ones, and the latter keep their run order. */
  lemma CheckpointOnlyComeLast(plan: seq<Step>, d: Disk, captured: map<Root, RootFiles>, current: seq<Stack>,
                               target: seq<Stack>)
    requires IsPlan(plan, d, captured, current, target) && DistinctStacks(target)
    ensures forall i :: 0 <= i < |plan| ==> (i < |current| <==> Named(current, plan[i].root))
    ensures forall i, j :: |current| <= i < j < |plan| ==> RecreatedInOrder(target, plan[i], plan[j])
  {
    forall i | 0 <= i < |plan| ensures i < |current| <==> Named(current, plan[i].root) {
      PlanSources(plan, d, captured, current, target, i);
      if i >= |current| { CheckpointOnlyIsNotCurrent(captured, current, target, i - |current|); }
    }
    forall i, j | |current| <= i < j < |plan| ensures RecreatedInOrder(target, plan[i], plan[j]) {
      PlanSources(plan, d, captured, current, target, i);
      PlanSources(plan, d, captured, current, target, j);
      CheckpointOnlyKeepsOrder(captured, current, target, i - |current|, j - |current|);
    }
  }

  lemma {:induction false} CheckpointOnlyKeepsOrder(captured: map<Root, RootFiles>, current: seq<Stack>,
                                                    target: seq<Stack>, i: nat, j: nat)
    requires i < j < |CheckpointOnly(captured, current, target)|
    ensures RunsBefore(target, CheckpointOnly(captured, current, target)[i],
      CheckpointOnly(captured, current, target)[j])
  {
    var init, last := target[..|target| - 1], target[|target| - 1];
    var c := CheckpointOnly(captured, current, init);
    if j < |c| {
      CheckpointOnlyKeepsOrder(captured, current, init, i, j);
      var a, b :| 0 <= a < b < |init| && init[a] == c[i] && init[b] == c[j];
      assert target[a] == c[i] && target[b] == c[j];
    } else {
      CheckpointOnlyMembers(captured, current, init, i);
      var a :| 0 <= a < |init| && init[a] == c[i];
      assert target[a] == c[i] && target[|target| - 1] == last;
    }
  }

  lemma {:induction false} CheckpointOnlyMembers(captured: map<Root, RootFiles>, current: seq<Stack>,
                                                 target: seq<Stack>, i: nat)
    requires i < |CheckpointOnly(captured, current, target)|
    ensures CheckpointOnly(captured, current, target)[i] in target
  {
    var init := target[..|target| - 1];
    if i < |CheckpointOnly(captured, current, init)| { CheckpointOnlyMembers(captured, current, init, i); }
  }

  /** Every captured root of the checkpoint is planned, and is left alone only when it already equals the checkpoint. */
  lemma CapturedRootsArePlanned(plan: seq<Step>, d: Disk, captured: map<Root, RootFiles>, current: seq<Stack>,
                                target: seq<Stack>, r: Root)
    requires IsPlan(plan, d, captured, current, target) && DistinctStacks(current) && DistinctStacks(target)
    requires r in captured && Named(target, r)
    ensures exists s :: s in plan && s.root == r
    ensures forall s :: s in plan && s.root == r && !Host(s) ==>
      s.action in {Restored, Recreated} || (s.action == Unchanged && Matches(d, r, captured[r]))
  {
    var n := |current|;
    if Named(current, r) {
      var j :| 0 <= j < n && current[j].root == r;
      assert plan[n - 1 - j].root == r;
    } else {
      CheckpointOnlyIsPlanned(plan, d, captured, current, target, r);
    }
    forall s | s in plan && s.root == r && !Host(s)
      ensures s.action in {Restored, Recreated} || (s.action == Unchanged && Matches(d, r, captured[r]))
    {
      var i :| 0 <= i < |plan| && plan[i] == s;
      PlanSources(plan, d, captured, current, target, i);
    }
  }

  lemma CheckpointOnlyIsPlanned(plan: seq<Step>, d: Disk, captured: map<Root, RootFiles>, current: seq<Stack>,
                                target: seq<Stack>, r: Root)
    requires IsPlan(plan, d, captured, current, target) && DistinctStacks(target)
    requires r in captured && Named(target, r) && !Named(current, r)
    ensures exists s :: s in plan && s.root == r
  {
    CheckpointOnlyFacts(captured, current, target);
    var c := CheckpointOnly(captured, current, target);
    var s :| s in target && s.root == r;
    assert s in c;
    var m :| 0 <= m < |c| && c[m] == s;
    assert plan[|current|..][m] == plan[|current| + m];
    assert plan[|current| + m].root == r;
  }

  ghost predicate Absent(d: Disk, current: seq<Stack>, r: Root) { !Named(current, r) || !HasApplied(d, r) }

  /** What the action of a planned step says of its root; a stack the checkpoint names but did not capture is kept. */
  ghost predicate ActionFits(d: Disk, captured: map<Root, RootFiles>, current: seq<Stack>, target: seq<Stack>,
                             s: Step) {
    && (s.action == Destroyed <==> !Named(target, s.root) && s.root in d)
    && (s.action == Recreated <==> Named(target, s.root) && s.root in captured && Absent(d, current, s.root))
    && (s.action == Restored <==> Named(target, s.root) && Named(current, s.root) && Drifted(d, captured, s.root))
  }

  predicate IsStepOf(s: Step, c: Stack) { s.stackId == c.id && s.root == c.root && s.role == c.role }

  lemma PlannedActionFits(plan: seq<Step>, d: Disk, captured: map<Root, RootFiles>, current: seq<Stack>,
                          target: seq<Stack>, i: nat)
    requires IsPlan(plan, d, captured, current, target) && DistinctStacks(target) && i < |plan|
    ensures Host(plan[i]) && i < |current| ==> plan[i].action == Restored
    ensures !Host(plan[i]) ==> ActionFits(d, captured, current, target, plan[i])
  {
    PlanSources(plan, d, captured, current, target, i);
    if i >= |current| {
      CheckpointOnlyFacts(captured, current, target);
      assert CheckpointOnly(captured, current, target)[i - |current|] in CheckpointOnly(captured, current, target);
    }
  }

  /** Destroyed are exactly the present stacks the checkpoint does not name; recreated the captured ones that are not
      applied; restored the applied ones that differ; every other stack is left alone. */
  lemma PlannedActionsFit(plan: seq<Step>, d: Disk, captured: map<Root, RootFiles>, current: seq<Stack>,
                          target: seq<Stack>)
    requires IsPlan(plan, d, captured, current, target) && DistinctStacks(current) && DistinctStacks(target)
    ensures forall s :: s in plan && !Host(s) ==> ActionFits(d, captured, current, target, s)
    ensures forall s :: s in plan && Host(s) && Named(current, s.root) ==> s.action == Restored
    ensures forall c :: c in current ==> exists s :: s in plan && IsStepOf(s, c)
    ensures forall c :: c in target && c.root in captured && !Named(current, c.root) ==>
      exists s :: s in plan && IsStepOf(s, c) && s.action == Recreated
  {
    forall s | s in plan
      ensures !Host(s) ==> ActionFits(d, captured, current, target, s)
      ensures Host(s) && Named(current, s.root) ==> s.action == Restored
    {
      var i :| 0 <= i < |plan| && plan[i] == s;
      PlannedActionFits(plan, d, captured, current, target, i);
      CheckpointOnlyComeLast(plan, d, captured, current, target);
    }
    forall c | c in current ensures exists s :: s in plan && IsStepOf(s, c) {
      var j :| 0 <= j < |current| && current[j] == c;
      assert IsStepOf(plan[|current| - 1 - j], c) && plan[|current| - 1 - j] in plan;
    }
    forall c | c in target && c.root in captured && !Named(current, c.root)
      ensures exists s :: s in plan && IsStepOf(s, c) && s.action == Recreated
    {
      CheckpointOnlyFacts(captured, current, target);
      var only := CheckpointOnly(captured, current, target);
      assert c in only;
      var m :| 0 <= m < |only| && only[m] == c;
      assert plan[|current|..][m] == plan[|current| + m] && plan[|current| + m] in plan;
      assert IsStepOf(plan[|current| + m], c);
    }
  }
}
