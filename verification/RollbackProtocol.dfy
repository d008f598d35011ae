/**
 * The write-ahead protocol of a rollback: what each side effect may do given only what survives a crash,
 * and what therefore holds over every run of permitted effects.
 */
module RollbackProtocol {
  import opened Wrappers
  import opened RollbackModel

  // ---- The persisted journal ----

  datatype Status = Unset | Converged | Skipped | Failed
  datatype StepResult = StepResult(status: Status, filesRestored: bool, planExit: Option<int>)
  datatype Journal = Journal(steps: seq<Step>, results: map<Root, StepResult>, done: bool)

  function ResultOf(j: Journal, r: Root): StepResult {
    if r in j.results then j.results[r] else StepResult(Unset, false, None)
  }

  predicate Settled(j: Journal, r: Root) { ResultOf(j, r).status in {Converged, Skipped} }
  predicate Recorded(j: Journal, r: Root) { ResultOf(j, r).filesRestored }
  predicate AllSettled(j: Journal) { forall s :: s in j.steps ==> Settled(j, s.root) }

  /** Step `i` is the first one not settled. */
  ghost predicate IsNext(j: Journal, i: int) {
    0 <= i < |j.steps| && !Settled(j, j.steps[i].root) && forall h :: 0 <= h < i ==> Settled(j, j.steps[h].root)
  }

  ghost predicate NextIs(j: Journal, s: Step) { exists i :: IsNext(j, i) && j.steps[i] == s }

  function WithResult(j: Journal, r: Root, x: StepResult): Journal { j.(results := j.results[r := x]) }

  /** The journal after marking the files of `roots` restored. */
  function WithRecorded(j: Journal, roots: set<Root>): Journal {
    j.(results := map r | r in j.results.Keys + roots ::
      if r in roots then ResultOf(j, r).(filesRestored := true) else ResultOf(j, r))
  }

  // ---- Effects ----

  /** How far the current root has got since it was last disturbed: applied, then planned without changes; a host
      reconciled; destroyed. */
  datatype Phase = Applied | Proven | Reconciled | TornDown

  /**
   * `phase` and `written` are history: no effect reads them, only the rules for recording and settling a step.
   * `written` holds the checkpoint files written to a root since it was last disturbed.
   */
  datatype World = World(disk: Disk, journal: Journal, phase: map<Root, Phase>, written: map<Root, set<FileKind>>,
                         captured: map<Root, RootFiles>)

  const ALL_KINDS := {StateFile, ConfigFile, LockFile, ComposeFile, EnvironmentFile}

  /** OpenTofu runs replace the root's state arbitrarily; a removal that fails leaves something behind. */
  datatype Event =
    | Write(root: Root, kind: FileKind)
    | Rebuild(roots: set<Root>, disk: Disk)
    | TofuDestroy(root: Root, left: Option<RootState>, ok: bool)
    | TofuApply(root: Root, left: Option<RootState>, ok: bool)
    | TofuPlan(root: Root, left: Option<RootState>, exit: int)
    | Remove(root: Root, left: Option<RootState>)
    | HostRestore(root: Root, ok: bool)
    | Save(journal: Journal)

  predicate Touches(e: Event, r: Root) {
    match e
    case Rebuild(roots, _) => r in roots
    case Save(_) => false
    case _ => e.root == r
  }

  /** Checkpoint files of the root are written. */
  predicate Rewrites(e: Event, r: Root) {
    (e.Write? && e.root == r) || (e.Rebuild? && r in e.roots)
  }

  function Put(d: Disk, r: Root, left: Option<RootState>): Disk {
    match left case Some(x) => d[r := x] case None => d - {r}
  }

  function WriteTo(d: Disk, captured: map<Root, RootFiles>, r: Root, k: FileKind): Disk {
    if r in d && r in captured && Content(captured[r], k).Some?
    then d[r := d[r].(files := d[r].files[k := Content(captured[r], k).value])] else d
  }

  function DiskAfter(d: Disk, captured: map<Root, RootFiles>, e: Event): Disk {
    match e
    case Write(r, k) => WriteTo(d, captured, r, k)
    case Rebuild(_, rebuilt) => rebuilt
    case TofuDestroy(r, left, _) => Put(d, r, left)
    case TofuApply(r, left, _) => Put(d, r, left)
    case TofuPlan(r, left, _) => Put(d, r, left)
    case Remove(r, left) => Put(d, r, left)
    case HostRestore(_, _) => d
    case Save(_) => d
  }

  function PhaseAfter(p: map<Root, Phase>, e: Event): map<Root, Phase> {
    match e
    case TofuApply(r, _, true) => p[r := Applied]
    case TofuPlan(r, _, 0) => if r in p && p[r] == Applied then p[r := Proven] else p - {r}
    case HostRestore(r, true) => p[r := Reconciled]
    case TofuDestroy(r, _, true) => p[r := TornDown]
    case Rebuild(roots, _) => p - roots
    case Save(_) => p
    case _ => p - {e.root}
  }

  function WrittenTo(h: map<Root, set<FileKind>>, r: Root): set<FileKind> { if r in h then h[r] else {} }

  /** The captured files that a rebuilt root holds; of a failed rebuild only these count. */
  function RebuiltFiles(d: Disk, captured: map<Root, RootFiles>, r: Root): set<FileKind> {
    set k | k in ALL_KINDS && r in d && r in captured && Content(captured[r], k).Some? && Holds(d, r, captured[r], k)
  }

  function WrittenAfter(h: map<Root, set<FileKind>>, captured: map<Root, RootFiles>,
                        e: Event): map<Root, set<FileKind>> {
    match e
    case Write(r, k) => h[r := WrittenTo(h, r) + {k}]
    case Rebuild(roots, d) => map r | r in h.Keys + roots :: if r in roots then RebuiltFiles(d, captured, r) else h[r]
    case Save(_) => h
    case _ => h - {e.root}
  }

  function After(w: World, e: Event): World {
    w.(disk := DiskAfter(w.disk, w.captured, e), phase := PhaseAfter(w.phase, e),
       written := WrittenAfter(w.written, w.captured, e), journal := if e.Save? then e.journal else w.journal)
  }

  // ---- What each effect requires of the persisted state ----

  predicate Same(a: Disk, b: Disk, r: Root) { (r in a <==> r in b) && (r in a ==> a[r] == b[r]) }

  predicate Restores(s: Step) { !Host(s) && s.action in {Restored, Recreated} }

  /** The root belongs to a recreated step that is not settled. */
  ghost predicate IsRecreated(j: Journal, r: Root) {
    !Settled(j, r) && exists s :: s in j.steps && s.root == r && s.action == Recreated
  }

  /** An unsettled recreated step whose files are not recorded, or whose root has vanished. */
  ghost predicate MayRebuild(w: World, r: Root) {
    IsRecreated(w.journal, r) && (!Recorded(w.journal, r) || r !in w.disk)
  }

  /** Every captured file is on disk as captured, and this rollback wrote it. */
  ghost predicate Captured(w: World, r: Root) {
    r in w.captured && Matches(w.disk, r, w.captured[r])
    && forall k :: Content(w.captured[r], k).Some? ==> k in WrittenTo(w.written, r)
  }

  predicate IsProven(w: World, r: Root) { r in w.phase && w.phase[r] == Proven }

  /** The result a step may be given: the record never reverts, and a settled status needs its proof. */
  ghost predicate ResultFits(w: World, s: Step, x: StepResult) {
    && (Recorded(w.journal, s.root) ==> x.filesRestored)
    && (x.filesRestored && !Recorded(w.journal, s.root) ==> Restores(s) && Captured(w, s.root))
    && match x.status
       case Unset => x.filesRestored && Restores(s)
       case Failed => true
       case Skipped => !Host(s) && s.action == Unchanged
       case Converged =>
         if Host(s) then s.root in w.phase && w.phase[s.root] == Reconciled
         else if s.action == Destroyed then s.root !in w.disk
         else Restores(s) && Recorded(w.journal, s.root) && x.planExit == Some(0) && IsProven(w, s.root)
  }

  /** `j` records these recreated roots, whose files are in place. */
  ghost predicate RecordsRoots(w: World, j: Journal, roots: set<Root>) {
    j == WithRecorded(w.journal, roots) && forall r :: r in roots ==> Captured(w, r) && IsRecreated(w.journal, r)
  }

  ghost predicate MaySave(w: World, j: Journal) {
    || (exists roots: set<Root> :: RecordsRoots(w, j, roots))
    || (exists s, x :: NextIs(w.journal, s) && ResultFits(w, s, x) && j == WithResult(w.journal, s.root, x))
    || (AllSettled(w.journal) && j == w.journal.(done := true))
  }

  /** A destroyed stack is torn down; a restored one may be left before its files are recorded, never after. */
  predicate MayLeave(j: Journal, s: Step) {
    !Host(s) && (s.action == Destroyed || (s.action == Restored && !Recorded(j, s.root)))
  }

  /** Only an unrecorded root with its marker is written, and the state comes last, after every other captured file. */
  ghost predicate MayWrite(w: World, r: Root, k: FileKind) {
    && !Recorded(w.journal, r) && r in w.disk && w.disk[r].marker && r in w.captured
    && (k == StateFile ==> forall other :: other != StateFile ==> Holds(w.disk, r, w.captured[r], other))
  }

  /** An applied root is removed only after a successful destroy that nothing has followed. */
  predicate MayRemove(w: World, r: Root) {
    HasApplied(w.disk, r) ==> r in w.phase && w.phase[r] == TornDown
  }

  /** The files of every recreated step still to be run are recorded. */
  ghost predicate RecreatedRecorded(j: Journal) {
    forall s :: s in j.steps && s.action == Recreated && !Settled(j, s.root) ==> Recorded(j, s.root)
  }

  /** The effects of a step, as opposed to recreation and bookkeeping. */
  predicate RunsStep(e: Event) { !e.Rebuild? && !e.Save? }

  ghost predicate Permits(w: World, e: Event) {
    && (RunsStep(e) ==> RecreatedRecorded(w.journal))
    && match e
       case Write(r, k) => (exists s :: NextIs(w.journal, s) && s.root == r && Restores(s)) && MayWrite(w, r, k)
       case Rebuild(roots, d) =>
         (forall r :: r in roots ==> MayRebuild(w, r)) && forall r :: r !in roots ==> Same(w.disk, d, r)
       case TofuDestroy(r, _, _) => exists s :: NextIs(w.journal, s) && s.root == r && MayLeave(w.journal, s)
       case TofuApply(r, _, _) =>
         (exists s :: NextIs(w.journal, s) && s.root == r && Restores(s)) && Recorded(w.journal, r)
       case TofuPlan(r, _, _) =>
         (exists s :: NextIs(w.journal, s) && s.root == r && Restores(s)) && Recorded(w.journal, r)
       case Remove(r, _) =>
         (exists s :: NextIs(w.journal, s) && s.root == r && !Host(s) && s.action == Destroyed) && MayRemove(w, r)
       case HostRestore(r, _) => exists s :: NextIs(w.journal, s) && s.root == r && Host(s)
       case Save(j) => MaySave(w, j)
  }

  /** A freshly planned rollback, before its first side effect. */
  ghost predicate Starts(w: World) {
    && !w.journal.done && w.journal.results == map[] && w.phase == map[] && w.written == map[]
    && DistinctSteps(w.journal.steps)
    && forall s :: s in w.journal.steps && Restores(s) ==> s.root in w.captured
  }

  function Now(start: World, log: seq<Event>): World {
    if log == [] then start else After(Now(start, log[..|log| - 1]), log[|log| - 1])
  }

  /** Every effect was permitted by what was persisted just before it. */
  ghost predicate Run(start: World, log: seq<Event>) {
    log == [] || (Run(start, log[..|log| - 1]) && Permits(Now(start, log[..|log| - 1]), log[|log| - 1]))
  }

  lemma RunExtends(start: World, log: seq<Event>, e: Event)
    requires Run(start, log) && Permits(Now(start, log), e)
    ensures Run(start, log + [e]) && Now(start, log + [e]) == After(Now(start, log), e)
  {
    assert (log + [e])[..|log|] == log;
  }

  /** What a run says of its first `n` events. */
  ghost predicate PrefixRuns(start: World, log: seq<Event>, n: nat)
    requires n <= |log|
  {
    && Run(start, log[..n])
    && (n < |log| ==>
        Permits(Now(start, log[..n]), log[n]) && Now(start, log[..n + 1]) == After(Now(start, log[..n]), log[n]))
  }

  lemma PrefixOfPrefix(start: World, log: seq<Event>, m: nat, n: nat)
    requires n < m <= |log| && PrefixRuns(start, log[..m], n)
    ensures PrefixRuns(start, log, n)
  {
    assert log[..m][..n] == log[..n] && log[..m][..n + 1] == log[..n + 1];
  }

  lemma LastOfRun(start: World, log: seq<Event>)
    requires Run(start, log) && log != []
    ensures PrefixRuns(start, log, |log| - 1)
  {
    assert log[..|log|] == log;
  }

  lemma {:induction false} RunPrefix(start: World, log: seq<Event>, n: nat)
    requires Run(start, log) && n <= |log|
    ensures PrefixRuns(start, log, n)
    decreases |log|
  {
    if n == |log| {
      assert log[..n] == log;
    } else if n == |log| - 1 {
      LastOfRun(start, log);
    } else {
      RunPrefix(start, log[..|log| - 1], n);
      PrefixOfPrefix(start, log, |log| - 1, n);
    }
  }

  // ---- The invariant ----

  /** Settled steps come first; after the first open step nothing has run, though recreated files may be recorded. */
  ghost predicate PrefixShape(j: Journal) {
    forall i, k :: 0 <= i < k < |j.steps| && !Settled(j, j.steps[i].root) ==> Unrun(j, j.steps[k])
  }

  predicate Unrun(j: Journal, s: Step) {
    ResultOf(j, s.root).status == Unset && (Recorded(j, s.root) ==> s.action == Recreated)
  }

  ghost predicate StepOK(start: World, w: World, s: Step) {
    && (Restores(s) ==> s.root in w.captured)
    && (!Host(s) && s.action == Unchanged ==> Same(start.disk, w.disk, s.root))
    && (!Host(s) && s.action == Destroyed && Settled(w.journal, s.root) ==> s.root !in w.disk)
    && (Restores(s) && Settled(w.journal, s.root) ==> Recorded(w.journal, s.root) && IsProven(w, s.root))
  }

  ghost predicate Inv(start: World, w: World) {
    && w.captured == start.captured && w.journal.steps == start.journal.steps && DistinctSteps(w.journal.steps)
    && PrefixShape(w.journal) && (w.journal.done ==> AllSettled(w.journal))
    && forall s :: s in w.journal.steps ==> StepOK(start, w, s)
  }

  lemma SameStep(j: Journal, a: Step, b: Step)
    requires DistinctSteps(j.steps) && a in j.steps && b in j.steps && a.root == b.root
    ensures a == b
  {
    var i :| 0 <= i < |j.steps| && j.steps[i] == a;
    var k :| 0 <= k < |j.steps| && j.steps[k] == b;
  }

  /** Only the next step and unsettled recreated steps are ever touched. */
  ghost predicate OpenFor(j: Journal, s: Step) {
    !Settled(j, s.root) && (Host(s) || s.action != Unchanged)
  }

  lemma TouchedIsOpen(w: World, e: Event, s: Step)
    requires Permits(w, e) && DistinctSteps(w.journal.steps) && s in w.journal.steps && Touches(e, s.root)
    ensures OpenFor(w.journal, s)
  {
    if e.Rebuild? {
      var x :| x in w.journal.steps && x.root == s.root && x.action == Recreated;
      SameStep(w.journal, s, x);
    } else {
      var x :| NextIs(w.journal, x) && x.root == s.root && (Host(x) || x.action != Unchanged);
      SameStep(w.journal, s, x);
    }
  }

  lemma UntouchedIsSame(w: World, e: Event, r: Root)
    requires Permits(w, e) && !Touches(e, r)
    ensures Same(w.disk, After(w, e).disk, r)
    ensures r in After(w, e).phase <==> r in w.phase
    ensures r in w.phase ==> After(w, e).phase[r] == w.phase[r]
  {
  }

  lemma RecordingKeepsShape(j: Journal, roots: set<Root>)
    requires DistinctSteps(j.steps) && PrefixShape(j) && forall r :: r in roots ==> IsRecreated(j, r)
    ensures PrefixShape(WithRecorded(j, roots))
    ensures forall r :: ResultOf(WithRecorded(j, roots), r).status == ResultOf(j, r).status
    ensures forall r :: Recorded(WithRecorded(j, roots), r) <==> Recorded(j, r) || r in roots
    ensures forall r :: Settled(j, r) ==> ResultOf(WithRecorded(j, roots), r) == ResultOf(j, r)
  {
    var j' := WithRecorded(j, roots);
    forall i, k | 0 <= i < k < |j.steps| && !Settled(j', j.steps[i].root) ensures Unrun(j', j.steps[k]) {
      assert Unrun(j, j.steps[k]);
      if j.steps[k].root in roots {
        var s :| s in j.steps && s.root == j.steps[k].root && s.action == Recreated;
        SameStep(j, s, j.steps[k]);
      }
    }
  }

  lemma SettlingKeepsShape(j: Journal, s: Step, x: StepResult)
    requires DistinctSteps(j.steps) && PrefixShape(j) && NextIs(j, s) && (Recorded(j, s.root) ==> x.filesRestored)
    ensures PrefixShape(WithResult(j, s.root, x))
    ensures forall r :: Recorded(j, r) ==> Recorded(WithResult(j, s.root, x), r)
    ensures forall r :: Settled(j, r) ==> ResultOf(WithResult(j, s.root, x), r) == ResultOf(j, r)
  {
    var n :| IsNext(j, n) && j.steps[n] == s;
    var j' := WithResult(j, s.root, x);
    forall i, k | 0 <= i < k < |j.steps| && !Settled(j', j.steps[i].root) ensures Unrun(j', j.steps[k]) {
      assert i >= n;
      assert j.steps[k].root != s.root;
      assert Unrun(j, j.steps[k]);
    }
  }

  lemma SaveKeepsShape(w: World, j: Journal)
    requires DistinctSteps(w.journal.steps) && PrefixShape(w.journal) && MaySave(w, j)
    ensures j.steps == w.journal.steps && PrefixShape(j)
    ensures forall r :: Recorded(w.journal, r) ==> Recorded(j, r)
    ensures forall r :: Settled(w.journal, r) ==> ResultOf(j, r) == ResultOf(w.journal, r)
  {
    if roots: set<Root> :| RecordsRoots(w, j, roots) {
      RecordingKeepsShape(w.journal, roots);
    } else if s, x :| NextIs(w.journal, s) && ResultFits(w, s, x) && j == WithResult(w.journal, s.root, x) {
      SettlingKeepsShape(w.journal, s, x);
    }
  }

  lemma RecordingKeepsStep(start: World, w: World, roots: set<Root>, s: Step)
    requires StepOK(start, w, s)
    ensures StepOK(start, w.(journal := WithRecorded(w.journal, roots)), s)
  {
  }

  lemma SettlingKeepsStep(start: World, w: World, t: Step, x: StepResult, s: Step)
    requires DistinctSteps(w.journal.steps) && t in w.journal.steps && s in w.journal.steps
    requires ResultFits(w, t, x) && StepOK(start, w, s)
    ensures StepOK(start, w.(journal := WithResult(w.journal, t.root, x)), s)
  {
    if t.root == s.root { SameStep(w.journal, s, t); }
  }

  lemma SaveKeepsStep(start: World, w: World, j: Journal, s: Step)
    requires DistinctSteps(w.journal.steps) && MaySave(w, j) && s in w.journal.steps && StepOK(start, w, s)
    ensures StepOK(start, w.(journal := j), s)
  {
    if roots: set<Root> :| RecordsRoots(w, j, roots) {
      RecordingKeepsStep(start, w, roots, s);
    } else if t, x :| NextIs(w.journal, t) && ResultFits(w, t, x) && j == WithResult(w.journal, t.root, x) {
      SettlingKeepsStep(start, w, t, x, s);
    }
  }

  lemma EffectKeepsStep(start: World, w: World, e: Event, s: Step)
    requires Permits(w, e) && !e.Save? && DistinctSteps(w.journal.steps) && s in w.journal.steps && StepOK(start, w, s)
    ensures StepOK(start, After(w, e), s)
  {
    if Touches(e, s.root) { TouchedIsOpen(w, e, s); } else { UntouchedIsSame(w, e, s.root); }
  }

  lemma StepKeepsInv(start: World, w: World, e: Event)
    requires Inv(start, w) && Permits(w, e)
    ensures Inv(start, After(w, e))
  {
    if e.Save? {
      SaveKeepsShape(w, e.journal);
      forall s | s in w.journal.steps ensures StepOK(start, After(w, e), s) { SaveKeepsStep(start, w, e.journal, s); }
    } else {
      forall s | s in w.journal.steps ensures StepOK(start, After(w, e), s) { EffectKeepsStep(start, w, e, s); }
    }
  }

  /** The invariant holds after every permitted run. */
  lemma {:induction false} RunKeepsInv(start: World, log: seq<Event>)
    requires Starts(start) && Run(start, log)
    ensures Inv(start, Now(start, log))
  {
    if log != [] {
      var shorter := log[..|log| - 1];
      RunKeepsInv(start, shorter);
      StepKeepsInv(start, Now(start, shorter), log[|log| - 1]);
    }
  }
}
