/** What every run of a rollback keeps, whatever OpenTofu does and wherever it is interrupted. */
module RollbackTheorems {
  import opened RollbackModel
  import opened RollbackProtocol

  function At(start: World, log: seq<Event>, n: nat): World
    requires n <= |log|
  {
    Now(start, log[..n])
  }

  lemma AtStart(start: World, log: seq<Event>)
    ensures At(start, log, 0) == start
  {
  }

  lemma AtNext(start: World, log: seq<Event>, n: nat)
    requires Starts(start) && Run(start, log) && n < |log|
    ensures Permits(At(start, log, n), log[n]) && At(start, log, n + 1) == After(At(start, log, n), log[n])
    ensures Inv(start, At(start, log, n)) && Inv(start, At(start, log, n + 1))
  {
    RunPrefix(start, log, n);
    RunPrefix(start, log, n + 1);
    RunKeepsInv(start, log[..n]);
    RunKeepsInv(start, log[..n + 1]);
  }

  // ---- Resume is a prefix ----

  /** What `report` calls converged: every step converged or skipped. */
  ghost predicate ReportsConverged(j: Journal) { forall i :: 0 <= i < |j.steps| ==> Settled(j, j.steps[i].root) }

  /** The first `n` steps are settled, the rest are not, and after step `n` none has run. */
  ghost predicate SplitsAt(j: Journal, n: nat) {
    && n <= |j.steps| && (forall i :: 0 <= i < |j.steps| ==> (Settled(j, j.steps[i].root) <==> i < n))
    && forall i :: n < i < |j.steps| ==> Unrun(j, j.steps[i])
  }

  /** In every reachable journal the settled steps are a prefix, a failed step leaves all later ones unrun,
      and the journal is done only when every step is settled. */
  lemma ResumeIsPrefix(start: World, log: seq<Event>)
    requires Starts(start) && Run(start, log)
    ensures var j := Now(start, log).journal;
      && j.steps == start.journal.steps
      && (exists n :: SplitsAt(j, n))
      && (forall i, k :: 0 <= i < k < |j.steps| && ResultOf(j, j.steps[i].root).status == Failed ==>
          Unrun(j, j.steps[k]))
      && (j.done ==> ReportsConverged(j))
  {
    RunKeepsInv(start, log);
    var j := Now(start, log).journal;
    var n := FirstOpenFrom(j, 0);
    assert SplitsAt(j, n);
  }

  lemma {:induction false} FirstOpenFrom(j: Journal, h: nat) returns (n: nat)
    requires PrefixShape(j) && h <= |j.steps| && forall i :: 0 <= i < h ==> Settled(j, j.steps[i].root)
    ensures SplitsAt(j, n)
    decreases |j.steps| - h
  {
    if h == |j.steps| {
      n := h;
    } else if Settled(j, j.steps[h].root) {
      n := FirstOpenFrom(j, h + 1);
    } else {
      n := h;
      forall k | h < k < |j.steps| ensures Unrun(j, j.steps[k]) && !Settled(j, j.steps[k].root) {
        assert Unrun(j, j.steps[k]);
      }
    }
  }

  // ---- The record never reverts, settled steps stay settled ----

  function JournalAt(start: World, log: seq<Event>, n: nat): Journal
    requires n <= |log|
  {
    At(start, log, n).journal
  }

  /** The record of a root stands, and a settled result is the same. */
  predicate Persists(a: Journal, b: Journal, r: Root) {
    (Recorded(a, r) ==> Recorded(b, r)) && (Settled(a, r) ==> ResultOf(b, r) == ResultOf(a, r))
  }

  lemma PersistsOn(a: Journal, b: Journal, c: Journal, r: Root)
    requires Persists(a, b, r) && Persists(b, c, r)
    ensures Persists(a, c, r)
  {
  }

  lemma StepIsMonotone(start: World, log: seq<Event>, n: nat, r: Root)
    requires Starts(start) && Run(start, log) && n < |log|
    ensures Persists(JournalAt(start, log, n), JournalAt(start, log, n + 1), r)
  {
    AtNext(start, log, n);
    if log[n].Save? { SaveKeepsShape(At(start, log, n), log[n].journal); }
  }

  /** Once the files of a root are recorded as restored, every later journal says so; a settled result never changes. */
  lemma {:induction false} RecordNeverReverts(start: World, log: seq<Event>, m: nat, n: nat, r: Root)
    requires Starts(start) && Run(start, log) && m <= n <= |log|
    ensures Persists(JournalAt(start, log, m), JournalAt(start, log, n), r)
    decreases n - m
  {
    if m < n {
      RecordNeverReverts(start, log, m, n - 1, r);
      StepIsMonotone(start, log, n - 1, r);
      PersistsOn(JournalAt(start, log, m), JournalAt(start, log, n - 1), JournalAt(start, log, n), r);
    }
  }

  /** After a step is settled no effect of the rollback touches its root again. */
  lemma SettledIsNeverRunAgain(start: World, log: seq<Event>, m: nat, n: nat, s: Step)
    requires Starts(start) && Run(start, log) && m <= n < |log| && s in start.journal.steps
    requires Settled(At(start, log, m).journal, s.root)
    ensures !Touches(log[n], s.root)
  {
    RecordNeverReverts(start, log, m, n, s.root);
    AtNext(start, log, n);
    if Touches(log[n], s.root) { TouchedIsOpen(At(start, log, n), log[n], s); }
  }

  // ---- Write-ahead ----

  /** The save at `m` is the one that recorded the root: its files were on disk, unrecorded before
      and recorded after. */
  ghost predicate RecordedAt(start: World, log: seq<Event>, m: int, r: Root) {
    && 0 <= m < |log| && log[m].Save? && Captured(At(start, log, m), r)
    && !Recorded(At(start, log, m).journal, r) && Recorded(log[m].journal, r)
  }

  lemma SaveRecordsCaptured(w: World, j: Journal, r: Root)
    requires MaySave(w, j) && Recorded(j, r) && !Recorded(w.journal, r)
    ensures Captured(w, r)
  {
    if roots: set<Root> :| RecordsRoots(w, j, roots) {
      assert r in roots;
    } else if s, x :| NextIs(w.journal, s) && ResultFits(w, s, x) && j == WithResult(w.journal, s.root, x) {
      assert s.root == r;
    }
  }

  /** A recorded root was recorded by a save that found the checkpoint files in place. */
  lemma {:induction false} RecordHasSave(start: World, log: seq<Event>, n: nat, r: Root) returns (m: nat)
    requires Starts(start) && Run(start, log) && n <= |log| && Recorded(At(start, log, n).journal, r)
    ensures m < n && RecordedAt(start, log, m, r)
    decreases n
  {
    NothingRecordedYet(start, log, r);
    if n > 0 {
      if Recorded(At(start, log, n - 1).journal, r) {
        m := RecordHasSave(start, log, n - 1, r);
      } else {
        FirstRecord(start, log, n - 1, r);
        m := n - 1;
      }
    }
  }

  lemma NothingRecordedYet(start: World, log: seq<Event>, r: Root)
    requires Starts(start)
    ensures !Recorded(At(start, log, 0).journal, r)
  {
    assert log[..0] == [];
  }

  lemma FirstRecord(start: World, log: seq<Event>, n: nat, r: Root)
    requires Starts(start) && Run(start, log) && n < |log|
    requires Recorded(At(start, log, n + 1).journal, r) && !Recorded(At(start, log, n).journal, r)
    ensures RecordedAt(start, log, n, r)
  {
    AtNext(start, log, n);
    SaveRecordsCaptured(At(start, log, n), log[n].journal, r);
  }

  ghost predicate Wrote(log: seq<Event>, n: nat, captured: map<Root, RootFiles>, r: Root, k: FileKind)
    requires n <= |log|
  {
    exists t :: 0 <= t < n && WritesFile(log[t], captured, r, k)
  }

  lemma {:induction false} WrittenTellsHistory(start: World, log: seq<Event>, n: nat, r: Root, k: FileKind)
    requires Starts(start) && Run(start, log) && n <= |log| && k in WrittenTo(At(start, log, n).written, r)
    ensures Wrote(log, n, start.captured, r, k)
    decreases n
  {
    assert n > 0 by { assert log[..0] == []; }
    if n > 0 && !WritesFile(log[n - 1], start.captured, r, k) {
      NotWrittenNow(start, log, n - 1, r, k);
      WrittenTellsHistory(start, log, n - 1, r, k);
    }
  }

  /** The effect wrote the file, or rebuilt the root with it in place. */
  predicate WritesFile(e: Event, captured: map<Root, RootFiles>, r: Root, k: FileKind) {
    e == Write(r, k) || (e.Rebuild? && r in e.roots && k in RebuiltFiles(e.disk, captured, r))
  }

  lemma NotWrittenNow(start: World, log: seq<Event>, n: nat, r: Root, k: FileKind)
    requires Starts(start) && Run(start, log) && n < |log| && !WritesFile(log[n], start.captured, r, k)
    requires k in WrittenTo(At(start, log, n + 1).written, r)
    ensures k in WrittenTo(At(start, log, n).written, r)
  {
    AtNext(start, log, n);
    WrittenStep(At(start, log, n), log[n], r, k);
  }

  lemma WrittenStep(w: World, e: Event, r: Root, k: FileKind)
    requires !WritesFile(e, w.captured, r, k) && k in WrittenTo(After(w, e).written, r)
    ensures k in WrittenTo(w.written, r)
  {
  }

  /** Every captured file of a recorded root was written by this rollback before the record. */
  lemma RecordedFilesWereWritten(start: World, log: seq<Event>, m: nat, r: Root, k: FileKind)
    requires Starts(start) && Run(start, log) && RecordedAt(start, log, m, r)
    requires Content(At(start, log, m).captured[r], k).Some?
    ensures Wrote(log, m, start.captured, r, k)
  {
    WrittenTellsHistory(start, log, m, r, k);
  }

  /** A root is rewritten only while it is unrecorded or absent. */
  lemma RewritesAreUnrecorded(start: World, log: seq<Event>, n: nat, r: Root)
    requires Starts(start) && Run(start, log) && n < |log| && Rewrites(log[n], r)
    ensures !Recorded(At(start, log, n).journal, r) || r !in At(start, log, n).disk
  {
    AtNext(start, log, n);
  }

  /** After `m` the record stands in every journal, and the root is rewritten only where it does not exist. */
  ghost predicate KeptSince(start: World, log: seq<Event>, m: int, r: Root) {
    && (forall n :: m < n <= |log| ==> 0 <= n && Recorded(At(start, log, n).journal, r))
    && (forall n :: 0 <= n && m < n < |log| && Rewrites(log[n], r) ==> r !in At(start, log, n).disk)
  }

  /**
   * Write-ahead over every run with any number of crashes: whenever the rollback applies a restored or recreated root,
   * an earlier save recorded its checkpoint files, found them on disk, has not been reverted since,
   * and from then on the root is not rewritten while it exists.
   */
  lemma WriteAhead(start: World, log: seq<Event>, p: nat) returns (m: nat)
    requires Starts(start) && Run(start, log) && p < |log| && log[p].TofuApply?
    ensures m < p && RecordedAt(start, log, m, log[p].root) && KeptSince(start, log, m, log[p].root)
  {
    var r := log[p].root;
    AtNext(start, log, p);
    m := RecordHasSave(start, log, p, r);
    AtNext(start, log, m);
    forall n | m < n <= |log| ensures Recorded(At(start, log, n).journal, r) {
      RecordNeverReverts(start, log, m + 1, n, r);
    }
    forall n | m < n < |log| && Rewrites(log[n], r) ensures r !in At(start, log, n).disk {
      RewritesAreUnrecorded(start, log, n, r);
    }
  }

  // ---- The first apply after the record ----

  predicate Rewriting(s: Step) { s.action == Restored || s.action == Recreated }

  lemma NextIsListed(j: Journal, s: Step)
    requires NextIs(j, s)
    ensures s in j.steps
  {
  }

  /** Only a root that is restored or recreated is ever recorded. */
  lemma RecordedStepRewrites(w: World, j: Journal, s: Step)
    requires DistinctSteps(w.journal.steps) && s in w.journal.steps && MaySave(w, j)
    requires Recorded(j, s.root) && !Recorded(w.journal, s.root)
    ensures Rewriting(s)
  {
    if roots: set<Root> :| RecordsRoots(w, j, roots) {
      assert IsRecreated(w.journal, s.root);
      var t :| t in w.journal.steps && t.root == s.root && t.action == Recreated;
      SameStep(w.journal, s, t);
    } else if t, x :| NextIs(w.journal, t) && ResultFits(w, t, x) && j == WithResult(w.journal, t.root, x) {
      NextIsListed(w.journal, t);
      assert t.root == s.root;
      SameStep(w.journal, s, t);
    }
  }

  /** OpenTofu applies or plans the root, or a rebuild replaces it. */
  predicate Disturbs(e: Event, r: Root) {
    ((e.TofuApply? || e.TofuPlan?) && e.root == r) || (e.Rebuild? && r in e.roots)
  }

  ghost predicate Undisturbed(log: seq<Event>, m: int, n: int, r: Root) {
    forall t :: 0 <= t < |log| && m < t < n ==> !Disturbs(log[t], r)
  }

  /** Nothing else the rollback may do changes a recorded root that is to be restored or recreated. */
  lemma RecordedIsLeftAlone(w: World, e: Event, r: Root)
    requires Permits(w, e) && Recorded(w.journal, r) && !Disturbs(e, r)
    requires RootRewrites(w, r)
    ensures Same(w.disk, After(w, e).disk, r)
  {
    forall s | NextIs(w.journal, s) ensures s in w.journal.steps { NextIsListed(w.journal, s); }
    if !Touches(e, r) { UntouchedIsSame(w, e, r); }
  }

  lemma SameMatches(a: Disk, b: Disk, r: Root, files: RootFiles)
    requires Same(a, b, r) && Matches(a, r, files)
    ensures Matches(b, r, files)
  {
    forall k ensures Holds(b, r, files, k) { assert Holds(a, r, files, k); }
  }

  ghost predicate RootRewrites(w: World, r: Root) {
    forall s :: s in w.journal.steps && s.root == r ==> Rewriting(s)
  }

  /** The record stands and every captured file is on disk as captured. */
  ghost predicate InPlace(start: World, log: seq<Event>, n: nat, r: Root)
    requires n <= |log|
  {
    Recorded(JournalAt(start, log, n), r) && r in start.captured &&
      Matches(At(start, log, n).disk, r, start.captured[r])
  }

  lemma InPlaceAfterRecord(start: World, log: seq<Event>, m: nat, r: Root)
    requires Starts(start) && Run(start, log) && RecordedAt(start, log, m, r)
    ensures RootRewrites(start, r) && forall n :: n == m + 1 ==> InPlace(start, log, n, r)
  {
    AtNext(start, log, m);
    forall s | s in start.journal.steps && s.root == r ensures Rewriting(s) {
      RecordedStepRewrites(At(start, log, m), log[m].journal, s);
    }
  }

  lemma StaysInPlace(start: World, log: seq<Event>, n: nat, r: Root)
    requires Starts(start) && Run(start, log) && 0 < n <= |log| && RootRewrites(start, r)
    requires InPlace(start, log, n - 1, r) && !Disturbs(log[n - 1], r)
    ensures InPlace(start, log, n, r)
  {
    StepIsMonotone(start, log, n - 1, r);
    DiskStays(start, log, n - 1, r);
  }

  lemma DiskStays(start: World, log: seq<Event>, n: nat, r: Root)
    requires Starts(start) && Run(start, log) && n < |log| && RootRewrites(start, r) && !Disturbs(log[n], r)
    requires Recorded(At(start, log, n).journal, r) && r in start.captured
    requires Matches(At(start, log, n).disk, r, start.captured[r])
    ensures Matches(At(start, log, n + 1).disk, r, start.captured[r])
  {
    AtNext(start, log, n);
    EffectLeavesAlone(At(start, log, n), log[n], r, start.captured[r]);
  }

  lemma EffectLeavesAlone(w: World, e: Event, r: Root, files: RootFiles)
    requires Permits(w, e) && Recorded(w.journal, r) && !Disturbs(e, r) && RootRewrites(w, r)
    requires Matches(w.disk, r, files)
    ensures Matches(After(w, e).disk, r, files)
  {
    RecordedIsLeftAlone(w, e, r);
    SameMatches(w.disk, After(w, e).disk, r, files);
  }

  /** From the record on, and until OpenTofu or a rebuild disturbs it, the root equals the checkpoint byte for byte. */
  lemma {:induction false} RecordedStaysInPlace(start: World, log: seq<Event>, m: nat, n: nat, r: Root)
    requires Starts(start) && Run(start, log) && RecordedAt(start, log, m, r) && m < n <= |log|
    requires Undisturbed(log, m, n, r)
    ensures InPlace(start, log, n, r)
    decreases n
  {
    InPlaceAfterRecord(start, log, m, r);
    if n > m + 1 {
      RecordedStaysInPlace(start, log, m, n - 1, r);
      StaysInPlace(start, log, n, r);
    }
  }

  /** The first apply after the record meets exactly the checkpoint files, unless the root was rebuilt in between. */
  lemma FirstApplyMeetsCheckpoint(start: World, log: seq<Event>, p: nat) returns (m: nat)
    requires Starts(start) && Run(start, log) && p < |log| && log[p].TofuApply?
    ensures m < p && RecordedAt(start, log, m, log[p].root) && log[p].root in start.captured
    ensures Undisturbed(log, m, p, log[p].root) ==>
      Matches(At(start, log, p).disk, log[p].root, start.captured[log[p].root])
  {
    m := WriteAhead(start, log, p);
    AtNext(start, log, m);
    if Undisturbed(log, m, p, log[p].root) { RecordedStaysInPlace(start, log, m, p, log[p].root); }
  }

  /** Before any effect of a step, a save found the files of every recreated root on disk and recorded them. */
  lemma RecreatedRecordedBeforeSteps(start: World, log: seq<Event>, n: nat, s: Step)
    requires Starts(start) && Run(start, log) && n < |log| && RunsStep(log[n])
    requires s in start.journal.steps && Restores(s) && s.action == Recreated
    ensures exists m :: m < n && RecordedAt(start, log, m, s.root)
  {
    AtNext(start, log, n);
    assert StepOK(start, At(start, log, n), s);
    var m := RecordHasSave(start, log, n, s.root);
  }

  // ---- Order of the effects on one root ----

  /** The root was destroyed successfully at `p` and nothing touched it from then up to `n`. */
  ghost predicate TornDownBy(log: seq<Event>, n: nat, r: Root, p: int)
    requires n <= |log|
  {
    0 <= p < n && log[p].TofuDestroy? && log[p].root == r && log[p].ok && forall t :: p < t < n ==> !Touches(log[t], r)
  }

  ghost predicate IsTornDown(start: World, log: seq<Event>, n: nat, r: Root)
    requires n <= |log|
  {
    r in At(start, log, n).phase && At(start, log, n).phase[r] == TornDown
  }

  lemma TornDownEarlier(log: seq<Event>, n: nat, r: Root, p: nat)
    requires n < |log| && TornDownBy(log, n, r, p) && !Touches(log[n], r)
    ensures TornDownBy(log, n + 1, r, p)
  {
  }

  lemma NotTornDownAtStart(start: World, log: seq<Event>, r: Root)
    requires Starts(start)
    ensures !IsTornDown(start, log, 0, r)
  {
    AtStart(start, log);
  }

  lemma {:induction false} TornDownTellsHistory(start: World, log: seq<Event>, n: nat, r: Root) returns (p: nat)
    requires Starts(start) && Run(start, log) && n <= |log| && IsTornDown(start, log, n, r)
    ensures TornDownBy(log, n, r, p)
    decreases n
  {
    NotTornDownAtStart(start, log, r);
    TornDownStep(start, log, n - 1, r);
    p := n - 1;
    if !Touches(log[n - 1], r) {
      p := TornDownTellsHistory(start, log, n - 1, r);
      TornDownEarlier(log, n - 1, r, p);
    }
  }

  lemma TornDownStep(start: World, log: seq<Event>, n: nat, r: Root)
    requires Starts(start) && Run(start, log) && n < |log|
    requires IsTornDown(start, log, n + 1, r)
    ensures if Touches(log[n], r) then log[n].TofuDestroy? && log[n].root == r && log[n].ok
            else IsTornDown(start, log, n, r)
  {
    AtNext(start, log, n);
    TornDownNow(At(start, log, n).phase, log[n], r);
  }

  lemma TornDownNow(p: map<Root, Phase>, e: Event, r: Root)
    requires r in PhaseAfter(p, e) && PhaseAfter(p, e)[r] == TornDown
    ensures if Touches(e, r) then e.TofuDestroy? && e.root == r && e.ok else r in p && p[r] == TornDown
  {
  }

  /** No run removes an applied root that it has not destroyed successfully just before. */
  lemma RemovedRootWasTornDown(start: World, log: seq<Event>, n: nat)
    requires Starts(start) && Run(start, log) && n < |log| && log[n].Remove?
    ensures HasApplied(At(start, log, n).disk, log[n].root) ==> exists p :: TornDownBy(log, n, log[n].root, p)
  {
    AtNext(start, log, n);
    if HasApplied(At(start, log, n).disk, log[n].root) { var p := TornDownTellsHistory(start, log, n, log[n].root); }
  }

  // ---- Convergence to the checkpoint ----

  /** The root was applied successfully at `p`, planned without changes at `q`, and nothing else touched it in between
      or up to `n`. */
  ghost predicate ProvenBy(log: seq<Event>, n: nat, r: Root, p: int, q: int)
    requires n <= |log|
  {
    && 0 <= p < q < n && log[p].TofuApply? && log[p].root == r && log[p].ok
    && log[q].TofuPlan? && log[q].root == r && log[q].exit == 0
    && forall t :: p < t < n && t != q ==> !Touches(log[t], r)
  }

  ghost predicate AppliedBy(log: seq<Event>, n: nat, r: Root, p: int)
    requires n <= |log|
  {
    0 <= p < n && log[p].TofuApply? && log[p].root == r && log[p].ok && forall t :: p < t < n ==> !Touches(log[t], r)
  }

  ghost predicate WasApplied(log: seq<Event>, n: nat, r: Root)
    requires n <= |log|
  {
    exists p :: AppliedBy(log, n, r, p)
  }
  ghost predicate WasProven(log: seq<Event>, n: nat, r: Root)
    requires n <= |log|
  {
    exists p, q :: ProvenBy(log, n, r, p, q)
  }

  /** What the history component says about the log. */
  lemma {:induction false} PhaseTellsHistory(start: World, log: seq<Event>, n: nat, r: Root)
    requires Starts(start) && Run(start, log) && n <= |log|
    ensures r in At(start, log, n).phase && At(start, log, n).phase[r] == Applied ==> WasApplied(log, n, r)
    ensures r in At(start, log, n).phase && At(start, log, n).phase[r] == Proven ==> WasProven(log, n, r)
    decreases n
  {
    if n == 0 {
      assert At(start, log, 0) == start;
    } else {
      AtNext(start, log, n - 1);
      PhaseTellsHistory(start, log, n - 1, r);
      PhaseStep(start, log, n - 1, r);
    }
  }

  lemma PhaseStep(start: World, log: seq<Event>, n: nat, r: Root)
    requires n < |log| && At(start, log, n + 1) == After(At(start, log, n), log[n])
    requires r in At(start, log, n).phase && At(start, log, n).phase[r] == Applied ==> WasApplied(log, n, r)
    requires r in At(start, log, n).phase && At(start, log, n).phase[r] == Proven ==> WasProven(log, n, r)
    ensures r in At(start, log, n + 1).phase && At(start, log, n + 1).phase[r] == Applied ==> WasApplied(log, n + 1, r)
    ensures r in At(start, log, n + 1).phase && At(start, log, n + 1).phase[r] == Proven ==> WasProven(log, n + 1, r)
  {
    var w, e := At(start, log, n), log[n];
    if Touches(e, r) {
      if e.TofuApply? && e.ok { assert AppliedBy(log, n + 1, r, n); }
      if e.TofuPlan? && e.exit == 0 && r in w.phase && w.phase[r] == Applied {
        var p :| AppliedBy(log, n, r, p);
        assert ProvenBy(log, n + 1, r, p, n);
      }
    } else {
      if p :| AppliedBy(log, n, r, p) { assert AppliedBy(log, n + 1, r, p); }
      if p, q :| ProvenBy(log, n, r, p, q) { assert ProvenBy(log, n + 1, r, p, q); }
    }
  }

  /** Checkpoint files written and recorded at `m`, then the last apply at `p`, then a plan without changes at `q`. */
  ghost predicate RestoredThenProven(start: World, log: seq<Event>, r: Root, m: nat, p: nat, q: nat) {
    && r in start.captured && RecordedAt(start, log, m, r) && m < p && ProvenBy(log, |log|, r, p, q)
    && forall k :: Content(start.captured[r], k).Some? ==> Wrote(log, m, start.captured, r, k)
  }

  /** How a converged rollback left one of its roots. */
  ghost predicate Left(start: World, log: seq<Event>, s: Step) {
    match s.action
    case Destroyed => s.root !in Now(start, log).disk
    case Unchanged => Same(start.disk, Now(start, log).disk, s.root)
    case _ => exists m, p, q :: RestoredThenProven(start, log, s.root, m, p, q)
  }

  /**
   * Convergence: when the journal is done, destroyed roots are gone, unchanged ones are as they were at planning,
   * and each restored or recreated root had its checkpoint files on disk before its last apply,
   * which a plan without changes followed.
   */
  lemma ConvergedRollbackReachedCheckpoint(start: World, log: seq<Event>)
    requires Starts(start) && Run(start, log) && Now(start, log).journal.done
    ensures forall s :: s in start.journal.steps && !Host(s) ==> Left(start, log, s)
  {
    RunKeepsInv(start, log);
    assert log[..|log|] == log;
    var w := Now(start, log);
    forall s | s in start.journal.steps && !Host(s) ensures Left(start, log, s) {
      assert StepOK(start, w, s) && Settled(w.journal, s.root);
      if Restores(s) { RestoredRootWasProven(start, log, s); }
    }
  }

  lemma RestoredRootWasProven(start: World, log: seq<Event>, s: Step)
    requires Starts(start) && Run(start, log) && IsProven(Now(start, log), s.root)
    ensures exists m, p, q :: RestoredThenProven(start, log, s.root, m, p, q)
  {
    assert log[..|log|] == log;
    PhaseTellsHistory(start, log, |log|, s.root);
    var p, q :| ProvenBy(log, |log|, s.root, p, q);
    AtNext(start, log, p);
    var m := RecordHasSave(start, log, p, s.root);
    AtNext(start, log, m);
    forall k | Content(start.captured[s.root], k).Some? ensures Wrote(log, m, start.captured, s.root, k) {
      RecordedFilesWereWritten(start, log, m, s.root, k);
    }
    assert RestoredThenProven(start, log, s.root, m, p, q);
  }

  /** Together with the plan: every captured root of the checkpoint equalled it at planning time or
      was rewritten and applied. */
  lemma CapturedRootsConverge(start: World, log: seq<Event>, current: seq<Stack>, target: seq<Stack>, r: Root)
    requires Starts(start) && Run(start, log) && Now(start, log).journal.done
    requires IsPlan(start.journal.steps, start.disk, start.captured, current, target) && DistinctStacks(current)
    requires DistinctStacks(target)
    requires r in start.captured && Named(target, r)
    requires forall s :: s in start.journal.steps && s.root == r ==> !Host(s)
    ensures || (Matches(start.disk, r, start.captured[r]) && Same(start.disk, Now(start, log).disk, r))
            || exists m, p, q :: RestoredThenProven(start, log, r, m, p, q)
  {
    CapturedRootsArePlanned(start.journal.steps, start.disk, start.captured, current, target, r);
    ConvergedRollbackReachedCheckpoint(start, log);
    var s :| s in start.journal.steps && s.root == r;
    assert Left(start, log, s);
  }
}
