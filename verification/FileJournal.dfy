/** The product's durable journal: one record an operation, an atomic write an event, and a new
    fence for every holder. */
module FileJournal {
  import opened Wrappers
  import opened ExecutionModel
  import opened ApplyOperation
  import opened ApplyJournal
  import opened ApplyRuns
  import opened OperationShape
  import opened StuckRuns

  datatype Record = Record(operation: Operation, fence: string, snapshot: Snapshot)

  /** What becomes of one call: done, refused before the write, or written and then reported as an error. */
  datatype Io = Done | Refused | Late

  predicate Terminal(state: OperationState) { !Open(state) }

  /** Only an operation that can still change keeps a fence. */
  predicate FenceFits(r: Record) { if Terminal(r.snapshot.state) then r.fence == "" else Fence(r.fence) }

  function Advanced(r: Record, y: Snapshot): Record {
    r.(snapshot := y, fence := if Terminal(y.state) then "" else r.fence)
  }

  /** A stored record is well-formed, and some run of accepted events from a new journal led to it. */
  ghost predicate RecordOK(k: Rules, id: string, r: Record) {
    && id == r.operation.operationId && ShapeOK(k, r.operation) && SnapshotOK(k, r.operation, r.snapshot)
    && FenceFits(r) && Reachable(k, r.operation, r.snapshot)
  }

  // ---- One record over time ----

  /** A new holder takes the operation over, or the present one commits or finalises. */
  datatype Action = Reserve(token: string) | Do(e: Event)

  function TokenOf(e: Event): string { if e.Commit? then e.c.fence else e.f.fence }

  ghost predicate Steps(k: Rules, r: Record, a: Action, r': Record) {
    match a
    case Reserve(token) => Open(r.snapshot.state) && Fence(token) && r' == r.(fence := token)
    case Do(e) => exists y :: Accepts(k, r.operation, r.fence, r.snapshot, e, y) && r' == Advanced(r, y)
  }

  ghost predicate History(k: Rules, records: seq<Record>, actions: seq<Action>) {
    && |records| == |actions| + 1
    && forall n :: 0 <= n < |actions| ==> Steps(k, records[n], actions[n], records[n + 1])
  }

  lemma AcceptedTokenIsFence(k: Rules, r: Record, e: Event, r': Record)
    requires Steps(k, r, Do(e), r')
    ensures TokenOf(e) == r.fence && (r'.fence == r.fence || r'.fence == "")
  {
  }

  lemma AcceptedTokenIsProper(k: Rules, r: Record, e: Event, r': Record)
    requires Steps(k, r, Do(e), r')
    ensures Fence(TokenOf(e))
  {
    var y :| Accepts(k, r.operation, r.fence, r.snapshot, e, y) && r' == Advanced(r, y);
    if e.Commit? { var i :| CommitOK(k, r.operation, e.c, i); }
  }

  /** Nobody takes the operation over with token `t` after action `m` and before action `n`. */
  ghost predicate NotReserved(actions: seq<Action>, m: int, n: int, t: string) {
    forall h :: m < h < n && 0 <= h < |actions| ==> actions[h] != Reserve(t)
  }

  lemma {:induction false} LostTokenStaysLost(k: Rules, records: seq<Record>, actions: seq<Action>, m: nat, n: nat,
                                              t: string)
    requires History(k, records, actions) && m < n <= |actions| && actions[m].Reserve? && actions[m].token != t
    requires t != ""
    requires NotReserved(actions, m, n, t)
    ensures records[n].fence != t
    decreases n
  {
    assert Steps(k, records[n - 1], actions[n - 1], records[n]);
    if n - 1 > m {
      LostTokenStaysLost(k, records, actions, m, n - 1, t);
      if actions[n - 1].Do? { AcceptedTokenIsFence(k, records[n - 1], actions[n - 1].e, records[n]); }
    }
  }

  /** Fencing: once another holder has reserved the operation, no event with the old token is ever accepted again. */
  lemma StaleHolderIsRefused(k: Rules, records: seq<Record>, actions: seq<Action>, m: nat, n: nat, t: string)
    requires History(k, records, actions) && m < n < |actions| && actions[m].Reserve? && actions[m].token != t
    requires NotReserved(actions, m, n, t) && actions[n].Do?
    ensures TokenOf(actions[n].e) != t
  {
    assert Steps(k, records[n], actions[n], records[n + 1]);
    AcceptedTokenIsFence(k, records[n], actions[n].e, records[n + 1]);
    AcceptedTokenIsProper(k, records[n], actions[n].e, records[n + 1]);
    if t != "" { LostTokenStaysLost(k, records, actions, m, n, t); }
  }

  /** Taking over changes nothing but the fence, so a record that starts out reachable stays so. */
  lemma StepsKeepRecord(k: Rules, id: string, r: Record, a: Action, r': Record)
    requires RecordOK(k, id, r) && Steps(k, r, a, r')
    ensures RecordOK(k, id, r')
  {
    if a.Do? {
      var y :| Accepts(k, r.operation, r.fence, r.snapshot, a.e, y) && r' == Advanced(r, y);
      ReachableStep(k, r.operation, r.fence, r.snapshot, a.e, y);
    }
  }

  /** A final record is frozen: nobody takes it over and no event, not even a repeated finalisation, is accepted. */
  lemma FinalRecordIsFrozen(k: Rules, id: string, r: Record, a: Action, r': Record)
    requires RecordOK(k, id, r) && Terminal(r.snapshot.state)
    ensures !Steps(k, r, a, r')
  {
    if a.Do? && Steps(k, r, a, r') {
      AcceptedTokenIsFence(k, r, a.e, r');
      AcceptedTokenIsProper(k, r, a.e, r');
    }
  }

  lemma CommittedStepMoved(k: Rules, r: Record, c: StepCommit, r': Record, i: nat)
    requires IdsSorted(r.operation) && Steps(k, r, Do(Commit(c)), r') && Names(r.operation, c, i)
    ensures |r'.snapshot.steps| == |r.operation.steps| && r'.operation == r.operation
    ensures r'.snapshot.steps[i].state == c.state != c.expected
  {
    var y :| Accepts(k, r.operation, r.fence, r.snapshot, Commit(c), y) && r' == Advanced(r, y);
    NamedIsFound(r.operation, c);
  }

  /** Whether or not its write was reported, a commit repeated at once is refused: its step has
      left the expected state. */
  lemma RepeatedCommitIsRefused(k: Rules, r: Record, c: StepCommit, r': Record, r'': Record)
    requires IdsSorted(r.operation) && Steps(k, r, Do(Commit(c)), r')
    ensures !Steps(k, r', Do(Commit(c)), r'')
  {
    if Steps(k, r', Do(Commit(c)), r'') {
      var y :| Accepts(k, r'.operation, r'.fence, r'.snapshot, Commit(c), y) && r'' == Advanced(r', y);
      var i :| CommitOK(k, r'.operation, c, i) && r'.snapshot.steps[i].state == c.expected;
      CommittedStepMoved(k, r, c, r', i);
    }
  }

  lemma ShapeSortsIds(k: Rules, o: Operation)
    requires ShapeOK(k, o)
    ensures IdsSorted(o)
  {
    AcceptedIdsSorted(o);
  }

  // ---- Which events a record takes ----

  /** The checks of `CommitStep` on the record and the step the search finds. */
  ghost predicate TakesCommit(k: Rules, r: Record, c: StepCommit)
    requires |r.snapshot.steps| == |r.operation.steps|
  {
    var i := Sought(r.operation, c);
    && r.fence == c.fence && CommitOK(k, r.operation, c, i) && r.snapshot.steps[i].state == c.expected
    && SnapshotOK(k, r.operation, Committed(r.snapshot, i, c))
  }

  ghost predicate TakesFinalization(k: Rules, r: Record, f: Finalization) {
    && r.fence == f.fence && r.snapshot.state == f.expected && FinalizationOK(r.operation, f)
    && SnapshotOK(k, r.operation, r.snapshot.(state := f.state))
  }

  /** In a sorted operation only the step the search finds can be meant. */
  lemma OnlySought(k: Rules, o: Operation, c: StepCommit)
    requires IdsSorted(o)
    ensures forall i :: CommitOK(k, o, c, i) ==> i == Sought(o, c)
  {
    NamedIsFound(o, c);
  }

  lemma TakenCommitIsStep(k: Rules, r: Record, c: StepCommit)
    requires |r.snapshot.steps| == |r.operation.steps| && FenceFits(r) && TakesCommit(k, r, c)
    ensures Steps(k, r, Do(Commit(c)), Advanced(r, Committed(r.snapshot, Sought(r.operation, c), c)))
  {
    var y := Committed(r.snapshot, Sought(r.operation, c), c);
    assert Accepts(k, r.operation, r.fence, r.snapshot, Commit(c), y);
  }

  lemma StepIsTakenCommit(k: Rules, r: Record, c: StepCommit, r': Record)
    requires |r.snapshot.steps| == |r.operation.steps| && IdsSorted(r.operation) && Steps(k, r, Do(Commit(c)), r')
    ensures TakesCommit(k, r, c)
  {
    var y :| Accepts(k, r.operation, r.fence, r.snapshot, Commit(c), y) && r' == Advanced(r, y);
    OnlySought(k, r.operation, c);
  }

  lemma TakenFinalizationIsStep(k: Rules, r: Record, f: Finalization)
    requires |r.snapshot.steps| == |r.operation.steps| && TakesFinalization(k, r, f)
    ensures Steps(k, r, Do(Finish(f)), Advanced(r, r.snapshot.(state := f.state)))
  {
    assert Accepts(k, r.operation, r.fence, r.snapshot, Finish(f), r.snapshot.(state := f.state));
  }

  /** A record takes an event by these checks exactly when some step of the record's life is that event. */
  lemma TakesExactly(k: Rules, id: string, r: Record, e: Event)
    requires RecordOK(k, id, r)
    ensures (exists r' :: Steps(k, r, Do(e), r')) <==>
      match e case Commit(c) => TakesCommit(k, r, c) case Finish(f) => TakesFinalization(k, r, f)
  {
    ShapeSortsIds(k, r.operation);
    match e
    case Commit(c) =>
      if TakesCommit(k, r, c) { TakenCommitIsStep(k, r, c); }
      if r' :| Steps(k, r, Do(e), r') { StepIsTakenCommit(k, r, c, r'); }
    case Finish(f) =>
      if TakesFinalization(k, r, f) { TakenFinalizationIsStep(k, r, f); }
  }

  // ---- The journal ----

  type Store = map<string, Record>

  /** The operation is stored, in an open or in a terminal state. */
  predicate StoredOpen(m: Store, o: Operation) {
    o.operationId in m && m[o.operationId].operation == o && Open(m[o.operationId].snapshot.state)
  }

  predicate StoredTerminal(m: Store, o: Operation) {
    o.operationId in m && m[o.operationId].operation == o && Terminal(m[o.operationId].snapshot.state)
  }

  /** How `Begin` answers a journal that holds `m`: decided by what is stored, with exactly the stored snapshot. */
  predicate Answered(m: Store, o: Operation, token: string, a: Reservation) {
    && (a.disposition == Acquired <==> o.operationId !in m)
    && (a.disposition == Conflict <==> o.operationId in m && m[o.operationId].operation != o)
    && (a.disposition == Resume <==> StoredOpen(m, o)) && (a.disposition == Replay <==> StoredTerminal(m, o))
    && a.disposition != InProgress
    && (a.disposition in {Acquired, Resume} ==> a.fence == token)
    && (a.disposition in {Replay, Conflict} ==> a.fence == "")
    && (a.disposition in {Acquired, Conflict} ==> a.snapshot == None)
    && (a.disposition in {Resume, Replay} ==> a.snapshot == Some(m[o.operationId].snapshot))
  }

  /** What `Begin` writes: a new record with every step pending, or a new fence for an open operation. */
  predicate Begun(m: Store, o: Operation, token: string, m': Store) {
    var id := o.operationId;
    && (id !in m ==> id in m' && m' == m[id := m'[id]] && IsNew(o, token, m'[id]))
    && (StoredOpen(m, o) ==> m' == m[id := m[id].(fence := token)])
    && (id in m && !StoredOpen(m, o) ==> m' == m)
  }

  predicate IsNew(o: Operation, token: string, r: Record) {
    && r.operation == o && r.fence == token && r.snapshot.operationId == o.operationId && r.snapshot.state == Active
    && |r.snapshot.steps| == |o.steps|
    && forall i :: 0 <= i < |o.steps| ==>
         r.snapshot.steps[i] == StepSnapshot(o.steps[i].id, o.steps[i].requestDigest, Pending, None, "", "")
  }

  /** One call on the journal. */
  datatype Call = Begins(o: Operation, token: string) | Takes(e: Event)

  function IdOf(e: Event): string { if e.Commit? then e.c.operationId else e.f.operationId }

  ghost predicate TakenEvent(k: Rules, m: Store, e: Event, m': Store) {
    && IdOf(e) in m && IdOf(e) in m' && m' == m[IdOf(e) := m'[IdOf(e)]]
    && Steps(k, m[IdOf(e)], Do(e), m'[IdOf(e)])
  }

  /** What a call may do to the journal; a refused one changes nothing. */
  ghost predicate StoreStep(k: Rules, m: Store, c: Call, m': Store) {
    m' == m || match c
      case Begins(o, token) => ShapeOK(k, o) && Fence(token) && Begun(m, o, token, m')
      case Takes(e) => TakenEvent(k, m, e, m')
  }

  ghost predicate RecordsOK(k: Rules, records: Store) {
    forall id :: id in records ==> RecordOK(k, id, records[id])
  }

  lemma NewRecordIsOK(k: Rules, o: Operation, token: string)
    requires ShapeOK(k, o) && Fence(token)
    ensures RecordOK(k, o.operationId, Record(o, token, InitialSnapshot(o)))
  {
    InitialIsReachable(k, o);
  }

  lemma TakenOverIsOK(k: Rules, id: string, r: Record, token: string)
    requires RecordOK(k, id, r) && Open(r.snapshot.state) && Fence(token)
    ensures RecordOK(k, id, r.(fence := token)) && Steps(k, r, Reserve(token), r.(fence := token))
  {
  }

  /** Every answer passes the reservation check of the dispatcher. */
  lemma AnswerIsValid(k: Rules, m: Store, o: Operation, token: string, a: Reservation)
    requires RecordsOK(k, m) && Fence(token) && Answered(m, o, token, a)
    ensures ReservationOK(k, o, a)
  {
    if o.operationId in m { assert RecordOK(k, o.operationId, m[o.operationId]); }
  }

  /** All files of the journal directory, by operation id. */
  class Journal {
    const k: Rules
    var records: Store

    constructor (k: Rules)
      requires TokensAreNulFree(k)
      ensures Valid() && this.k == k && records == map[]
    {
      this.k, records := k, map[];
    }

    ghost predicate Valid()
      reads this
    {
      TokensAreNulFree(k) && RecordsOK(k, records)
    }

    /** The one durable write: it happens completely or not at all, and its caller may still be told it failed. */
    method Write(id: string, r: Record, io: Io) returns (told: bool)
      requires Valid() && RecordOK(k, id, r)
      modifies this`records
      ensures Valid() && records == (if io.Refused? then old(records) else old(records)[id := r])
      ensures told <==> io.Done?
    {
      if !io.Refused? { records := records[id := r]; }
      return io.Done?;
    }

    /** Acquires, resumes under a new fence, replays or refuses an operation; `token` is freshly drawn. */
    method Begin(o: Operation, token: string, io: Io) returns (answer: Option<Reservation>)
      requires Valid() && Fence(token)
      modifies this`records
      ensures Valid()
      ensures answer.Some? <==> ShapeOK(k, o) && io.Done?
      ensures answer.Some? ==> Answered(old(records), o, token, answer.value) && ReservationOK(k, o, answer.value)
      ensures if ShapeOK(k, o) && !io.Refused? then Begun(old(records), o, token, records) else records == old(records)
    {
      var shaped := ValidateOperationShape(k, o);
      if !shaped { return None; }
      var id := o.operationId;
      var a, told;
      if id !in records {
        a := Reservation(Acquired, token, None);
        AnswerIsValid(k, records, o, token, a);
        NewRecordIsOK(k, o, token);
        told := Write(id, Record(o, token, InitialSnapshot(o)), io);
        return if told then Some(a) else None;
      }
      var r := records[id];
      if r.operation != o {
        a := Reservation(Conflict, "", None);
        return if io.Done? then Some(a) else None;
      }
      if Terminal(r.snapshot.state) {
        a := Reservation(Replay, "", Some(r.snapshot));
        AnswerIsValid(k, records, o, token, a);
        return if io.Done? then Some(a) else None;
      }
      a := Reservation(Resume, token, Some(r.snapshot));
      AnswerIsValid(k, records, o, token, a);
      TakenOverIsOK(k, id, r, token);
      told := Write(id, r.(fence := token), io);
      return if told then Some(a) else None;
    }

    /** The event, if it is accepted, is what became of the one record it names. */
    ghost predicate Accepted(id: string, e: Event)
      reads this
    {
      id in records && exists r' :: Steps(k, records[id], Do(e), r')
    }

    method CommitStep(c: StepCommit, io: Io) returns (answer: Option<Snapshot>)
      requires Valid()
      modifies this`records
      ensures Valid()
      ensures answer.Some? <==> old(Accepted(c.operationId, Commit(c))) && io.Done?
      ensures if old(Accepted(c.operationId, Commit(c))) && !io.Refused?
        then TakenEvent(k, old(records), Commit(c), records)
        else records == old(records)
      ensures answer.Some? ==> c.operationId in records && answer.value == records[c.operationId].snapshot
    {
      if c.operationId !in records { return None; }
      var r := records[c.operationId];
      TakesExactly(k, c.operationId, r, Commit(c));
      var accepted, y := TryCommit(r, c);
      if !accepted { return None; }
      TakenCommitIsStep(k, r, c);
      StepsKeepRecord(k, c.operationId, r, Do(Commit(c)), Advanced(r, y));
      var told := Write(c.operationId, Advanced(r, y), io);
      return if told then Some(y) else None;
    }

    /** Fence, commit, compare and set, derive the state, validate. */
    method TryCommit(r: Record, c: StepCommit) returns (accepted: bool, y: Snapshot)
      requires TokensAreNulFree(k) && |r.snapshot.steps| == |r.operation.steps|
      ensures accepted <==> TakesCommit(k, r, c)
      ensures accepted ==> y == Committed(r.snapshot, Sought(r.operation, c), c)
    {
      y := r.snapshot;
      if r.fence != c.fence { return false, y; }
      var fine, index := ValidateStepCommit(k, r.operation, c);
      if !fine { return false, y; }
      if r.snapshot.steps[index].state != c.expected { return false, y; }
      var steps := r.snapshot.steps[index := Recorded(c)];
      var state := OperationStateForSteps(steps);
      y := r.snapshot.(state := state, steps := steps);
      accepted := ValidateSnapshot(k, r.operation, y);
    }

    method Finalize(f: Finalization, io: Io) returns (answer: Option<Snapshot>)
      requires Valid()
      modifies this`records
      ensures Valid()
      ensures answer.Some? <==> old(Accepted(f.operationId, Finish(f))) && io.Done?
      ensures if old(Accepted(f.operationId, Finish(f))) && !io.Refused?
        then TakenEvent(k, old(records), Finish(f), records)
        else records == old(records)
      ensures answer.Some? ==> f.operationId in records && answer.value == records[f.operationId].snapshot
    {
      if f.operationId !in records { return None; }
      var r := records[f.operationId];
      TakesExactly(k, f.operationId, r, Finish(f));
      var accepted, y := TryFinalize(r, f);
      if !accepted { return None; }
      TakenFinalizationIsStep(k, r, f);
      StepsKeepRecord(k, f.operationId, r, Do(Finish(f)), Advanced(r, y));
      var told := Write(f.operationId, Advanced(r, y), io);
      return if told then Some(y) else None;
    }

    method TryFinalize(r: Record, f: Finalization) returns (accepted: bool, y: Snapshot)
      requires TokensAreNulFree(k) && |r.snapshot.steps| == |r.operation.steps|
      ensures accepted <==> TakesFinalization(k, r, f)
      ensures accepted ==> y == r.snapshot.(state := f.state)
    {
      y := r.snapshot;
      if r.fence != f.fence || r.snapshot.state != f.expected { return false, y; }
      var fine := ValidateFinalization(r.operation, f);
      if !fine { return false, y; }
      y := r.snapshot.(state := f.state);
      accepted := ValidateSnapshot(k, r.operation, y);
    }
  }
}
