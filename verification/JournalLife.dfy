/** The durable journal over its whole life: what stays of a finished operation, whatever is called afterwards. */
module JournalLife {
  import opened Wrappers
  import opened ExecutionModel
  import opened ApplyOperation
  import opened ApplyCoverage
  import opened ApplyJournal
  import opened ApplyRuns
  import opened ApplyReplay
  import opened OperationShape
  import opened FileJournal

  ghost predicate StoreRun(k: Rules, stores: seq<Store>, calls: seq<Call>) {
    && |stores| == |calls| + 1 && RecordsOK(k, stores[0])
    && forall n :: 0 <= n < |calls| ==> StoreStep(k, stores[n], calls[n], stores[n + 1])
  }

  lemma NewIsInitial(o: Operation, token: string, r: Record)
    requires IsNew(o, token, r)
    ensures r == Record(o, token, InitialSnapshot(o))
  {
    assert r.snapshot.steps == InitialSnapshot(o).steps;
  }

  lemma BegunKeepsRecords(k: Rules, m: Store, o: Operation, token: string, m': Store)
    requires RecordsOK(k, m) && ShapeOK(k, o) && Fence(token) && Begun(m, o, token, m')
    ensures RecordsOK(k, m')
  {
    var id := o.operationId;
    if id !in m {
      NewIsInitial(o, token, m'[id]);
      NewRecordIsOK(k, o, token);
    } else if StoredOpen(m, o) {
      TakenOverIsOK(k, id, m[id], token);
    }
  }

  lemma StepKeepsRecords(k: Rules, m: Store, c: Call, m': Store)
    requires RecordsOK(k, m) && StoreStep(k, m, c, m')
    ensures RecordsOK(k, m')
  {
    if m' != m {
      match c
      case Begins(o, token) => BegunKeepsRecords(k, m, o, token, m');
      case Takes(e) => StepsKeepRecord(k, IdOf(e), m[IdOf(e)], Do(e), m'[IdOf(e)]);
    }
  }

  lemma {:induction false} RunKeepsRecords(k: Rules, stores: seq<Store>, calls: seq<Call>, n: nat)
    requires StoreRun(k, stores, calls) && n < |stores|
    ensures RecordsOK(k, stores[n])
    decreases n
  {
    if n > 0 {
      RunKeepsRecords(k, stores, calls, n - 1);
      StepKeepsRecords(k, stores[n - 1], calls[n - 1], stores[n]);
    }
  }

  ghost predicate Keeps(m: Store, id: string, r: Record) { id in m && m[id] == r }

  lemma BegunKeepsTerminal(m: Store, o: Operation, token: string, m': Store, id: string, r: Record)
    requires Begun(m, o, token, m') && Keeps(m, id, r) && Terminal(r.snapshot.state)
    ensures Keeps(m', id, r)
  {
  }

  lemma TakenKeepsTerminal(k: Rules, m: Store, e: Event, m': Store, id: string, r: Record)
    requires RecordsOK(k, m) && TakenEvent(k, m, e, m') && Keeps(m, id, r) && Terminal(r.snapshot.state)
    ensures Keeps(m', id, r)
  {
    if IdOf(e) == id { FinalRecordIsFrozen(k, id, r, Do(e), m'[id]); }
  }

  lemma TerminalRecordStays(k: Rules, m: Store, c: Call, m': Store, id: string, r: Record)
    requires RecordsOK(k, m) && StoreStep(k, m, c, m') && Keeps(m, id, r) && Terminal(r.snapshot.state)
    ensures Keeps(m', id, r)
  {
    if m' != m {
      match c
      case Begins(o, token) => BegunKeepsTerminal(m, o, token, m', id, r);
      case Takes(e) => TakenKeepsTerminal(k, m, e, m', id, r);
    }
  }

  lemma FinishedStaysOnce(k: Rules, stores: seq<Store>, calls: seq<Call>, n: nat, id: string, r: Record)
    requires StoreRun(k, stores, calls) && n < |calls| && Keeps(stores[n], id, r) && Terminal(r.snapshot.state)
    ensures Keeps(stores[n + 1], id, r)
  {
    RunKeepsRecords(k, stores, calls, n);
    TerminalRecordStays(k, stores[n], calls[n], stores[n + 1], id, r);
  }

  /** The record of a finished operation never changes again. */
  lemma {:induction false} FinishedStays(k: Rules, stores: seq<Store>, calls: seq<Call>, m: nat, n: nat, id: string,
                                         r: Record)
    requires StoreRun(k, stores, calls) && m <= n < |stores| && Keeps(stores[m], id, r) && Terminal(r.snapshot.state)
    ensures Keeps(stores[n], id, r)
    decreases n
  {
    if m < n {
      FinishedStays(k, stores, calls, m, n - 1, id, r);
      FinishedStaysOnce(k, stores, calls, n - 1, id, r);
    }
  }

  /** Call `m` was a finalisation to a terminal state, and it was written. */
  ghost predicate FinalisedAt(k: Rules, stores: seq<Store>, calls: seq<Call>, m: nat, f: Finalization) {
    && m < |calls| && m + 1 < |stores| && calls[m] == Takes(Finish(f)) && Terminal(f.state)
    && TakenEvent(k, stores[m], Finish(f), stores[m + 1])
  }

  lemma FinalisedIsTerminal(k: Rules, stores: seq<Store>, calls: seq<Call>, m: nat, f: Finalization)
    requires FinalisedAt(k, stores, calls, m, f)
    ensures f.operationId in stores[m] && f.operationId in stores[m + 1]
    ensures stores[m + 1][f.operationId].operation == stores[m][f.operationId].operation
    ensures stores[m + 1][f.operationId].snapshot == stores[m][f.operationId].snapshot.(state := f.state)
  {
  }

  /** After a finalisation, every later `Begin` of that operation answers with exactly the finalised snapshot. */
  lemma FinalisedIsReplayed(k: Rules, stores: seq<Store>, calls: seq<Call>, m: nat, n: nat, f: Finalization,
                            token: string, a: Reservation)
    requires StoreRun(k, stores, calls) && FinalisedAt(k, stores, calls, m, f) && m < n < |stores|
    requires f.operationId in stores[m] && stores[m][f.operationId].operation.operationId == f.operationId
    requires Answered(stores[n], stores[m][f.operationId].operation, token, a)
    ensures a == Reservation(Replay, "", Some(stores[m][f.operationId].snapshot.(state := f.state)))
  {
    FinalisedIsTerminal(k, stores, calls, m, f);
    FinishedStays(k, stores, calls, m + 1, n, f.operationId, stores[m + 1][f.operationId]);
  }

  /** So a completed operation is replayed for ever, and its replay proves its parent. */
  lemma CompletedIsReplayedForEver(k: Rules, s: Sorts, parent: Request, stores: seq<Store>, calls: seq<Call>, m: nat,
                                   n: nat, f: Finalization, token: string, a: Reservation)
    requires StoreRun(k, stores, calls) && FinalisedAt(k, stores, calls, m, f) && m < n < |stores|
    requires f.state == OperationState.Completed && f.operationId in stores[m] && Fence(token)
    requires OperationAccepted(k, s, parent, stores[m][f.operationId].operation)
    requires Answered(stores[n], stores[m][f.operationId].operation, token, a)
    ensures a == Reservation(Replay, "", Some(stores[m][f.operationId].snapshot.(state := OperationState.Completed)))
    ensures CompletedReplay(k, s, parent, stores[m][f.operationId].operation, a)
  {
    RunKeepsRecords(k, stores, calls, m);
    RunKeepsRecords(k, stores, calls, n);
    assert RecordOK(k, f.operationId, stores[m][f.operationId]);
    FinalisedIsReplayed(k, stores, calls, m, n, f, token, a);
    AnswerIsValid(k, stores[n], stores[m][f.operationId].operation, token, a);
  }
}
