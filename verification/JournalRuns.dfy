/** The durable journal reaches exactly what runs of accepted events reach, so their laws are laws of its records. */
module JournalRuns {
  import opened ExecutionModel
  import opened ApplyOperation
  import opened ApplyJournal
  import opened ApplyRuns
  import opened StuckRuns
  import opened FileJournal

  function LastRecord(records: seq<Record>): Record
    requires |records| > 0
  {
    records[|records| - 1]
  }

  /** Some run of accepted events leads from `x` to `y`. */
  ghost predicate Leads(k: Rules, o: Operation, x: Snapshot, y: Snapshot) {
    exists trace, events :: Runs(k, o, trace, events) && trace[0] == x && Last(trace) == y
  }

  /** The life of one record, from `r` to `r'`. */
  ghost predicate Lives(k: Rules, r: Record, records: seq<Record>, actions: seq<Action>, r': Record) {
    History(k, records, actions) && records[0] == r && LastRecord(records) == r'
  }

  lemma LeadsNowhere(k: Rules, o: Operation, x: Snapshot)
    ensures Leads(k, o, x, x)
  {
    assert Runs(k, o, [x], []) && [x][0] == x && Last([x]) == x;
  }

  lemma LeadsOn(k: Rules, o: Operation, x: Snapshot, y: Snapshot, e: Event, z: Snapshot)
    requires Leads(k, o, x, y) && Moves(k, o, y, e, z)
    ensures Leads(k, o, x, z)
  {
    var trace, events :| Runs(k, o, trace, events) && trace[0] == x && Last(trace) == y;
    RunsAppend(k, o, trace, events, e, z);
    assert (trace + [z])[0] == x && Last(trace + [z]) == z;
  }

  // ---- Every life is a run ----

  lemma StepLeads(k: Rules, r: Record, a: Action, r': Record)
    requires Steps(k, r, a, r')
    ensures r'.operation == r.operation
    ensures r'.snapshot == r.snapshot || exists e :: Moves(k, r.operation, r.snapshot, e, r'.snapshot)
  {
    if a.Do? {
      var y :| Accepts(k, r.operation, r.fence, r.snapshot, a.e, y) && r' == Advanced(r, y);
      assert Moves(k, r.operation, r.snapshot, a.e, y);
    }
  }

  lemma HistoryPrefix(k: Rules, records: seq<Record>, actions: seq<Action>)
    requires History(k, records, actions) && actions != []
    ensures var n := |actions| - 1;
      History(k, records[..n + 1], actions[..n]) && Steps(k, records[n], actions[n], records[n + 1])
  {
  }

  lemma {:induction false} LifeIsRun(k: Rules, records: seq<Record>, actions: seq<Action>)
    requires History(k, records, actions)
    ensures LastRecord(records).operation == records[0].operation
    ensures Leads(k, records[0].operation, records[0].snapshot, LastRecord(records).snapshot)
    decreases |actions|
  {
    var o := records[0].operation;
    if actions == [] {
      LeadsNowhere(k, o, records[0].snapshot);
    } else {
      var n := |actions| - 1;
      HistoryPrefix(k, records, actions);
      LifeIsRun(k, records[..n + 1], actions[..n]);
      StepLeads(k, records[n], actions[n], records[n + 1]);
      var x, y := records[n].snapshot, records[n + 1].snapshot;
      if e :| Moves(k, o, x, e, y) { LeadsOn(k, o, records[0].snapshot, x, e, y); }
    }
  }

  // ---- Every run is a life ----

  lemma HistoryExtends(k: Rules, records: seq<Record>, actions: seq<Action>, a: Action, r: Record)
    requires History(k, records, actions) && Steps(k, LastRecord(records), a, r)
    ensures History(k, records + [r], actions + [a])
  {
    var rs, acts := records + [r], actions + [a];
    forall n | 0 <= n < |acts| ensures Steps(k, rs[n], acts[n], rs[n + 1]) {
      if n < |actions| { assert rs[n] == records[n] && rs[n + 1] == records[n + 1] && acts[n] == actions[n]; }
    }
  }

  /** Whatever token an event carries, its holder can first take the operation over and then have it accepted. */
  lemma MoveIsLived(k: Rules, r: Record, records: seq<Record>, actions: seq<Action>, r': Record, e: Event, y: Snapshot)
    returns (more: seq<Record>, longer: seq<Action>, r'': Record)
    requires Lives(k, r, records, actions, r') && Moves(k, r'.operation, r'.snapshot, e, y) && FenceFits(r')
    ensures Lives(k, r, more, longer, r'') && r''.snapshot == y && r''.operation == r'.operation && FenceFits(r'')
  {
    var fence :| Accepts(k, r'.operation, fence, r'.snapshot, e, y);
    if Terminal(r'.snapshot.state) {
      FinalIsFinal(k, r'.operation, r'.snapshot, e, y);
      more, longer, r'' := records, actions, r';
    } else {
      assert Fence(fence);
      var held := r'.(fence := fence);
      HistoryExtends(k, records, actions, Reserve(fence), held);
      assert Accepts(k, held.operation, held.fence, held.snapshot, e, y);
      r'' := Advanced(held, y);
      HistoryExtends(k, records + [held], actions + [Reserve(fence)], Do(e), r'');
      more, longer := records + [held] + [r''], actions + [Reserve(fence)] + [Do(e)];
    }
  }

  lemma {:induction false} RunIsLived(k: Rules, r: Record, trace: seq<Snapshot>, events: seq<Event>)
    returns (records: seq<Record>, actions: seq<Action>, r': Record)
    requires Runs(k, r.operation, trace, events) && trace[0] == r.snapshot && FenceFits(r)
    ensures Lives(k, r, records, actions, r') && r'.snapshot == Last(trace) && r'.operation == r.operation
    ensures FenceFits(r')
    decreases |events|
  {
    if events == [] {
      records, actions, r' := [r], [], r;
    } else {
      var n := |events| - 1;
      RunsPrefix(k, r.operation, trace, events);
      records, actions, r' := RunIsLived(k, r, trace[..n + 1], events[..n]);
      records, actions, r' := MoveIsLived(k, r, records, actions, r', events[n], trace[n + 1]);
    }
  }

  /** The record of a new operation. */
  function NewRecord(o: Operation, token: string): Record { Record(o, token, InitialSnapshot(o)) }

  /** The durable journal of an operation can hold a snapshot exactly when some run of accepted events reaches it. */
  lemma JournalHoldsExactly(k: Rules, o: Operation, token: string, x: Snapshot)
    requires Fence(token)
    ensures (exists records, actions, r :: Lives(k, NewRecord(o, token), records, actions, r) && r.snapshot == x) <==>
      Reachable(k, o, x)
  {
    if records, actions, r :| Lives(k, NewRecord(o, token), records, actions, r) && r.snapshot == x {
      LifeIsRun(k, records, actions);
    }
    if Reachable(k, o, x) {
      var trace, events :| Runs(k, o, trace, events) && trace[0] == InitialSnapshot(o) && Last(trace) == x;
      var records, actions, r := RunIsLived(k, NewRecord(o, token), trace, events);
    }
  }

  /** A stuck record stays open for good: whoever takes it over, no event ever ends its operation. */
  lemma StuckRecordNeverEnds(k: Rules, records: seq<Record>, actions: seq<Action>)
    requires History(k, records, actions) && Stuck(k, records[0].operation, records[0].snapshot)
    ensures LastRecord(records).snapshot.state == ReconcileRequired
  {
    var o, x := records[0].operation, records[0].snapshot;
    LifeIsRun(k, records, actions);
    var trace, events :| Runs(k, o, trace, events) && trace[0] == x && Last(trace) == LastRecord(records).snapshot;
    CompensationIsPointOfNoReturn(k, o, trace, events);
  }
}
