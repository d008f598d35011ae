/** Where the results of a dispatch come from: delivered by an attempt, or shown by the journal. */
module DispatchTrace {
  import opened Wrappers
  import opened ExecutionModel
  import opened ApplyJournal
  import opened DispatchProtocol

  function Appended(o: Outcome, r: Result): Outcome { Outcome(o.runtime + r.runtime, o.health + r.health) }

  /** The outcomes of the children, in their order. */
  function Merged(results: seq<Result>): Outcome {
    if results == [] then Outcome([], []) else Appended(Merged(results[..|results| - 1]), results[|results| - 1])
  }

  /** What the journal has shown last; `first` is what it reserved. */
  function Held(x: Setting, first: Snapshot, p: seq<Act>): Snapshot {
    if p != [] && Latest(p).Asked? && x.env.answer(p).Some? then x.env.answer(p).value else first
  }

  /** The last act attempted child `j`, which delivered the result. */
  predicate Delivers(x: Setting, p: seq<Act>, j: nat, r: Result) {
    p != [] && IsAttempt(Latest(p)) && Latest(p).child == j && Came(x.env, p) == Delivered(r)
  }

  /** The snapshot shows the step of child `j` succeeded with this result. */
  ghost predicate ShowsResult(x: Setting, y: Snapshot, j: nat, r: Result)
    requires j < |x.steps|
  {
    exists n :: 0 <= n < |y.steps| && y.steps[n].requestDigest == x.steps[j].requestDigest &&
      y.steps[n].state == Succeeded && y.steps[n].result == Some(r)
  }

  /** At some point of the log an attempt of child `j` delivered the result, or the journal showed it. */
  ghost predicate HasSource(x: Setting, first: Snapshot, p: seq<Act>, j: nat, r: Result)
    requires j < |x.steps|
  {
    || Delivers(x, p, j, r) || ShowsResult(x, Held(x, first, p), j, r)
    || (p != [] && HasSource(x, first, p[..|p| - 1], j, r))
  }

  predicate Tried(p: seq<Act>, j: nat) {
    p != [] && ((IsAttempt(Latest(p)) && Latest(p).child == j) || Tried(p[..|p| - 1], j))
  }

  /** The child has been attempted, or the journal had its result. */
  ghost predicate Handled(x: Setting, first: Snapshot, p: seq<Act>, j: nat)
    requires j < |x.steps|
  {
    Tried(p, j) || exists r :: HasSource(x, first, p, j, r)
  }

  ghost predicate AllHandled(x: Setting, first: Snapshot, p: seq<Act>, i: nat)
    requires i <= |x.steps|
  {
    forall j :: 0 <= j < i ==> Handled(x, first, p, j)
  }

  ghost predicate Sources(x: Setting, first: Snapshot, p: seq<Act>, results: seq<Result>) {
    |results| <= |x.steps| && forall j :: 0 <= j < |results| ==> HasSource(x, first, p, j, results[j])
  }

  /** The outcome consists of exactly one such result for each of the first `i` children. */
  ghost predicate Traced(x: Setting, first: Snapshot, p: seq<Act>, i: nat, o: Outcome) {
    exists results :: |results| == i && Sources(x, first, p, results) && o == Merged(results)
  }

  lemma {:induction false} SourceStays(x: Setting, first: Snapshot, p: seq<Act>, q: seq<Act>, j: nat, r: Result)
    requires j < |x.steps| && p <= q && HasSource(x, first, p, j, r)
    ensures HasSource(x, first, q, j, r)
    decreases |q|
  {
    if p != q { SourceStays(x, first, p, q[..|q| - 1], j, r); }
  }

  lemma {:induction false} TriedLater(p: seq<Act>, q: seq<Act>, j: nat)
    requires p <= q && Tried(p, j)
    ensures Tried(q, j)
    decreases |q|
  {
    if p != q { TriedLater(p, q[..|q| - 1], j); }
  }

  lemma HandledLater(x: Setting, first: Snapshot, p: seq<Act>, q: seq<Act>, i: nat)
    requires i <= |x.steps| && p <= q && AllHandled(x, first, p, i)
    ensures AllHandled(x, first, q, i)
  {
    forall j | 0 <= j < i ensures Handled(x, first, q, j) {
      assert Handled(x, first, p, j);
      if Tried(p, j) {
        TriedLater(p, q, j);
      } else {
        var r :| HasSource(x, first, p, j, r);
        SourceStays(x, first, p, q, j, r);
      }
    }
  }

  lemma TracedLater(x: Setting, first: Snapshot, p: seq<Act>, q: seq<Act>, i: nat, o: Outcome)
    requires p <= q && Traced(x, first, p, i, o)
    ensures Traced(x, first, q, i, o)
  {
    var results :| |results| == i && Sources(x, first, p, results) && o == Merged(results);
    forall j | 0 <= j < i ensures HasSource(x, first, q, j, results[j]) { SourceStays(x, first, p, q, j, results[j]); }
    assert Sources(x, first, q, results);
  }

  lemma MergedNext(results: seq<Result>, r: Result)
    ensures Merged(results + [r]) == Appended(Merged(results), r)
  {
    assert (results + [r])[..|results|] == results;
  }

  lemma {:induction false} SourcesNext(x: Setting, first: Snapshot, p: seq<Act>, results: seq<Result>, r: Result)
    requires Sources(x, first, p, results) && |results| < |x.steps| && HasSource(x, first, p, |results|, r)
    ensures Sources(x, first, p, results + [r])
  {
    var more := results + [r];
    forall j | 0 <= j < |more| ensures HasSource(x, first, p, j, more[j]) {
      if j < |results| { assert more[j] == results[j]; }
    }
  }

  lemma {:induction false} TracedNext(x: Setting, first: Snapshot, p: seq<Act>, i: nat, o: Outcome, r: Result)
    requires i < |x.steps| && Traced(x, first, p, i, o) && HasSource(x, first, p, i, r)
    ensures Traced(x, first, p, i + 1, Appended(o, r))
  {
    var results :| |results| == i && Sources(x, first, p, results) && o == Merged(results);
    SourcesNext(x, first, p, results, r);
    MergedNext(results, r);
    assert |results + [r]| == i + 1;
  }

  lemma TracedNone(x: Setting, first: Snapshot, p: seq<Act>)
    ensures Traced(x, first, p, 0, Outcome([], []))
  {
    assert Sources(x, first, p, []) && Merged([]) == Outcome([], []);
  }
}
