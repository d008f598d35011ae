/** Sorts of the assumed kind exist: insertion sort, for every order the records are sorted by. */
module SortWitness {
  import opened Ordering
  import opened ExecutionModel
  import opened ApplyOperation

  function Insert<T>(x: T, s: seq<T>, less: (T, T) -> bool): seq<T> {
    if s == [] then [x] else if less(x, s[0]) then [x] + s else [s[0]] + Insert(x, s[1..], less)
  }

  function InsertionSort<T>(s: seq<T>, less: (T, T) -> bool): seq<T> {
    if s == [] then [] else Insert(s[0], InsertionSort(s[1..], less), less)
  }

  /** A strict order in which incomparable elements are interchangeable. */
  ghost predicate WeakOrder<T(!new)>(less: (T, T) -> bool) {
    && (forall a, b :: less(a, b) ==> !less(b, a))
    && (forall a, b, c :: !less(b, a) && !less(c, b) ==> !less(c, a))
  }

  lemma {:induction false} InsertKeepsOrder<T(!new)>(x: T, s: seq<T>, less: (T, T) -> bool)
    requires WeakOrder(less) && Sorted(s, less)
    ensures multiset(Insert(x, s, less)) == multiset(s) + multiset{x}
    ensures Sorted(Insert(x, s, less), less)
  {
    if s != [] {
      assert s == [s[0]] + s[1..];
      if less(x, s[0]) {
        forall e | e in s ensures !less(e, x) { HeadIsLeast(s, less, e); }
        PrependSorts(x, s, less);
      } else {
        forall i, j | 0 <= i < j < |s| - 1 ensures !less(s[1..][j], s[1..][i]) { assert !less(s[j + 1], s[i + 1]); }
        InsertKeepsOrder(x, s[1..], less);
        var rest := Insert(x, s[1..], less);
        forall e | e in rest ensures !less(e, s[0]) {
          assert e in multiset(rest);
          if e != x { assert e in s; HeadIsLeast(s, less, e); }
        }
        PrependSorts(s[0], rest, less);
      }
    }
  }

  lemma HeadIsLeast<T(!new)>(s: seq<T>, less: (T, T) -> bool, e: T)
    requires WeakOrder(less) && Sorted(s, less) && e in s
    ensures !less(e, s[0])
  {
    var i :| 0 <= i < |s| && s[i] == e;
  }

  lemma PrependSorts<T(!new)>(x: T, s: seq<T>, less: (T, T) -> bool)
    requires Sorted(s, less) && forall e :: e in s ==> !less(e, x)
    requires !less(x, x)
    ensures Sorted([x] + s, less)
  {
  }

  lemma {:induction false} InsertionSortSorts<T(!new)>(s: seq<T>, less: (T, T) -> bool)
    requires WeakOrder(less)
    ensures multiset(InsertionSort(s, less)) == multiset(s) && Sorted(InsertionSort(s, less), less)
  {
    if s != [] {
      assert s == [s[0]] + s[1..];
      InsertionSortSorts(s[1..], less);
      InsertKeepsOrder(s[0], InsertionSort(s[1..], less), less);
    }
  }

  lemma LessIsWeak()
    ensures WeakOrder(Less) && WeakOrder(PairLess) && WeakOrder(IntLess)
  {
    forall a, b | Less(a, b) ensures !Less(b, a) { LessAsymmetric(a, b); }
    forall a, b, c | !Less(b, a) && !Less(c, b) ensures !Less(c, a) { NotLessTransitive(a, b, c); }
    forall p, q | PairLess(p, q) ensures !PairLess(q, p) { PairLessAsymmetric(p, q); }
    forall p, q, r | !PairLess(q, p) && !PairLess(r, q) ensures !PairLess(r, p) {
      PairLessTotal(p, q);
      PairLessTotal(q, r);
      if PairLess(r, p) {
        PairLessAsymmetric(r, p);
        if PairLess(p, q) && PairLess(q, r) { PairLessTransitive(p, q, r); }
      }
    }
  }

  lemma NotLessTransitive(a: string, b: string, c: string)
    requires !Less(b, a) && !Less(c, b)
    ensures !Less(c, a)
  {
    LessTotal(a, b);
    LessTotal(b, c);
    LessIrreflexive(a);
    if Less(a, b) && Less(b, c) { LessTransitive(a, b, c); }
    if Less(a, c) { LessAsymmetric(a, c); }
  }

  lemma PairLessAsymmetric(p: (string, string), q: (string, string))
    requires PairLess(p, q)
    ensures !PairLess(q, p) && p != q
  {
    LessIrreflexive(p.0);
    LessIrreflexive(p.1);
    if Less(p.0, q.0) { LessAsymmetric(p.0, q.0); } else { LessAsymmetric(p.1, q.1); }
  }

  /** An order read off a key is as weak as the order of the keys. */
  lemma KeyedIsWeak<T(!new), K(!new)>(less: (T, T) -> bool, key: T -> K, keyLess: (K, K) -> bool)
    requires WeakOrder(keyLess) && forall a, b :: less(a, b) <==> keyLess(key(a), key(b))
    ensures WeakOrder(less)
  {
  }

  function SomeSorts(): Sorts {
    Sorts(
      (s: seq<string>) => InsertionSort(s, Less), (s: seq<int>) => InsertionSort(s, IntLess),
      (s: seq<DaemonTarget>) => InsertionSort(s, DaemonLess), (s: seq<Capability>) => InsertionSort(s, CapabilityLess),
      (s: seq<Agent>) => InsertionSort(s, AgentLess), (s: seq<RuntimeTarget>) => InsertionSort(s, TargetLess),
      (s: seq<HealthTarget>) => InsertionSort(s, HealthLess), (s: seq<Binding>) => InsertionSort(s, BindingLess),
      (s: seq<Artifact>) => InsertionSort(s, ArtifactLess))
  }

  function SomeStepSorts(): StepSorts {
    StepSorts((s: seq<Expectation>) => InsertionSort(s, ByRequirement), (s: seq<Step>) => InsertionSort(s, ByStepId))
  }

  lemma InsertionSortsBy<T(!new)>(sort: seq<T> -> seq<T>, less: (T, T) -> bool)
    requires WeakOrder(less) && forall s :: sort(s) == InsertionSort(s, less)
    ensures SortsBy(sort, less)
  {
    forall s ensures multiset(sort(s)) == multiset(s) && Sorted(sort(s), less) { InsertionSortSorts(s, less); }
  }

  lemma RecordOrdersAreWeak()
    ensures WeakOrder(DaemonLess) && WeakOrder(CapabilityLess) && WeakOrder(AgentLess) && WeakOrder(TargetLess)
    ensures WeakOrder(HealthLess) && WeakOrder(BindingLess) && WeakOrder(ArtifactLess)
    ensures WeakOrder(ByRequirement) && WeakOrder(ByStepId)
  {
    LessIsWeak();
    KeyedIsWeak(DaemonLess, DaemonKey, PairLess);
    KeyedIsWeak(TargetLess, RuntimeKey, PairLess);
    KeyedIsWeak(CapabilityLess, (c: Capability) => c.ref, Less);
    KeyedIsWeak(AgentLess, (a: Agent) => a.id, Less);
    KeyedIsWeak(HealthLess, (h: HealthTarget) => h.requirementId, Less);
    KeyedIsWeak(BindingLess, (b: Binding) => b.id, Less);
    KeyedIsWeak(ArtifactLess, (a: Artifact) => a.id, Less);
    KeyedIsWeak(ByRequirement, (e: Expectation) => e.0, Less);
    KeyedIsWeak(ByStepId, (s: Step) => s.id, Less);
  }

  /** The hypotheses on sorts can be met. */
  lemma SortsExist()
    ensures AreSorts(SomeSorts()) && AreStepSorts(SomeStepSorts())
  {
    LessIsWeak();
    RecordOrdersAreWeak();
    var s, t := SomeSorts(), SomeStepSorts();
    InsertionSortsBy(s.strings, Less);
    InsertionSortsBy(s.statuses, IntLess);
    InsertionSortsBy(s.daemons, DaemonLess);
    InsertionSortsBy(s.capabilities, CapabilityLess);
    InsertionSortsBy(s.agents, AgentLess);
    InsertionSortsBy(s.targets, TargetLess);
    InsertionSortsBy(s.health, HealthLess);
    InsertionSortsBy(s.bindings, BindingLess);
    InsertionSortsBy(s.artifacts, ArtifactLess);
    InsertionSortsBy(t.expectations, ByRequirement);
    InsertionSortsBy(t.steps, ByStepId);
  }
}
