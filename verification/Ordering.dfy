/** Byte-wise string order, sorting and the few list facts the other modules share. */
module Ordering {

  /** Go's `<` on strings: the first differing character decides, a proper prefix is smaller. */
  predicate Less(a: string, b: string) {
    LessFrom(a, b, 0)
  }

  /** The comparison of two strings that agree before position `i`. */
  predicate LessFrom(a: string, b: string, i: nat)
    requires i <= |a| && i <= |b|
    decreases |a| - i
  {
    i < |b| && (i == |a| || a[i] < b[i] || (a[i] == b[i] && LessFrom(a, b, i + 1)))
  }

  lemma LessIrreflexive(a: string)
    ensures !Less(a, a)
  {
    NotLessFromItself(a, 0);
  }

  lemma {:induction false} NotLessFromItself(a: string, i: nat)
    requires i <= |a|
    ensures !LessFrom(a, a, i)
    decreases |a| - i
  {
    if i < |a| { NotLessFromItself(a, i + 1); }
  }

  lemma LessTransitive(a: string, b: string, c: string)
    requires Less(a, b) && Less(b, c)
    ensures Less(a, c)
  {
    LessFromTransitive(a, b, c, 0);
  }

  lemma {:induction false} LessFromTransitive(a: string, b: string, c: string, i: nat)
    requires i <= |a| && i <= |b| && i <= |c| && LessFrom(a, b, i) && LessFrom(b, c, i)
    ensures LessFrom(a, c, i)
    decreases |a| - i
  {
    if i < |a| && a[i] == b[i] && b[i] == c[i] { LessFromTransitive(a, b, c, i + 1); }
  }

  lemma LessTotal(a: string, b: string)
    ensures Less(a, b) || a == b || Less(b, a)
  {
    LessFromTotal(a, b, 0);
  }

  lemma {:induction false} LessFromTotal(a: string, b: string, i: nat)
    requires i <= |a| && i <= |b| && a[..i] == b[..i]
    ensures LessFrom(a, b, i) || a == b || LessFrom(b, a, i)
    decreases |a| - i
  {
    if i < |a| && i < |b| && a[i] == b[i] {
      assert a[..i + 1] == a[..i] + [a[i]] && b[..i + 1] == b[..i] + [b[i]];
      LessFromTotal(a, b, i + 1);
    } else if i == |a| && i == |b| {
      assert a == a[..i] && b == b[..i];
    }
  }

  lemma LessAsymmetric(a: string, b: string)
    requires Less(a, b)
    ensures !Less(b, a) && a != b
  {
    LessIrreflexive(a);
    if Less(b, a) { LessTransitive(a, b, a); }
  }

  /** The order of pairs compared first component first. */
  predicate PairLess(a: (string, string), b: (string, string)) {
    Less(a.0, b.0) || (a.0 == b.0 && Less(a.1, b.1))
  }

  lemma PairLessTransitive(a: (string, string), b: (string, string), c: (string, string))
    requires PairLess(a, b) && PairLess(b, c)
    ensures PairLess(a, c)
  {
    if Less(a.0, b.0) && Less(b.0, c.0) {
      LessTransitive(a.0, b.0, c.0);
    } else if a.0 == b.0 == c.0 {
      LessTransitive(a.1, b.1, c.1);
    }
  }

  lemma PairLessTotal(a: (string, string), b: (string, string))
    ensures PairLess(a, b) || a == b || PairLess(b, a)
  {
    LessTotal(a.0, b.0);
    LessTotal(a.1, b.1);
  }

  const NUL: char := '\0'

  predicate NulFree(s: string) {
    forall i :: 0 <= i < |s| ==> s[i] != NUL
  }

  function Joined(p: (string, string)): string {
    p.0 + [NUL] + p.1
  }

  /** A common prefix does not matter. */
  lemma {:induction false} PrefixDoesNotMatter(u: string, a: string, b: string, i: nat)
    requires i <= |a| && i <= |b|
    ensures LessFrom(u + a, u + b, |u| + i) <==> LessFrom(a, b, i)
    decreases |a| - i
  {
    if i < |a| && i < |b| { PrefixDoesNotMatter(u, a, b, i + 1); }
  }

  /** Comparing `a+NUL+b` strings is comparing the pairs, because NUL sorts below every token character. */
  lemma JoinedKeysOrderLikePairs(p: (string, string), q: (string, string))
    requires NulFree(p.0) && NulFree(q.0)
    ensures Less(Joined(p), Joined(q)) <==> PairLess(p, q)
    ensures Joined(p) == Joined(q) <==> p == q
  {
    LessIrreflexive(p.0);
    JoinedFrom(p, q, 0);
  }

  lemma {:induction false} JoinedFrom(p: (string, string), q: (string, string), i: nat)
    requires NulFree(p.0) && NulFree(q.0) && i <= |p.0| && i <= |q.0| && p.0[..i] == q.0[..i]
    ensures LessFrom(Joined(p), Joined(q), i) <==> LessFrom(p.0, q.0, i) || (p.0 == q.0 && Less(p.1, q.1))
    ensures Joined(p) == Joined(q) <==> p == q
    decreases |p.0| - i
  {
    var x, y := Joined(p), Joined(q);
    assert x[i] == (if i == |p.0| then NUL else p.0[i]) && y[i] == (if i == |q.0| then NUL else q.0[i]);
    if i == |p.0| && i == |q.0| {
      assert p.0 == p.0[..i] && q.0 == q.0[..i];
      var u := p.0 + [NUL];
      assert x == u + p.1 && y == u + q.1 && x[i + 1..] == p.1 && y[i + 1..] == q.1;
      PrefixDoesNotMatter(u, p.1, q.1, 0);
    } else if i < |p.0| && i < |q.0| && p.0[i] == q.0[i] {
      assert p.0[..i + 1] == p.0[..i] + [p.0[i]] && q.0[..i + 1] == q.0[..i] + [q.0[i]];
      JoinedFrom(p, q, i + 1);
    } else {
      assert x[i] != y[i] && p.0 != q.0;
    }
  }

  ghost predicate StrictlySorted<T(!new)>(s: seq<T>, less: (T, T) -> bool) {
    forall i, j :: 0 <= i < j < |s| ==> less(s[i], s[j])
  }

  /** What any comparison sort guarantees: no later element is smaller than an earlier one. */
  ghost predicate Sorted<T(!new)>(s: seq<T>, less: (T, T) -> bool) {
    forall i, j :: 0 <= i < j < |s| ==> !less(s[j], s[i])
  }

  ghost predicate Distinct<T>(s: seq<T>) {
    forall i, j :: 0 <= i < j < |s| ==> s[i] != s[j]
  }

  function RemoveAt<T>(s: seq<T>, k: nat): seq<T>
    requires k < |s|
  {
    s[..k] + s[k + 1..]
  }

  lemma RemoveAtMultiset<T>(s: seq<T>, k: nat)
    requires k < |s|
    ensures multiset(RemoveAt(s, k)) == multiset(s) - multiset{s[k]}
  {
    assert s == s[..k] + ([s[k]] + s[k + 1..]);
  }

  lemma PermutationMember<T>(a: seq<T>, b: seq<T>, i: nat) returns (k: nat)
    requires multiset(a) == multiset(b) && i < |a|
    ensures k < |b| && b[k] == a[i] && |a| == |b|
  {
    assert a[i] in multiset(b);
    k :| 0 <= k < |b| && b[k] == a[i];
    assert |multiset(a)| == |a| && |multiset(b)| == |b|;
  }

  lemma PermutationMembers<T>(a: seq<T>, b: seq<T>)
    requires multiset(a) == multiset(b)
    ensures |a| == |b| && (forall x :: x in a ==> x in b) && (forall x :: x in b ==> x in a)
  {
    assert |multiset(a)| == |a| && |multiset(b)| == |b|;
    assert forall x :: x in a <==> x in multiset(a);
    assert forall x :: x in b <==> x in multiset(b);
  }

  /** Whatever unstable sort produced `b`, it equals the strictly sorted `a` with the same elements. */
  lemma {:induction false} SortedFormIsUnique<T(!new)>(a: seq<T>, b: seq<T>, less: (T, T) -> bool)
    requires multiset(a) == multiset(b)
    requires StrictlySorted(a, less) && Sorted(b, less)
    ensures a == b
  {
    if |a| == 0 {
      assert |multiset(a)| == |a| && |multiset(b)| == |b|;
    } else {
      HeadsAgree(a, b, less);
      TailsPermuted(a, b);
      forall i, j | 0 <= i < j < |a| - 1 ensures less(a[1..][i], a[1..][j]) { assert less(a[i + 1], a[j + 1]); }
      forall i, j | 0 <= i < j < |b| - 1 ensures !less(b[1..][j], b[1..][i]) { assert !less(b[j + 1], b[i + 1]); }
      SortedFormIsUnique(a[1..], b[1..], less);
      assert a == [a[0]] + a[1..] && b == [b[0]] + b[1..];
    }
  }

  lemma HeadsAgree<T(!new)>(a: seq<T>, b: seq<T>, less: (T, T) -> bool)
    requires multiset(a) == multiset(b) && |a| > 0
    requires StrictlySorted(a, less) && Sorted(b, less)
    ensures |a| == |b| && a[0] == b[0]
  {
    var k := PermutationMember(a, b, 0);
    var m := PermutationMember(b, a, 0);
    assert m > 0 ==> less(a[0], a[m]);
    assert k > 0 ==> !less(b[k], b[0]);
  }

  lemma TailsPermuted<T>(a: seq<T>, b: seq<T>)
    requires multiset(a) == multiset(b) && |a| == |b| > 0 && a[0] == b[0]
    ensures multiset(a[1..]) == multiset(b[1..])
  {
    RemoveAtMultiset(a, 0);
    RemoveAtMultiset(b, 0);
    assert RemoveAt(a, 0) == a[1..] && RemoveAt(b, 0) == b[1..];
  }

  /** Adjacent comparisons in a loop give the global strict order. */
  lemma {:induction false} AdjacentStringsSorted(s: seq<string>)
    requires forall h, i :: 0 <= h < i < |s| && h == i - 1 ==> Less(s[h], s[i])
    ensures StrictlySorted(s, Less)
  {
    if |s| > 1 {
      var n := |s| - 1;
      AdjacentStringsSorted(s[..n]);
      forall i | 0 <= i < n ensures Less(s[i], s[n]) {
        if i < n - 1 { assert Less(s[..n][i], s[..n][n - 1]); LessTransitive(s[i], s[n - 1], s[n]); }
      }
      forall i, j | 0 <= i < j < |s| ensures Less(s[i], s[j]) {
        if j < n { assert Less(s[..n][i], s[..n][j]); }
      }
    }
  }

  lemma {:induction false} AdjacentPairsSorted(s: seq<(string, string)>)
    requires forall h, i :: 0 <= h < i < |s| && h == i - 1 ==> PairLess(s[h], s[i])
    ensures StrictlySorted(s, PairLess)
  {
    if |s| > 1 {
      var n := |s| - 1;
      AdjacentPairsSorted(s[..n]);
      forall i | 0 <= i < n ensures PairLess(s[i], s[n]) {
        if i < n - 1 { assert PairLess(s[..n][i], s[..n][n - 1]); PairLessTransitive(s[i], s[n - 1], s[n]); }
      }
      forall i, j | 0 <= i < j < |s| ensures PairLess(s[i], s[j]) {
        if j < n { assert PairLess(s[..n][i], s[..n][j]); }
      }
    }
  }

  function Map<A, B>(f: A -> B, s: seq<A>): (r: seq<B>)
    ensures |r| == |s|
    ensures forall i :: 0 <= i < |s| ==> r[i] == f(s[i])
  {
    seq(|s|, i requires 0 <= i < |s| => f(s[i]))
  }

  /** Mapping respects permutation. */
  lemma {:induction false} MapPermutation<A, B>(f: A -> B, s: seq<A>, t: seq<A>)
    requires multiset(s) == multiset(t)
    ensures multiset(Map(f, s)) == multiset(Map(f, t))
  {
    if |s| == 0 {
      assert |multiset(s)| == 0 && |multiset(t)| == |t|;
      assert Map(f, s) == Map(f, t);
    } else {
      var k := PermutationMember(s, t, 0);
      RemoveAtMultiset(s, 0);
      RemoveAtMultiset(t, k);
      MapPermutation(f, RemoveAt(s, 0), RemoveAt(t, k));
      MapRemoveAt(f, s, 0);
      MapRemoveAt(f, t, k);
    }
  }

  lemma MapRemoveAt<A, B>(f: A -> B, s: seq<A>, k: nat)
    requires k < |s|
    ensures multiset(Map(f, s)) == multiset(Map(f, RemoveAt(s, k))) + multiset{f(s[k])}
  {
    RemoveAtMultiset(Map(f, s), k);
    assert Map(f, RemoveAt(s, k)) == RemoveAt(Map(f, s), k);
    assert f(s[k]) in multiset(Map(f, s)) by { assert Map(f, s)[k] == f(s[k]); }
  }

  lemma Associative<T>(a: seq<T>, b: seq<T>, c: seq<T>)
    ensures a + b + c == a + (b + c)
  {
  }

  lemma DistinctPrefix<T>(a: seq<T>, b: seq<T>)
    ensures Distinct(a + b) ==> Distinct(a)
  {
    if Distinct(a + b) {
      forall i, j | 0 <= i < j < |a| ensures a[i] != a[j] { assert (a + b)[i] != (a + b)[j]; }
    }
  }

  lemma DistinctGrows<T>(a: seq<T>, x: T)
    ensures Distinct(a + [x]) <==> Distinct(a) && x !in a
  {
    if Distinct(a + [x]) {
      DistinctPrefix(a, [x]);
      forall i | 0 <= i < |a| ensures a[i] != x { assert (a + [x])[i] != (a + [x])[|a|]; }
    }
  }

  /** `seen` is the set of the keys met so far, and none was met twice. */
  ghost predicate Seen<T(!new)>(seen: set<T>, keys: seq<T>) {
    Distinct(keys) && forall x :: x in seen <==> x in keys
  }

  /** The same for the first `n` keys of a list. */
  ghost predicate SeenUpTo<T(!new)>(seen: set<T>, keys: seq<T>, n: nat)
    requires n <= |keys|
  {
    && (forall i, j :: 0 <= i < j < n ==> keys[i] != keys[j])
    && (forall i :: 0 <= i < n ==> keys[i] in seen)
    && (forall x :: x in seen ==> exists i :: 0 <= i < n && keys[i] == x)
  }

  lemma SeenPrefix<T(!new)>(seen: set<T>, keys: seq<T>, n: nat)
    requires n <= |keys|
    ensures SeenUpTo(seen, keys, n) <==> Seen(seen, keys[..n])
  {
    var done := keys[..n];
    if Seen(seen, done) {
      forall i | 0 <= i < n ensures keys[i] in seen { assert done[i] in done; }
      forall i, j | 0 <= i < j < n ensures keys[i] != keys[j] { assert done[i] != done[j]; }
      forall x | x in seen ensures exists i :: 0 <= i < n && keys[i] == x {
        var i :| 0 <= i < n && done[i] == x;
        assert keys[i] == x;
      }
    }
    if SeenUpTo(seen, keys, n) {
      forall x ensures x in seen <==> x in done {
        if x in done { var i :| 0 <= i < n && done[i] == x; assert keys[i] in seen; }
        if x in seen { var i :| 0 <= i < n && keys[i] == x; assert done[i] == x; }
      }
    }
  }

  /** One step of every duplicate check: look the next key up, then record it. */
  method MarkSeen<T(==,!new)>(seen: set<T>, key: T, ghost keys: seq<T>, ghost i: nat) returns (ok: bool, seen': set<T>)
    requires i < |keys| && keys[i] == key && SeenUpTo(seen, keys, i)
    ensures ok ==> SeenUpTo(seen', keys, i + 1)
    ensures !ok ==> !Distinct(keys)
  {
    return key !in seen, seen + {key};
  }

  /** A whole duplicate check: every key is looked up in the set of the keys before it. */
  method AllDistinct<T(==,!new)>(keys: seq<T>) returns (ok: bool)
    ensures ok <==> Distinct(keys)
  {
    var seen: set<T> := {};
    for i := 0 to |keys|
      invariant SeenUpTo(seen, keys, i)
    {
      var first;
      first, seen := MarkSeen(seen, keys[i], keys, i);
      if !first { return false; }
    }
    return true;
  }

  lemma {:induction false} DistinctCounts<T(!new)>(s: seq<T>)
    ensures Distinct(s) <==> forall x :: multiset(s)[x] <= 1
  {
    if |s| > 0 {
      var init, last := s[..|s| - 1], s[|s| - 1];
      assert s == init + [last];
      DistinctCounts(init);
      DistinctGrows(init, last);
      assert forall x :: multiset(s)[x] == multiset(init)[x] + multiset{last}[x];
      assert last in init <==> multiset(init)[last] > 0;
      if forall x :: multiset(s)[x] <= 1 {
        assert multiset(s)[last] <= 1;
        forall x ensures multiset(init)[x] <= 1 { assert multiset(s)[x] <= 1; }
      }
    }
  }

  lemma DistinctPermutation<T(!new)>(a: seq<T>, b: seq<T>)
    requires multiset(a) == multiset(b)
    ensures Distinct(a) <==> Distinct(b)
  {
    DistinctCounts(a);
    DistinctCounts(b);
  }

  /** Distinct members of an equally long list are that list up to order. */
  lemma {:induction false} Pigeonhole<T>(a: seq<T>, b: seq<T>)
    requires Distinct(a) && |a| == |b| && forall x :: x in a ==> x in b
    ensures multiset(a) == multiset(b)
  {
    if |a| > 0 {
      var init, last := a[..|a| - 1], a[|a| - 1];
      assert a == init + [last];
      DistinctGrows(init, last);
      assert last in a && last in b;
      var k :| 0 <= k < |b| && b[k] == last;
      var rest := RemoveAt(b, k);
      RemoveAtMultiset(b, k);
      forall x | x in init ensures x in rest {
        assert x in b && x != last;
        assert x in multiset(rest);
      }
      Pigeonhole(init, rest);
      assert multiset(b) == multiset(rest) + multiset{last};
    }
  }

  predicate IsLeast(m: string, s: set<string>) {
    m in s && forall x :: x in s && x != m ==> Less(m, x)
  }

  lemma {:induction false} LeastExists(s: set<string>)
    requires s != {}
    ensures exists m :: IsLeast(m, s)
    decreases |s|
  {
    var x :| x in s;
    if s == {x} {
      assert IsLeast(x, s);
    } else {
      LeastExists(s - {x});
      var y :| IsLeast(y, s - {x});
      LessTotal(x, y);
      if Less(x, y) {
        forall z | z in s && z != x && z != y ensures Less(x, z) { LessTransitive(x, y, z); }
        assert IsLeast(x, s);
      } else {
        assert IsLeast(y, s);
      }
    }
  }

  lemma LeastUnique(m: string, n: string, s: set<string>)
    requires IsLeast(m, s) && IsLeast(n, s)
    ensures m == n
  {
    if m != n { LessAsymmetric(m, n); }
  }

  /** `sort.Strings` over the keys of a map: the members of the set in increasing order. */
  function SortedKeys(s: set<string>): (r: seq<string>)
    ensures forall x :: x in r <==> x in s
    decreases |s|
  {
    if s == {} then []
    else
      LeastIsDetermined(s);
      var m :| m in s && IsLeast(m, s);
      [m] + SortedKeys(s - {m})
  }

  lemma LeastIsDetermined(s: set<string>)
    requires s != {}
    ensures exists m :: m in s && IsLeast(m, s)
    ensures forall m, n :: IsLeast(m, s) && IsLeast(n, s) ==> m == n
  {
    LeastExists(s);
    forall m, n | IsLeast(m, s) && IsLeast(n, s) ensures m == n { LeastUnique(m, n, s); }
  }

  lemma {:induction false} SortedKeysAreSorted(s: set<string>)
    ensures StrictlySorted(SortedKeys(s), Less)
    decreases |s|
  {
    if s != {} {
      LeastIsDetermined(s);
      var r := SortedKeys(s);
      var m := r[0];
      assert IsLeast(m, s) && r == [m] + SortedKeys(s - {m});
      SortedKeysAreSorted(s - {m});
      SmallerHeadSorts(m, SortedKeys(s - {m}), Less);
    }
  }

  lemma SmallerHeadSorts<T(!new)>(head: T, tail: seq<T>, less: (T, T) -> bool)
    requires StrictlySorted(tail, less) && forall x :: x in tail ==> less(head, x)
    ensures StrictlySorted([head] + tail, less)
  {
    var all := [head] + tail;
    forall i, j | 0 <= i < j < |all| ensures less(all[i], all[j]) {
      assert all[j] == tail[j - 1] && tail[j - 1] in tail;
      if i > 0 { assert all[i] == tail[i - 1]; }
    }
  }

  lemma {:induction false} DistinctSize(s: seq<string>)
    requires Distinct(s)
    ensures |set x | x in s| == |s|
  {
    if s != [] {
      var n := |s| - 1;
      DistinctSize(s[..n]);
      assert s == s[..n] + [s[n]];
      assert (set x | x in s) == (set x | x in s[..n]) + {s[n]};
    }
  }
}
