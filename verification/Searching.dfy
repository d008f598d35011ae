/** Halving search for the first key that is not below another; exact on sorted keys. */
module Searching {
  import opened Ordering

  /** Where halving the range ends, whether or not the keys are sorted. */
  function SearchFrom(keys: seq<string>, x: string, low: nat, high: nat): (index: nat)
    requires low <= high <= |keys|
    ensures low <= index <= high
    ensures index > low ==> Less(keys[index - 1], x)
    ensures index < high ==> !Less(keys[index], x)
    decreases high - low
  {
    if low == high then low
    else
      var middle := (low + high) / 2;
      if Less(keys[middle], x) then SearchFrom(keys, x, middle + 1, high) else SearchFrom(keys, x, low, middle)
  }

  function Search(keys: seq<string>, x: string): nat { SearchFrom(keys, x, 0, |keys|) }

  /** The equality test that follows a search. */
  predicate FoundIn(keys: seq<string>, x: string) {
    var i := Search(keys, x);
    i < |keys| && keys[i] == x
  }

  lemma SearchHalves(keys: seq<string>, x: string, low: nat, high: nat)
    requires low < high <= |keys|
    ensures var middle := (low + high) / 2;
      low <= middle < high &&
      SearchFrom(keys, x, low, high) ==
        if Less(keys[middle], x) then SearchFrom(keys, x, middle + 1, high) else SearchFrom(keys, x, low, middle)
  {
  }

  method SearchBy<T>(l: seq<T>, key: T -> string, x: string) returns (index: nat)
    ensures index == Search(Map(key, l), x)
  {
    ghost var keys := Map(key, l);
    var low, high := 0, |l|;
    while low < high
      invariant 0 <= low <= high <= |keys|
      invariant SearchFrom(keys, x, low, high) == Search(keys, x)
    {
      SearchHalves(keys, x, low, high);
      var middle := (low + high) / 2;
      assert keys[middle] == key(l[middle]);
      if Less(key(l[middle]), x) { low := middle + 1; } else { high := middle; }
    }
    return low;
  }

  /** In sorted keys exactly those before the found index are below `x`. */
  lemma SearchSplits(keys: seq<string>, x: string, i: nat)
    requires StrictlySorted(keys, Less) && i < |keys|
    ensures Less(keys[i], x) <==> i < Search(keys, x)
  {
    var index := SearchFrom(keys, x, 0, |keys|);
    if i < index - 1 {
      assert Less(keys[i], keys[index - 1]);
      LessTransitive(keys[i], keys[index - 1], x);
    } else if index < i && Less(keys[i], x) {
      LessTransitive(keys[index], keys[i], x);
    }
  }

  lemma SearchFinds(keys: seq<string>, x: string, i: nat)
    requires StrictlySorted(keys, Less) && i < |keys| && keys[i] == x
    ensures Search(keys, x) == i
  {
    LessIrreflexive(x);
    SearchSplits(keys, x, i);
    if Search(keys, x) < i { SearchSplits(keys, x, Search(keys, x)); }
  }

  lemma SortedSearchFinds(keys: seq<string>, x: string)
    requires StrictlySorted(keys, Less)
    ensures FoundIn(keys, x) <==> x in keys
  {
    if x in keys {
      var i: nat :| i < |keys| && keys[i] == x;
      SearchFinds(keys, x, i);
    }
  }
}
