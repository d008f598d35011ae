/** Affected-test selection: names move between focused, required, changed, test-only and
    compile-only, and none is lost. */
module AffectedTests {
  import opened Ordering

  const POLICY := "internal/releaseindex/release-trust-policy.json"
  const BATCH: nat := 8

  // ---- Paths ----

  predicate HasSuffix(s: string, x: string) { |x| <= |s| && s[|s| - |x|..] == x }
  predicate IsGo(f: string) { HasSuffix(f, ".go") }
  predicate IsTest(f: string) { HasSuffix(f, "_test.go") }
  predicate IsGenerated(f: string) { HasSuffix(f, "_gen.go") || HasSuffix(f, "_generated.go") }

  function DirLength(f: string): (n: nat)
    ensures n <= |f|
  {
    if f == "" then 0 else if f[|f| - 1] == '/' then |f| - 1 else DirLength(f[..|f| - 1])
  }

  /** `path.Dir` of a clean relative path. */
  function Dir(f: string): string {
    if '/' !in f then "." else f[..DirLength(f)]
  }

  predicate StartsWith(s: string, p: string) { |p| <= |s| && s[..|p|] == p }

  lemma {:induction false} DirEndsAtSlash(f: string)
    requires '/' in f
    ensures DirLength(f) < |f| && f[DirLength(f)] == '/'
    ensures forall i :: DirLength(f) < i < |f| ==> f[i] != '/'
  {
    var n := |f| - 1;
    if f[n] != '/' {
      assert f == f[..n] + [f[n]];
      DirEndsAtSlash(f[..n]);
    }
  }

  /** A file lies under its directory. */
  lemma UnderItsDir(f: string)
    requires '/' in f
    ensures StartsWith(f, Dir(f) + "/")
  {
    DirEndsAtSlash(f);
    var n := DirLength(f);
    assert f[..n + 1] == f[..n] + [f[n]];
  }

  lemma DirOf(dir: string, name: string)
    requires '/' !in name
    ensures Dir(dir + "/" + name) == dir
  {
    var f := dir + "/" + name;
    assert f[|dir|] == '/';
    DirEndsAtSlash(f);
    forall i | |dir| < i < |f| ensures f[i] != '/' { assert f[i] == name[i - |dir| - 1]; }
    assert f[..|dir|] == dir;
  }

  lemma TestFilesAreGo(f: string)
    requires IsTest(f)
    ensures IsGo(f)
  {
    assert f[|f| - 3..] == f[|f| - 8..][5..];
  }

  function SortedUnique(names: seq<string>): (r: seq<string>)
    ensures forall n :: n in r <==> n in names && n != ""
  {
    SortedKeys(set n | n in names && n != "")
  }

  /** The planner's maps: how each package is selected, and its required and focused tests. */
  datatype Selection = Selection(changed: set<string>, testOnly: set<string>, compileOnly: set<string>,
                                 required: map<string, seq<string>>, focused: map<string, seq<string>>)

  // ---- The registered tables ----

  datatype Boundary = Boundary(owner: string, tests: seq<string>, tags: seq<string>)
  datatype Tables = Tables(focused: map<string, seq<string>>, boundaries: map<string, Boundary>,
                           slow: map<string, seq<string>>, kitRoots: seq<string>)

  function SlowTests(t: Tables, dir: string): seq<string> { if dir in t.slow then t.slow[dir] else [] }
  function Listed(m: map<string, seq<string>>, dir: string): seq<string> { if dir in m then m[dir] else [] }

  /** `m[dir] = append(m[dir], tests...)` */
  function AppendTo(m: map<string, seq<string>>, dir: string, tests: seq<string>): map<string, seq<string>> {
    m[dir := Listed(m, dir) + tests]
  }

  lemma AppendToMembers(m: map<string, seq<string>>, dir: string, tests: seq<string>)
    ensures forall d :: Listed(AppendTo(m, dir, tests), d) == if d == dir then Listed(m, dir) + tests else Listed(m, d)
  {
  }

  // ---- Package selection ----

  predicate Relevant(f: string) { IsGo(f) || f == POLICY }
  predicate Quiet(inert: seq<string>, f: string) { f != POLICY && !IsTest(f) && (IsGenerated(f) || f in inert) }
  predicate TestLike(inert: seq<string>, f: string) { f != POLICY && (IsTest(f) || f in inert) }

  predicate Touched(files: seq<string>, dir: string) { exists f :: f in files && Relevant(f) && Dir(f) == dir }
  predicate AllQuiet(files: seq<string>, inert: seq<string>, dir: string) {
    forall f :: f in files && Relevant(f) && Dir(f) == dir ==> Quiet(inert, f)
  }
  predicate AllTestLike(files: seq<string>, inert: seq<string>, dir: string) {
    forall f :: f in files && Relevant(f) && Dir(f) == dir ==> TestLike(inert, f)
  }

  /** Every changed Go file of the package is generated or inert. */
  predicate CompilesOnly(files: seq<string>, inert: seq<string>, dir: string) {
    Touched(files, dir) && AllQuiet(files, inert, dir)
  }
  predicate TestsOnly(files: seq<string>, inert: seq<string>, dir: string) {
    Touched(files, dir) && !AllQuiet(files, inert, dir) && AllTestLike(files, inert, dir)
  }
  predicate Changes(files: seq<string>, inert: seq<string>, dir: string) {
    Touched(files, dir) && !AllQuiet(files, inert, dir) && !AllTestLike(files, inert, dir)
  }

  /** A production Go change that no table maps to tests. */
  predicate UnmappedFile(t: Tables, inert: seq<string>, f: string) {
    IsGo(f) && !IsTest(f) && !IsGenerated(f) && f !in SortedUnique(inert) && f !in t.boundaries && f !in t.focused
  }
  predicate Unmapped(t: Tables, files: seq<string>, inert: seq<string>, dir: string) {
    exists f :: f in files && UnmappedFile(t, inert, f) && Dir(f) == dir
  }

  // ---- What has been chosen to run ----

  predicate FileBinds(t: Tables, f: string, dir: string, test: string) {
    f in t.focused && Dir(f) == dir && test in t.focused[f]
  }

  predicate BoundaryOwner(t: Tables, f: string, dir: string) {
    f in t.boundaries && |t.boundaries[f].tags| == 0 && t.boundaries[f].owner == dir
  }

  predicate FocusChosen(t: Tables, files: seq<string>, changedTests: map<string, seq<string>>, dir: string,
                        test: string) {
    test != "" && (test in Listed(changedTests, dir) || exists f :: f in files && FileBinds(t, f, dir, test))
  }

  predicate BoundaryChosen(t: Tables, files: seq<string>, dir: string, test: string) {
    test != "" && exists f :: f in files && BoundaryOwner(t, f, dir) && test in t.boundaries[f].tests
  }

  predicate Owned(t: Tables, files: seq<string>, dir: string) { exists f :: f in files && BoundaryOwner(t, f, dir) }

  predicate TaggedChosen(t: Tables, files: seq<string>, dir: string, test: string) {
    test != "" && exists f ::
      f in files && f in t.boundaries && |t.boundaries[f].tags| > 0 && t.boundaries[f].owner == dir &&
      test in t.boundaries[f].tests
  }

  /** The non-empty names of a list. */
  function Names(s: seq<string>): set<string> {
    if s == [] then {} else Names(s[..|s| - 1]) + if s[|s| - 1] == "" then {} else {s[|s| - 1]}
  }

  lemma {:induction false} NamesMembers(s: seq<string>)
    ensures forall n :: n in Names(s) <==> n in s && n != ""
  {
    if s != [] {
      NamesMembers(s[..|s| - 1]);
      assert s == s[..|s| - 1] + [s[|s| - 1]];
    }
  }

  lemma NamesOfSortedUnique(s: seq<string>)
    ensures Names(SortedUnique(s)) == Names(s)
  {
    NamesMembers(s);
    NamesMembers(SortedUnique(s));
  }

  lemma NamesOfConcatenation(a: seq<string>, b: seq<string>)
    ensures Names(a + b) == Names(a) + Names(b)
  {
    NamesMembers(a);
    NamesMembers(b);
    NamesMembers(a + b);
  }

  /** The tests one file's untagged boundary adds to a package. */
  function BoundaryNames(t: Tables, f: string, dir: string): set<string> {
    if BoundaryOwner(t, f, dir) then Names(t.boundaries[f].tests) else {}
  }

  function AllBoundaryNames(t: Tables, files: seq<string>, dir: string): set<string> {
    if files == [] then {}
      else AllBoundaryNames(t, files[..|files| - 1], dir) + BoundaryNames(t, files[|files| - 1], dir)
  }

  lemma {:induction false} BoundaryNamesAreChosen(t: Tables, files: seq<string>, dir: string, test: string)
    ensures test in AllBoundaryNames(t, files, dir) <==> BoundaryChosen(t, files, dir, test)
  {
    if files != [] {
      var init, last := files[..|files| - 1], files[|files| - 1];
      assert files == init + [last];
      BoundaryNamesAreChosen(t, init, dir, test);
      if last in t.boundaries { NamesMembers(t.boundaries[last].tests); }
    }
  }

  lemma AllBoundaryNamesNext(t: Tables, done: seq<string>, f: string, dir: string)
    ensures AllBoundaryNames(t, done + [f], dir) == AllBoundaryNames(t, done, dir) + BoundaryNames(t, f, dir)
  {
    assert (done + [f])[..|done|] == done;
  }

  // ---- Commands ----

  datatype Command =
    | Focused(dir: string, tags: seq<string>, tests: seq<string>)
    | Slice(dir: string, skip: seq<string>)
    | Compile(dirs: seq<string>)
    | TaggedCompile(tags: seq<string>, dirs: seq<string>)
    | TaggedBoundary(owner: string, tags: seq<string>, tests: seq<string>)

  /** The command executes this test of this package. */
  predicate Runs(c: Command, dir: string, test: string) {
    match c
    case Focused(d, _, tests) => d == dir && test in tests
    case Slice(d, skip) => d == dir && test !in skip
    case Compile(_) => false
    case TaggedCompile(_, _) => false
    case TaggedBoundary(d, _, tests) => d == dir && test in tests
  }

  /** The command builds this package. */
  predicate Builds(c: Command, dir: string) {
    match c
    case Focused(d, _, _) => d == dir
    case Slice(d, _) => d == dir
    case Compile(dirs) => dir in dirs
    case TaggedCompile(_, dirs) => dir in dirs
    case TaggedBoundary(d, _, _) => d == dir
  }

  predicate Built(commands: seq<Command>, dir: string) { exists c :: c in commands && Builds(c, dir) }

  predicate RunBy(commands: seq<Command>, dir: string, test: string) {
    exists i :: 0 <= i < |commands| && Runs(commands[i], dir, test)
  }

  lemma RunByAppend(a: seq<Command>, b: seq<Command>, dir: string, test: string)
    ensures RunBy(a + b, dir, test) <==> RunBy(a, dir, test) || RunBy(b, dir, test)
  {
    var c := a + b;
    if i :| 0 <= i < |a| && Runs(a[i], dir, test) { assert Runs(c[i], dir, test); }
    if i :| 0 <= i < |b| && Runs(b[i], dir, test) { assert Runs(c[|a| + i], dir, test); }
  }

  /** The slice of a package skips its slow tests, except those it is required to run. */
  method BudgetedPackageCommand(t: Tables, dir: string, required: seq<string>) returns (c: Command)
    ensures c.Slice? && c.dir == dir
    ensures forall d, test :: Runs(c, d, test) <==> d == dir && (test !in SlowTests(t, dir) || test in required)
  {
    var skip := SlowTests(t, dir);
    for i := 0 to |required|
      invariant forall test :: test in skip <==> test in SlowTests(t, dir) && test !in required[..i]
    {
      assert required[..i + 1] == required[..i] + [required[i]];
      skip := WithoutString(skip, required[i]);
    }
    assert required[..|required|] == required;
    return Slice(dir, skip);
  }

  function WithoutString(values: seq<string>, unwanted: string): (r: seq<string>)
    ensures forall x :: x in r <==> x in values && x != unwanted
  {
    if values == [] then []
    else WithoutString(values[..|values| - 1], unwanted) + if values[|values| - 1] == unwanted then []
      else [values[|values| - 1]]
  }
}
