/** The planner that moves chosen tests between its maps and emits commands, and why no chosen test is lost. */
module AffectedPlan {
  import opened Ordering
  import opened AffectedTests

  /** Reported to the caller of the boundary pass: tagged tests by owner and tag set. */
  type TaggedTests = map<(string, seq<string>), seq<string>>

  function KeptIn(required: map<string, seq<string>>, focused: map<string, seq<string>>, dir: string): set<string> {
    Names(Listed(required, dir)) + Names(Listed(focused, dir))
  }

  /** Falling back adds the tests to what the package keeps, and touches no other package. */
  lemma FallBackKeeps(required: map<string, seq<string>>, focused: map<string, seq<string>>, dir: string,
                      tests: seq<string>, d: string)
    ensures var all := SortedUnique(Listed(required, dir) + Listed(focused, dir) + tests);
      KeptIn(required[dir := all], focused - {dir}, d) ==
        KeptIn(required, focused, d) + if d == dir then Names(tests) else {}
  {
    NamesOfSortedUnique(Listed(required, dir) + Listed(focused, dir) + tests);
    NamesOfConcatenation(Listed(required, dir) + Listed(focused, dir), tests);
    NamesOfConcatenation(Listed(required, dir), Listed(focused, dir));
  }

  lemma FocusKeeps(required: map<string, seq<string>>, focused: map<string, seq<string>>, dir: string,
                   tests: seq<string>, d: string)
    ensures KeptIn(required, focused[dir := SortedUnique(Listed(focused, dir) + tests)], d) ==
        KeptIn(required, focused, d) + if d == dir then Names(tests) else {}
  {
    NamesOfSortedUnique(Listed(focused, dir) + tests);
    NamesOfConcatenation(Listed(focused, dir), tests);
  }

  class Planner {
    const tables: Tables
    var changed: set<string>
    var testOnly: set<string>
    var compileOnly: set<string>
    var required: map<string, seq<string>>
    var focused: map<string, seq<string>>

    constructor (tables: Tables)
      ensures this.tables == tables && required == map[] && focused == map[]
    {
      this.tables := tables;
      changed, testOnly, compileOnly, required, focused := {}, {}, {}, map[], map[];
    }

    /** The tests a package is committed to run, by focus or by requirement. */
    ghost function Kept(dir: string): set<string>
      reads this`required, this`focused
    {
      KeptIn(required, focused, dir)
    }

    /** A package that fell back to its slice has no focus left, and has unmapped production. */
    ghost predicate FellBackOnly(unmapped: set<string>)
      reads this`required, this`focused
    {
      forall dir :: dir in required ==> dir in unmapped && dir !in focused
    }

    /** The focused packages that do not have to fall back. */
    ghost function FreeFocus(unmapped: set<string>): set<string>
      reads this`focused
    {
      focused.Keys - unmapped
    }

    /** The maps as one value. */
    ghost function Picture(): Selection
      reads this
    {
      Selection(changed, testOnly, compileOnly, required, focused)
    }

    // ---- Focus ----

    method FocusGoTests(files: seq<string>, changedTests: map<string, seq<string>>)
      modifies this`focused
      ensures forall dir, test :: test in Listed(focused, dir) <==> FocusChosen(tables, files, changedTests, dir, test)
      ensures forall dir :: dir in focused <==> dir in changedTests || FocusedDir(tables, files, dir)
    {
      var result := GatherFocus(tables, files, changedTests);
      focused := map dir | dir in result :: SortedUnique(result[dir]);
      forall dir, test ensures test in Listed(focused, dir) <==> test != "" && test in Listed(result, dir) {}
    }

    // ---- Package selection ----

    method Select(files: seq<string>, inert: seq<string>)
      modifies this`changed, this`testOnly, this`compileOnly
      ensures forall dir :: dir in compileOnly <==> CompilesOnly(files, inert, dir)
      ensures forall dir :: dir in testOnly <==> TestsOnly(files, inert, dir)
      ensures forall dir :: dir in changed <==> Changes(files, inert, dir)
    {
      var generatedOnly, testLike := ClassifyFiles(files, inert);
      compileOnly := set dir | dir in generatedOnly && generatedOnly[dir];
      testOnly := set dir | dir in generatedOnly && !generatedOnly[dir] && testLike[dir];
      changed := generatedOnly.Keys - compileOnly - testOnly;
      forall dir
        ensures dir in compileOnly <==> CompilesOnly(files, inert, dir)
        ensures dir in testOnly <==> TestsOnly(files, inert, dir)
        ensures dir in changed <==> Changes(files, inert, dir)
      {
        assert ClassifiedAt(files, inert, generatedOnly, testLike, dir);
      }
    }

    // ---- Public boundaries ----

    /** The package slice replaces the focus, and must keep what the focus and the boundary had chosen. */
    method FallBackToPackageSlice(dir: string, tests: seq<string>, ghost unmapped: set<string>)
      requires FellBackOnly(unmapped) && dir in unmapped
      modifies this`required, this`focused
      ensures FellBackOnly(unmapped) && required.Keys == old(required).Keys + {dir}
      ensures focused.Keys == old(focused).Keys - {dir}
      ensures forall d :: Kept(d) == old(Kept(d)) + if d == dir then Names(tests) else {}
    {
      var all := SortedUnique(Listed(required, dir) + Listed(focused, dir) + tests);
      forall d { FallBackKeeps(required, focused, dir, tests, d); }
      required := required[dir := all];
      focused := focused - {dir};
    }

    method AddFocus(dir: string, tests: seq<string>, ghost unmapped: set<string>)
      requires FellBackOnly(unmapped) && dir !in unmapped
      modifies this`focused
      ensures FellBackOnly(unmapped) && focused.Keys == old(focused).Keys + {dir}
      ensures forall d :: Kept(d) == old(Kept(d)) + if d == dir then Names(tests) else {}
    {
      forall d { FocusKeeps(required, focused, dir, tests, d); }
      focused := focused[dir := SortedUnique(Listed(focused, dir) + tests)];
    }

    /** Keeps the tests of a package: in its requirement if it falls back, in its focus otherwise. */
    method KeepTests(dir: string, tests: seq<string>, unmapped: set<string>)
      requires FellBackOnly(unmapped)
      modifies this`required, this`focused
      ensures FellBackOnly(unmapped) && FreeFocus(unmapped) == old(FreeFocus(unmapped)) + ({dir} - unmapped)
      ensures forall d :: Kept(d) == old(Kept(d)) + if d == dir then Names(tests) else {}
    {
      if dir in unmapped {
        FallBackToPackageSlice(dir, tests, unmapped);
      } else {
        AddFocus(dir, tests, unmapped);
      }
    }

    /** The source of a boundary is compiled only, unless it is already focused or falls back to its slice. */
    method VisitSource(source: string, unmapped: set<string>)
      requires FellBackOnly(unmapped)
      modifies this`required, this`focused
      ensures FellBackOnly(unmapped) && FreeFocus(unmapped) == old(FreeFocus(unmapped)) + ({source} - unmapped)
      ensures forall d :: Kept(d) == old(Kept(d))
    {
      assert Names([]) == {};
      if source in unmapped || source !in focused { KeepTests(source, [], unmapped); }
    }

    /** The registered boundary of one changed file. */
    method ApplyBoundary(file: string, boundary: Boundary, unmapped: set<string>, taggedTests: TaggedTests)
      returns (tagged: TaggedTests)
      requires FellBackOnly(unmapped)
      modifies this`required, this`focused, this`changed, this`testOnly, this`compileOnly
      ensures FellBackOnly(unmapped)
      ensures FreeFocus(unmapped) == old(FreeFocus(unmapped)) +
        ({Dir(file)} + (if |boundary.tags| == 0 then {boundary.owner} else {}) - unmapped)
      ensures forall d ::
        Kept(d) == old(Kept(d)) + if |boundary.tags| == 0 && boundary.owner == d then Names(boundary.tests) else {}
      ensures var owner := if |boundary.tags| == 0 then {boundary.owner} else {};
              changed == old(changed) + owner && testOnly == old(testOnly) - owner &&
                compileOnly == old(compileOnly) - owner
      ensures tagged == if |boundary.tags| == 0 then taggedTests else TagTests(taggedTests, boundary)
    {
      VisitSource(Dir(file), unmapped);
      if |boundary.tags| > 0 { return TagTests(taggedTests, boundary); }
      KeepTests(boundary.owner, boundary.tests, unmapped);
      changed := changed + {boundary.owner};
      testOnly := testOnly - {boundary.owner};
      compileOnly := compileOnly - {boundary.owner};
      return taggedTests;
    }

    /** One file: nothing, or its boundary. */
    method ApplyFile(file: string, unmapped: set<string>, taggedTests: TaggedTests, ghost done: seq<string>)
      returns (tagged: TaggedTests)
      requires FellBackOnly(unmapped) && taggedTests == AllTagged(tables, done)
      modifies this`required, this`focused, this`changed, this`testOnly, this`compileOnly
      ensures FellBackOnly(unmapped)
      ensures FreeFocus(unmapped) == old(FreeFocus(unmapped)) + (FocusesOf(tables, file) - unmapped)
      ensures forall d :: Kept(d) == old(Kept(d)) + BoundaryNames(tables, file, d)
      ensures changed == old(changed) + OwnerOf(tables, file) && testOnly == old(testOnly) - OwnerOf(tables, file)
      ensures compileOnly == old(compileOnly) - OwnerOf(tables, file)
      ensures tagged == AllTagged(tables, done + [file])
    {
      NextBoundary(tables, done, file);
      tagged := taggedTests;
      if file in tables.boundaries { tagged := ApplyBoundary(file, tables.boundaries[file], unmapped, tagged); }
    }

    method UnmappedDirs(files: seq<string>, inert: seq<string>) returns (unmapped: set<string>)
      ensures forall dir :: dir in unmapped <==> Unmapped(tables, files, inert, dir)
    {
      unmapped := {};
      var quiet := SortedUnique(inert);
      for i := 0 to |files|
        invariant forall dir :: dir in unmapped <==> Unmapped(tables, files[..i], inert, dir)
      {
        var file := files[i];
        assert files[..i + 1] == files[..i] + [file];
        if !IsGo(file) || IsTest(file) || IsGenerated(file) || file in quiet { continue; }
        if file in tables.boundaries { continue; }
        if file !in tables.focused { unmapped := unmapped + {Dir(file)}; }
      }
      assert files[..|files|] == files;
    }

    method ApplyPublicTestBoundaries(files: seq<string>, inert: seq<string>) returns (commands: seq<Command>)
      requires required == map[]
      modifies this`required, this`focused, this`changed, this`testOnly, this`compileOnly
      ensures forall d :: Kept(d) == old(Kept(d)) + AllBoundaryNames(tables, files, d)
      ensures forall d :: d in required <==> Unmapped(tables, files, inert, d)
      ensures forall d :: d in focused <==>
        (d in old(focused) || BoundaryFocused(tables, files, d)) && !Unmapped(tables, files, inert, d)
      ensures forall d :: d in changed <==> d in old(changed) || Owned(tables, files, d)
      ensures forall d :: d in testOnly <==> d in old(testOnly) && !Owned(tables, files, d)
      ensures forall d :: d in compileOnly <==> d in old(compileOnly) && !Owned(tables, files, d)
      ensures forall d, test :: RunBy(commands, d, test) <==> TaggedChosen(tables, files, d, test)
      ensures forall c :: c in commands ==> c.TaggedBoundary?
    {
      var unmapped := UnmappedDirs(files, inert);
      var tagged := ApplyBoundaries(files, unmapped);
      DropUnmappedFocus(unmapped);
      forall d ensures d in Owners(tables, files) <==> Owned(tables, files, d) { OwnersAreOwned(tables, files, d); }
      forall d ensures d in Focuses(tables, files) <==> BoundaryFocused(tables, files, d) {
        FocusesAreFocused(tables, files, d);
      }
      forall d ensures d in focused <==> d in FreeFocus(unmapped) {}
      commands := TaggedCommands(tables, files, tagged);
    }

    /** Every registered boundary, file by file. */
    method ApplyBoundaries(files: seq<string>, unmapped: set<string>) returns (tagged: TaggedTests)
      requires FellBackOnly(unmapped)
      modifies this`required, this`focused, this`changed, this`testOnly, this`compileOnly
      ensures FellBackOnly(unmapped)
      ensures FreeFocus(unmapped) == old(FreeFocus(unmapped)) + (Focuses(tables, files) - unmapped)
      ensures forall d :: Kept(d) == old(Kept(d)) + AllBoundaryNames(tables, files, d)
      ensures changed == old(changed) + Owners(tables, files) && testOnly == old(testOnly) - Owners(tables, files)
      ensures compileOnly == old(compileOnly) - Owners(tables, files)
      ensures tagged == AllTagged(tables, files)
    {
      tagged := map[];
      ghost var before := Picture();
      NothingApplied(tables, before, unmapped);
      assert files[..0] == [] && files[..|files|] == files;
      for i := 0 to |files|
        invariant FellBackOnly(unmapped) && Applied(tables, before, Picture(), unmapped, files[..i])
        invariant tagged == AllTagged(tables, files[..i])
      {
        ghost var here := Picture();
        tagged := ApplyFile(files[i], unmapped, tagged, files[..i]);
        ApplyOneMore(tables, before, here, Picture(), unmapped, files[..i], files[i]);
        assert files[..i + 1] == files[..i] + [files[i]];
      }
    }

    /** Any other unmapped package loses its focus to the slice too; the order of the packages does not matter. */
    method DropUnmappedFocus(unmapped: set<string>)
      requires FellBackOnly(unmapped)
      modifies this`required, this`focused
      ensures FellBackOnly(unmapped) && FreeFocus(unmapped) == old(FreeFocus(unmapped))
      ensures forall d :: d in required <==> d in unmapped
      ensures forall d :: Kept(d) == old(Kept(d))
    {
      var dirs := SortedKeys(unmapped);
      for i := 0 to |dirs|
        invariant FellBackOnly(unmapped) && FreeFocus(unmapped) == old(FreeFocus(unmapped))
        invariant forall j :: 0 <= j < i ==> dirs[j] in required
        invariant forall d :: Kept(d) == old(Kept(d))
      {
        var dir := dirs[i];
        assert dir in dirs;
        FallBackToPackageSlice(dir, [], unmapped);
      }
    }
  }

  function TagTests(m: TaggedTests, b: Boundary): TaggedTests {
    var key := (b.owner, SortedUnique(b.tags));
    m[key := (if key in m then m[key] else []) + b.tests]
  }

  lemma SetSteps(a: set<string>, b: set<string>, c: set<string>)
    ensures a + b + c == a + (b + c) && a - b - c == a - (b + c)
  {
  }

  lemma FreeSteps(a: set<string>, b: set<string>, c: set<string>, u: set<string>)
    ensures a + (b - u) + (c - u) == a + (b + c - u)
  {
  }

  /** The packages one boundary focuses: the source for a compile, the owner for its tests. */
  function FocusesOf(t: Tables, f: string): set<string> {
    if f in t.boundaries then {Dir(f)} + OwnerOf(t, f) else {}
  }

  function Focuses(t: Tables, files: seq<string>): set<string> {
    if files == [] then {} else Focuses(t, files[..|files| - 1]) + FocusesOf(t, files[|files| - 1])
  }

  predicate BoundaryFocused(t: Tables, files: seq<string>, dir: string) {
    exists f :: f in files && f in t.boundaries && (Dir(f) == dir || BoundaryOwner(t, f, dir))
  }

  lemma {:induction false} FocusesAreFocused(t: Tables, files: seq<string>, dir: string)
    ensures dir in Focuses(t, files) <==> BoundaryFocused(t, files, dir)
  {
    if files != [] {
      var init, last := files[..|files| - 1], files[|files| - 1];
      assert files == init + [last];
      FocusesAreFocused(t, init, dir);
      assert dir in FocusesOf(t, last) <==> last in t.boundaries && (Dir(last) == dir || BoundaryOwner(t, last, dir));
    }
  }

  function OwnerOf(t: Tables, f: string): set<string> {
    if f in t.boundaries && |t.boundaries[f].tags| == 0 then {t.boundaries[f].owner} else {}
  }

  function Owners(t: Tables, files: seq<string>): set<string> {
    if files == [] then {} else Owners(t, files[..|files| - 1]) + OwnerOf(t, files[|files| - 1])
  }

  function AllTagged(t: Tables, files: seq<string>): TaggedTests {
    if files == [] then map[]
    else
      var before, f := AllTagged(t, files[..|files| - 1]), files[|files| - 1];
      if f in t.boundaries && |t.boundaries[f].tags| > 0 then TagTests(before, t.boundaries[f]) else before
  }

  /** What these owners, focused packages and names make of the maps. */
  ghost predicate Moved(x: Selection, y: Selection, unmapped: set<string>, owners: set<string>, foci: set<string>,
                        names: string -> set<string>) {
    && y.changed == x.changed + owners && y.testOnly == x.testOnly - owners && y.compileOnly == x.compileOnly - owners
    && y.focused.Keys - unmapped == (x.focused.Keys - unmapped) + (foci - unmapped)
    && forall d :: KeptIn(y.required, y.focused, d) == KeptIn(x.required, x.focused, d) + names(d)
  }

  /** The boundaries of these files have been applied. */
  ghost predicate Applied(t: Tables, x: Selection, y: Selection, unmapped: set<string>, files: seq<string>) {
    Moved(x, y, unmapped, Owners(t, files), Focuses(t, files), d => AllBoundaryNames(t, files, d))
  }

  lemma NothingApplied(t: Tables, x: Selection, unmapped: set<string>)
    ensures Applied(t, x, x, unmapped, [])
  {
  }

  lemma ApplyOneMore(t: Tables, x: Selection, y: Selection, z: Selection, unmapped: set<string>, done: seq<string>,
                     f: string)
    requires Applied(t, x, y, unmapped, done)
    requires Moved(y, z, unmapped, OwnerOf(t, f), FocusesOf(t, f), d => BoundaryNames(t, f, d))
    ensures Applied(t, x, z, unmapped, done + [f])
  {
    NextBoundary(t, done, f);
    SetSteps(x.changed, Owners(t, done), OwnerOf(t, f));
    SetSteps(x.testOnly, Owners(t, done), OwnerOf(t, f));
    SetSteps(x.compileOnly, Owners(t, done), OwnerOf(t, f));
    FreeSteps(x.focused.Keys - unmapped, Focuses(t, done), FocusesOf(t, f), unmapped);
    forall d
      ensures KeptIn(z.required, z.focused, d) == KeptIn(x.required, x.focused, d) + AllBoundaryNames(t, done + [f], d)
    {
      SetSteps(KeptIn(x.required, x.focused, d), AllBoundaryNames(t, done, d), BoundaryNames(t, f, d));
    }
  }

  lemma NextBoundary(t: Tables, done: seq<string>, f: string)
    ensures Owners(t, done + [f]) == Owners(t, done) + OwnerOf(t, f)
    ensures Focuses(t, done + [f]) == Focuses(t, done) + FocusesOf(t, f)
    ensures AllTagged(t, done + [f]) ==
      if f in t.boundaries && |t.boundaries[f].tags| > 0 then TagTests(AllTagged(t, done), t.boundaries[f])
        else AllTagged(t, done)
    ensures forall d :: AllBoundaryNames(t, done + [f], d) == AllBoundaryNames(t, done, d) + BoundaryNames(t, f, d)
  {
    assert (done + [f])[..|done|] == done;
    forall d ensures AllBoundaryNames(t, done + [f], d) == AllBoundaryNames(t, done, d) + BoundaryNames(t, f, d) {
      AllBoundaryNamesNext(t, done, f, d);
    }
  }

  lemma {:induction false} OwnersAreOwned(t: Tables, files: seq<string>, dir: string)
    ensures dir in Owners(t, files) <==> Owned(t, files, dir)
  {
    if files != [] {
      var init, last := files[..|files| - 1], files[|files| - 1];
      assert files == init + [last];
      OwnersAreOwned(t, init, dir);
      assert dir in OwnerOf(t, last) <==> BoundaryOwner(t, last, dir);
      assert Owned(t, files, dir) <==> Owned(t, init, dir) || BoundaryOwner(t, last, dir);
    }
  }

  predicate InTagged(m: TaggedTests, owner: string, test: string) {
    test != "" && exists key :: key in m && key.0 == owner && test in m[key]
  }

  lemma TagTestsMembers(m: TaggedTests, b: Boundary, owner: string, test: string)
    ensures InTagged(TagTests(m, b), owner, test) <==>
      InTagged(m, owner, test) || (test != "" && b.owner == owner && test in b.tests)
  {
    var key, after := (b.owner, SortedUnique(b.tags)), TagTests(m, b);
    assert after[key] == (if key in m then m[key] else []) + b.tests;
    assert forall k :: k in after && k != key ==> k in m && after[k] == m[k];
    if k :| k in m && k.0 == owner && test in m[k] { assert k in after && test in after[k]; }
    if b.owner == owner && test in b.tests { assert key in after && test in after[key]; }
  }

  lemma {:induction false} TaggedAreChosen(t: Tables, files: seq<string>, owner: string, test: string)
    ensures InTagged(AllTagged(t, files), owner, test) <==> TaggedChosen(t, files, owner, test)
  {
    if files != [] {
      var init, f := files[..|files| - 1], files[|files| - 1];
      assert files == init + [f];
      TaggedAreChosen(t, init, owner, test);
      if f in t.boundaries && |t.boundaries[f].tags| > 0 {
        TagTestsMembers(AllTagged(t, init), t.boundaries[f], owner, test);
      }
    }
  }

  /** One command per owner and tag set. */
  method TaggedCommands(t: Tables, ghost files: seq<string>, tagged: TaggedTests) returns (commands: seq<Command>)
    requires tagged == AllTagged(t, files)
    ensures forall d, test :: RunBy(commands, d, test) <==> TaggedChosen(t, files, d, test)
    ensures forall c :: c in commands ==> c.TaggedBoundary?
  {
    commands := [];
    var left := tagged.Keys;
    while left != {}
      invariant left <= tagged.Keys && forall c :: c in commands ==> c.TaggedBoundary?
      invariant forall d, test :: RunBy(commands, d, test) <==>
        InTagged(map k | k in tagged && k !in left :: tagged[k], d, test)
      decreases |left|
    {
      var key :| key in left;
      var c := TaggedBoundary(key.0, key.1, SortedUnique(tagged[key]));
      EmitTagged(tagged, left, key, commands, c);
      commands := commands + [c];
      left := left - {key};
    }
    assert (map k | k in tagged && k !in left :: tagged[k]) == tagged;
    forall d, test ensures InTagged(tagged, d, test) <==> TaggedChosen(t, files, d, test) {
      TaggedAreChosen(t, files, d, test);
    }
  }

  lemma EmitTagged(tagged: TaggedTests, left: set<(string, seq<string>)>, key: (string, seq<string>),
                   commands: seq<Command>, c: Command)
    requires left <= tagged.Keys && key in left && c == TaggedBoundary(key.0, key.1, SortedUnique(tagged[key]))
    requires forall d, test :: RunBy(commands, d, test) <==>
      InTagged(map k | k in tagged && k !in left :: tagged[k], d, test)
    ensures forall d, test :: RunBy(commands + [c], d, test) <==>
      InTagged(map k | k in tagged && k !in left - {key} :: tagged[k], d, test)
  {
    var before := map k | k in tagged && k !in left :: tagged[k];
    var after := map k | k in tagged && k !in left - {key} :: tagged[k];
    forall d, test ensures RunBy(commands + [c], d, test) <==> InTagged(after, d, test) {
      RunByAppend(commands, [c], d, test);
      assert RunBy([c], d, test) <==> Runs([c][0], d, test);
      if k :| k in before && k.0 == d && test in before[k] { assert k in after && test in after[k]; }
      if k :| k in after && k.0 == d && test in after[k] { assert k == key || (k in before && test in before[k]); }
      if d == key.0 && test in tagged[key] { assert key in after && test in after[key]; }
    }
  }

  method GatherFocus(t: Tables, files: seq<string>, changedTests: map<string, seq<string>>)
    returns (result: map<string, seq<string>>)
    ensures forall dir, test :: test in Listed(result, dir) <==> RawChosen(t, files, changedTests, dir, test)
    ensures forall dir :: dir in result <==> dir in changedTests || FocusedDir(t, files, dir)
  {
    result := changedTests;
    ghost var done: seq<string> := [];
    for i := 0 to |files|
      invariant done == files[..i]
      invariant forall dir, test :: test in Listed(result, dir) <==> RawChosen(t, done, changedTests, dir, test)
      invariant forall dir :: dir in result <==> dir in changedTests || FocusedDir(t, done, dir)
    {
      var file := files[i];
      NextFocus(t, done, changedTests, file);
      assert done + [file] == files[..i + 1];
      done := done + [file];
      if file in t.focused {
        AppendToMembers(result, Dir(file), t.focused[file]);
        result := AppendTo(result, Dir(file), t.focused[file]);
      }
    }
    assert done == files;
  }

  /** The two flags of a package say what its relevant files are. */
  ghost predicate ClassifiedAt(files: seq<string>, inert: seq<string>, generatedOnly: map<string, bool>,
                               testLike: map<string, bool>, dir: string) {
    && (dir in generatedOnly <==> Touched(files, dir))
    && (dir in generatedOnly && dir in testLike ==>
          (generatedOnly[dir] <==> AllQuiet(files, inert, dir)) && (testLike[dir] <==> AllTestLike(files, inert, dir)))
  }

  ghost predicate Classified(files: seq<string>, inert: seq<string>, generatedOnly: map<string, bool>,
                             testLike: map<string, bool>) {
    generatedOnly.Keys == testLike.Keys && forall dir :: ClassifiedAt(files, inert, generatedOnly, testLike, dir)
  }

  method ClassifyFiles(files: seq<string>, inert: seq<string>)
    returns (generatedOnly: map<string, bool>, testLike: map<string, bool>)
    ensures Classified(files, inert, generatedOnly, testLike)
  {
    generatedOnly, testLike := map[], map[];
    for i := 0 to |files|
      invariant Classified(files[..i], inert, generatedOnly, testLike)
    {
      ghost var done := files[..i];
      assert files[..i + 1] == done + [files[i]];
      generatedOnly, testLike := ClassifyNext(done, files[i], inert, generatedOnly, testLike);
    }
    assert files[..|files|] == files;
  }

  method ClassifyNext(ghost done: seq<string>, file: string, inert: seq<string>, generatedOnly: map<string, bool>,
                      testLike: map<string, bool>)
    returns (generatedOnly': map<string, bool>, testLike': map<string, bool>)
    requires Classified(done, inert, generatedOnly, testLike)
    ensures Classified(done + [file], inert, generatedOnly', testLike')
  {
    generatedOnly', testLike' := generatedOnly, testLike;
    if Relevant(file) { generatedOnly', testLike' := Classify(file, inert, generatedOnly, testLike); }
    forall dir ensures ClassifiedAt(done + [file], inert, generatedOnly', testLike', dir) {
      assert ClassifiedAt(done, inert, generatedOnly, testLike, dir);
      NextFile(done, inert, file, dir);
      AllHoldOfUntouched(done, inert, dir);
    }
  }

  predicate RawChosen(t: Tables, files: seq<string>, changedTests: map<string, seq<string>>, dir: string,
                      test: string) {
    test in Listed(changedTests, dir) || exists f :: f in files && FileBinds(t, f, dir, test)
  }

  predicate FocusedDir(t: Tables, files: seq<string>, dir: string) {
    exists f :: f in files && f in t.focused && Dir(f) == dir
  }

  lemma NextFocus(t: Tables, done: seq<string>, changedTests: map<string, seq<string>>, file: string)
    ensures forall dir, test :: RawChosen(t, done + [file], changedTests, dir, test) <==>
      RawChosen(t, done, changedTests, dir, test) || FileBinds(t, file, dir, test)
    ensures forall dir :: FocusedDir(t, done + [file], dir) <==>
      FocusedDir(t, done, dir) || (file in t.focused && Dir(file) == dir)
  {
  }

  /** Lowers the two flags of the file's package where the file contradicts them. */
  method Classify(file: string, inert: seq<string>, generatedOnly: map<string, bool>, testLike: map<string, bool>)
    returns (generatedOnly': map<string, bool>, testLike': map<string, bool>)
    requires generatedOnly.Keys == testLike.Keys
    ensures generatedOnly'.Keys == testLike'.Keys == generatedOnly.Keys + {Dir(file)}
    ensures forall d :: d in generatedOnly && d != Dir(file) ==> generatedOnly'[d] == generatedOnly[d]
    ensures forall d :: d in testLike && d != Dir(file) ==> testLike'[d] == testLike[d]
    ensures generatedOnly'[Dir(file)] <==>
      (Dir(file) in generatedOnly ==> generatedOnly[Dir(file)]) && Quiet(inert, file)
    ensures testLike'[Dir(file)] <==> (Dir(file) in testLike ==> testLike[Dir(file)]) && TestLike(inert, file)
  {
    var dir := Dir(file);
    generatedOnly', testLike' := generatedOnly, testLike;
    if dir !in generatedOnly { generatedOnly', testLike' := generatedOnly'[dir := true], testLike'[dir := true]; }
    if file == POLICY || IsTest(file) || (!IsGenerated(file) && file !in inert) {
      generatedOnly' := generatedOnly'[dir := false];
    }
    if file == POLICY || (!IsTest(file) && file !in inert) { testLike' := testLike'[dir := false]; }
  }

  lemma AllHoldOfUntouched(files: seq<string>, inert: seq<string>, dir: string)
    ensures !Touched(files, dir) ==> AllQuiet(files, inert, dir) && AllTestLike(files, inert, dir)
  {
  }

  /** How one more file changes the three classifications of a directory. */
  lemma NextFile(done: seq<string>, inert: seq<string>, file: string, dir: string)
    ensures Touched(done + [file], dir) <==> Touched(done, dir) || (Relevant(file) && Dir(file) == dir)
    ensures AllQuiet(done + [file], inert, dir) <==>
      AllQuiet(done, inert, dir) && (Relevant(file) && Dir(file) == dir ==> Quiet(inert, file))
    ensures AllTestLike(done + [file], inert, dir) <==>
      AllTestLike(done, inert, dir) && (Relevant(file) && Dir(file) == dir ==> TestLike(inert, file))
  {
    var all := done + [file];
    assert file in all && forall f :: f in done ==> f in all;
  }
}
