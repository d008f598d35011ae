/** Which chosen tests the finished plan executes, and which packages get their slice: exactly, from the inputs. */
module AffectedCoverage {
  import opened AffectedTests
  import opened AffectedPlan
  import opened AffectedCommands
  import opened AffectedAdjustments

  /** Registered files are Go files; packages with changed tests have a changed test file. */
  ghost predicate InputsOK(t: Tables, files: seq<string>, changedTests: map<string, seq<string>>) {
    && (forall f :: f in t.focused || f in t.boundaries ==> IsGo(f))
    && (forall dir :: dir in changedTests ==> exists f :: f in files && IsTest(f) && Dir(f) == dir)
  }

  /** A changed or file-bound test, or the test of a changed file's boundary. */
  predicate Chosen(t: Tables, files: seq<string>, changedTests: map<string, seq<string>>, dir: string, test: string) {
    FocusChosen(t, files, changedTests, dir, test) || BoundaryChosen(t, files, dir, test)
  }

  /** The package is named by a changed test, a bound file or a boundary. */
  predicate HasFocus(t: Tables, files: seq<string>, changedTests: map<string, seq<string>>, dir: string) {
    dir in changedTests || FocusedDir(t, files, dir) || BoundaryFocused(t, files, dir)
  }

  ghost predicate KeptIs(t: Tables, x: Selection, files: seq<string>, changedTests: map<string, seq<string>>, d: string,
                         test: string) {
    test != "" && (test in Listed(x.required, d) || test in Listed(x.focused, d)) <==>
      Chosen(t, files, changedTests, d, test)
  }

  /** What selection, focus and boundaries leave behind. */
  ghost predicate Planned(t: Tables, x: Selection, files: seq<string>, inert: seq<string>,
                          changedTests: map<string, seq<string>>) {
    && (forall d, test :: KeptIs(t, x, files, changedTests, d, test))
    && (forall d :: d in x.required <==> Unmapped(t, files, inert, d))
    && (forall d :: d in x.focused <==> HasFocus(t, files, changedTests, d) && !Unmapped(t, files, inert, d))
    && (forall d :: d in x.changed <==> Changes(files, inert, d) || Owned(t, files, d))
    && (forall d :: d in x.testOnly <==> TestsOnly(files, inert, d) && !Owned(t, files, d))
    && (forall d :: d in x.compileOnly <==> CompilesOnly(files, inert, d) && !Owned(t, files, d))
  }

  // ---- What the inputs decide ----

  /** Some changed Go file of the package is neither generated nor inert, or the package owns a boundary. */
  predicate Selected(t: Tables, files: seq<string>, inert: seq<string>, d: string) {
    !CompilesOnly(files, inert, d) || Owned(t, files, d)
  }

  /** A chosen test of the package is executed. */
  predicate Reached(t: Tables, files: seq<string>, inert: seq<string>, d: string, test: string) {
    if d == WASM then TestsOnly(files, inert, d) && !Owned(t, files, d)
    else if d == AUTHORITY then
      || (!AuthorityCut(files) && (Selected(t, files, inert, d) || KitChanged(t, files) || ParityDue(files)))
      || (KitChanged(t, files) && test == KIT_PARITY) || (ParityDue(files) && test == RENDERER_PARITY)
    else if d == RENDERER then !RendererCut(files) && Selected(t, files, inert, d)
    else Selected(t, files, inert, d) || (d == TEMPLATES && TemplatesChanged(files))
  }

  predicate Untagged(tags: map<string, seq<string>>, d: string) { |TagsOf(tags, d)| == 0 }

  /** The package gets a slice. */
  predicate SliceDue(t: Tables, files: seq<string>, inert: seq<string>, changedTests: map<string, seq<string>>,
                     tags: map<string, seq<string>>, d: string) {
    && d != WASM && (Changes(files, inert, d) || (d == TEMPLATES && TemplatesChanged(files)))
    && (Unmapped(t, files, inert, d)
        || (Untagged(tags, d) && !HasFocus(t, files, changedTests, d) && !(d == AUTHORITY && KitChanged(t, files))))
  }

  // ---- Facts about one package ----

  lemma UnmappedChanges(t: Tables, files: seq<string>, inert: seq<string>, dir: string)
    ensures Unmapped(t, files, inert, dir) ==> Changes(files, inert, dir)
  {
    if Unmapped(t, files, inert, dir) {
      var f :| f in files && UnmappedFile(t, inert, f) && Dir(f) == dir;
      assert Relevant(f) && !Quiet(inert, f) && !TestLike(inert, f);
    }
  }

  lemma ChosenIsTouched(t: Tables, files: seq<string>, changedTests: map<string, seq<string>>, dir: string,
                        test: string)
    requires InputsOK(t, files, changedTests) && FocusChosen(t, files, changedTests, dir, test)
    ensures Touched(files, dir)
  {
    if dir in changedTests {
      var f :| f in files && IsTest(f) && Dir(f) == dir;
      TestFilesAreGo(f);
    } else {
      var f :| f in files && FileBinds(t, f, dir, test);
    }
  }

  /** A package with changed tests has a changed test file, so it is never compile-only. */
  lemma ChangedTestsAreNotCompileOnly(t: Tables, files: seq<string>, inert: seq<string>,
                                      changedTests: map<string, seq<string>>, dir: string)
    requires InputsOK(t, files, changedTests) && dir in changedTests
    ensures !CompilesOnly(files, inert, dir)
  {
    var f :| f in files && IsTest(f) && Dir(f) == dir;
    TestFilesAreGo(f);
    assert Relevant(f) && !Quiet(inert, f);
  }

  /** A touched authority or renderer package has a Go change below it, so it is not cut. */
  lemma TouchedIsNotCut(files: seq<string>)
    ensures Touched(files, AUTHORITY) ==> !AuthorityCut(files)
    ensures Touched(files, RENDERER) ==> !RendererCut(files)
  {
    NamesDiffer();
    if Touched(files, AUTHORITY) { TouchedIsUnder(files, AUTHORITY); }
    if Touched(files, RENDERER) { TouchedIsUnder(files, RENDERER); }
  }

  lemma TouchedIsUnder(files: seq<string>, d: string)
    requires Touched(files, d) && |d| > 1 && |d| != 21
    ensures GoUnder(files, d + "/")
  {
    var f :| f in files && Relevant(f) && Dir(f) == d;
    PolicyDir();
    assert d != ".";
    UnderItsDir(f);
  }

  lemma PolicyDir()
    ensures |Dir(POLICY)| == 21
  {
    var dir, name := "internal/releaseindex", "release-trust-policy.json";
    assert POLICY == dir + "/" + name;
    DirOf(dir, name);
  }

  // ---- Main results ----

  /** The selection a chosen test is executed from. */
  ghost predicate Finished(t: Tables, x: Selection, y: Selection, files: seq<string>, inert: seq<string>,
                           changedTests: map<string, seq<string>>) {
    InputsOK(t, files, changedTests) && Planned(t, x, files, inert, changedTests) && IsAdjusted(t, x, files, y)
  }

  /** Everything the selection says of one package and test, without quantifiers. */
  predicate PackageFacts(t: Tables, x: Selection, y: Selection, files: seq<string>, inert: seq<string>,
                         changedTests: map<string, seq<string>>, d: string, test: string) {
    && (test in Listed(x.required, d) || test in Listed(x.focused, d))
    && (d in x.required <==> Unmapped(t, files, inert, d)) && (d in x.required ==> d !in x.focused)
    && (d in x.changed <==> Changes(files, inert, d) || Owned(t, files, d))
    && (d in x.testOnly <==> TestsOnly(files, inert, d) && !Owned(t, files, d))
    && y.required == x.required && (d in y.changed <==> ChangedAfter(t, x, files, d))
    && (d in y.testOnly <==> d in x.testOnly && !(d == AUTHORITY && ParityAdded(t, x, files)))
    && (d in y.focused <==> FocusedAfter(t, x, files, d))
    && (test in Listed(y.focused, d) <==> FocusAfter(t, x, files, d, test))
    && (Touched(files, d) || Owned(t, files, d))
    && (Unmapped(t, files, inert, d) ==> Changes(files, inert, d))
  }

  lemma FactsOfPackage(t: Tables, x: Selection, y: Selection, files: seq<string>, inert: seq<string>,
                       changedTests: map<string, seq<string>>, dir: string, test: string)
    requires Finished(t, x, y, files, inert, changedTests) && Chosen(t, files, changedTests, dir, test)
    ensures PackageFacts(t, x, y, files, inert, changedTests, dir, test)
  {
    assert KeptIs(t, x, files, changedTests, dir, test);
    UnmappedChanges(t, files, inert, dir);
    if FocusChosen(t, files, changedTests, dir, test) { ChosenIsTouched(t, files, changedTests, dir, test); }
  }

  lemma FactsDecide(t: Tables, x: Selection, y: Selection, tags: map<string, seq<string>>, files: seq<string>,
                    inert: seq<string>, changedTests: map<string, seq<string>>, dir: string, test: string)
    requires PackageFacts(t, x, y, files, inert, changedTests, dir, test) && test != ""
    ensures Executes(t, y, tags, dir, test) <==> Reached(t, files, inert, dir, test)
  {
    NamesDiffer();
    TouchedIsNotCut(files);
  }

  /** No selected test is lost but where the planner withholds its package: a chosen test is executed exactly when
      its package is reached. */
  lemma NoSelectedTestLost(t: Tables, x: Selection, y: Selection, tags: map<string, seq<string>>, files: seq<string>,
                           inert: seq<string>, changedTests: map<string, seq<string>>, dir: string, test: string)
    requires Finished(t, x, y, files, inert, changedTests) && Chosen(t, files, changedTests, dir, test)
    ensures Executes(t, y, tags, dir, test) <==> Reached(t, files, inert, dir, test)
  {
    FactsOfPackage(t, x, y, files, inert, changedTests, dir, test);
    FactsDecide(t, x, y, tags, files, inert, changedTests, dir, test);
  }

  /** The packages the planner leaves to other commands, whatever is chosen in them. */
  predicate Withheld(files: seq<string>, d: string) {
    d == WASM || (d == AUTHORITY && AuthorityCut(files)) || (d == RENDERER && RendererCut(files))
  }

  /** Every chosen test of a package that is neither withheld nor compile-only is executed. */
  lemma ChosenTestIsRun(t: Tables, x: Selection, y: Selection, tags: map<string, seq<string>>, files: seq<string>,
                        inert: seq<string>, changedTests: map<string, seq<string>>, dir: string, test: string)
    requires Finished(t, x, y, files, inert, changedTests) && Chosen(t, files, changedTests, dir, test)
    requires !Withheld(files, dir) && Selected(t, files, inert, dir)
    ensures Executes(t, y, tags, dir, test)
  {
    NoSelectedTestLost(t, x, y, tags, files, inert, changedTests, dir, test);
  }

  /** A changed test of any package but the js/wasm one is executed: its file keeps the package from being cut and
      from being compile-only. */
  lemma ChangedTestIsRun(t: Tables, x: Selection, y: Selection, tags: map<string, seq<string>>, files: seq<string>,
                         inert: seq<string>, changedTests: map<string, seq<string>>, dir: string, test: string)
    requires Finished(t, x, y, files, inert, changedTests) && dir in changedTests && dir != WASM
    requires FocusChosen(t, files, changedTests, dir, test)
    ensures Executes(t, y, tags, dir, test)
  {
    ChangedTestsAreNotCompileOnly(t, files, inert, changedTests, dir);
    ChosenIsTouched(t, files, changedTests, dir, test);
    TouchedIsNotCut(files);
    ChosenTestIsRun(t, x, y, tags, files, inert, changedTests, dir, test);
  }

  /** A package gets its slice exactly when one is due. */
  lemma SlicesAreExact(t: Tables, x: Selection, y: Selection, tags: map<string, seq<string>>, files: seq<string>,
                       inert: seq<string>, changedTests: map<string, seq<string>>, dir: string)
    requires Finished(t, x, y, files, inert, changedTests)
    ensures dir in y.changed && FallsBack(y, tags, dir) <==> SliceDue(t, files, inert, changedTests, tags, dir)
  {
    NamesDiffer();
    TouchedIsNotCut(files);
    UnmappedChanges(t, files, inert, dir);
  }

  /** A package with unmapped production changes gets its slice exactly when it is not the js/wasm-only one. */
  lemma UnmappedProductionIsSliced(t: Tables, x: Selection, y: Selection, tags: map<string, seq<string>>,
                                   files: seq<string>, inert: seq<string>, changedTests: map<string, seq<string>>,
                                   dir: string)
    requires Finished(t, x, y, files, inert, changedTests) && Unmapped(t, files, inert, dir)
    ensures dir in y.changed && FallsBack(y, tags, dir) <==> dir != WASM
  {
    SlicesAreExact(t, x, y, tags, files, inert, changedTests, dir);
    UnmappedChanges(t, files, inert, dir);
  }

  /** Every package with a changed Go file is built, but for the js/wasm-only one. */
  lemma NoTouchedPackageForgotten(t: Tables, x: Selection, y: Selection, tags: map<string, seq<string>>,
                                  files: seq<string>, inert: seq<string>, changedTests: map<string, seq<string>>,
                                  commands: seq<Command>, dir: string)
    requires Finished(t, x, y, files, inert, changedTests) && Touched(files, dir) && dir != WASM
    requires RunsSelection(t, y, tags, commands) && CompilesSelection(y, tags, commands)
    ensures Built(commands, dir)
  {
    NamesDiffer();
    TouchedIsNotCut(files);
    assert dir in x.changed || dir in x.testOnly || dir in x.compileOnly;
    SelectedIsBuilt(t, y, tags, commands, dir);
  }

  // ---- The slice the discovery warning announces ----

  /** Test files that cannot be read leave no focus and no tag. Then the announced slice is emitted exactly when
      the package also has a real production change. */
  lemma AnnouncedSliceIsEmittedExactly(t: Tables, x: Selection, y: Selection, tags: map<string, seq<string>>,
                                       files: seq<string>, inert: seq<string>, changedTests: map<string, seq<string>>,
                                       dir: string)
    requires Finished(t, x, y, files, inert, changedTests)
    requires Untagged(tags, dir) && !HasFocus(t, files, changedTests, dir) && dir !in {WASM, AUTHORITY, TEMPLATES}
    ensures dir in y.changed && FallsBack(y, tags, dir) <==> Changes(files, inert, dir)
  {
    SlicesAreExact(t, x, y, tags, files, inert, changedTests, dir);
  }

  lemma {:induction false} UnlistedName(names: seq<string>) returns (n: string)
    ensures n !in names && forall m :: m in names ==> |m| < |n|
  {
    if names == [] {
      n := "T";
    } else {
      var k := UnlistedName(names[1..]);
      n := k + names[0] + "T";
      forall m | m in names ensures |m| < |n| { assert m == names[0] || m in names[1..]; }
    }
  }

  /** A test-only package without a chosen test executes some test exactly when a parity test or
      the templates pull it in. */
  lemma TestOnlyWithoutChosenOnlyCompiles(t: Tables, x: Selection, y: Selection, tags: map<string, seq<string>>,
                                          files: seq<string>, inert: seq<string>,
                                          changedTests: map<string, seq<string>>, dir: string)
    requires Finished(t, x, y, files, inert, changedTests) && TestsOnly(files, inert, dir) && !Owned(t, files, dir)
    requires forall test :: !FocusChosen(t, files, changedTests, dir, test)
    ensures (exists test :: Executes(t, y, tags, dir, test)) <==>
      || (dir == AUTHORITY && (KitChanged(t, files) || ParityDue(files)))
      || (dir == TEMPLATES && SliceDue(t, files, inert, changedTests, tags, dir))
  {
    NamesDiffer();
    TouchedIsNotCut(files);
    UnmappedChanges(t, files, inert, dir);
    SlicesAreExact(t, x, y, tags, files, inert, changedTests, dir);
    NothingKept(t, x, files, changedTests, dir);
    if dir == AUTHORITY && KitChanged(t, files) { assert Executes(t, y, tags, dir, KIT_PARITY); }
    if dir == AUTHORITY && !KitChanged(t, files) && ParityDue(files) {
      assert Executes(t, y, tags, dir, RENDERER_PARITY);
    }
    if SliceDue(t, files, inert, changedTests, tags, dir) {
      var n := UnlistedName(SlowTests(t, dir));
      assert Executes(t, y, tags, dir, n);
    }
  }

  lemma NothingKept(t: Tables, x: Selection, files: seq<string>, changedTests: map<string, seq<string>>, dir: string)
    requires forall test :: KeptIs(t, x, files, changedTests, dir, test)
    requires !Owned(t, files, dir) && forall test :: !FocusChosen(t, files, changedTests, dir, test)
    ensures forall test :: test in Listed(x.required, dir) || test in Listed(x.focused, dir) ==> test == ""
  {
    forall test | test != "" ensures test !in Listed(x.required, dir) && test !in Listed(x.focused, dir) {
      assert KeptIs(t, x, files, changedTests, dir, test);
    }
  }

  /** A diff of one unregistered test file that could not be read. */
  ghost predicate OnlyUnreadable(t: Tables, x: Selection, y: Selection, file: string, dir: string) {
    && IsTest(file) && IsGo(file) && file != POLICY && Dir(file) == dir && dir !in {WASM, AUTHORITY, TEMPLATES}
    && file !in t.focused && file !in t.boundaries && Finished(t, x, y, [file], [], map[])
  }

  lemma OnlyUnreadableIsTestOnly(t: Tables, x: Selection, y: Selection, file: string, dir: string)
    requires OnlyUnreadable(t, x, y, file, dir)
    ensures TestsOnly([file], [], dir) && !Owned(t, [file], dir)
    ensures forall test :: !FocusChosen(t, [file], map[], dir, test) && !TaggedChosen(t, [file], dir, test)
  {
    assert file in [file];
  }

  lemma OnlyUnreadableIsCompiled(t: Tables, x: Selection, y: Selection, file: string, dir: string)
    requires OnlyUnreadable(t, x, y, file, dir)
    ensures TestsOnly([file], [], dir) && !SliceDue(t, [file], [], map[], map[], dir)
    ensures forall test :: !Executes(t, y, map[], dir, test) && !TaggedChosen(t, [file], dir, test)
  {
    OnlyUnreadableIsTestOnly(t, x, y, file, dir);
    TestOnlyWithoutChosenOnlyCompiles(t, x, y, map[], [file], [], map[], dir);
  }

  /** At a diff of one test file that could not be read, no slice is due and no test of its package is executed. */
  lemma UnreadableTestIsOnlyCompiled(t: Tables, x: Selection, y: Selection)
    requires UNREADABLE !in t.focused && UNREADABLE !in t.boundaries && Finished(t, x, y, [UNREADABLE], [], map[])
    ensures TestsOnly([UNREADABLE], [], "pkg") && !SliceDue(t, [UNREADABLE], [], map[], map[], "pkg")
    ensures forall test :: !Executes(t, y, map[], "pkg", test) && !TaggedChosen(t, [UNREADABLE], "pkg", test)
  {
    UnreadableFile();
    assert |AUTHORITY| != |"pkg"| && |TEMPLATES| != |"pkg"| && |WASM| != |"pkg"|;
    OnlyUnreadableIsCompiled(t, x, y, UNREADABLE, "pkg");
  }

  const UNREADABLE := "pkg/a_test.go"

  lemma UnreadableFile()
    ensures IsTest(UNREADABLE) && IsGo(UNREADABLE) && Dir(UNREADABLE) == "pkg" && UNREADABLE != POLICY
  {
    DirOf("pkg", "a_test.go");
    assert UNREADABLE == "pkg" + "/" + "a_test.go";
  }

  // ---- The js/wasm-only package ----

  const WASM_MAIN := WASM + "/" + "main_js_wasm.go"
  const WASM_TEST := WASM + "/" + "main_test.go"

  lemma SuffixOfName(dir: string, name: string, suffix: string)
    requires |suffix| <= |name|
    ensures HasSuffix(dir + "/" + name, suffix) <==> HasSuffix(name, suffix)
  {
    var f := dir + "/" + name;
    assert f[|f| - |suffix|..] == name[|name| - |suffix|..];
  }

  lemma WasmMain()
    ensures IsGo(WASM_MAIN) && !IsTest(WASM_MAIN) && !IsGenerated(WASM_MAIN) && Dir(WASM_MAIN) == WASM
  {
    var name := "main_js_wasm.go";
    DirOf(WASM, name);
    SuffixOfName(WASM, name, ".go");
    SuffixOfName(WASM, name, "_test.go");
    SuffixOfName(WASM, name, "_gen.go");
    SuffixOfName(WASM, name, "_generated.go");
    assert name[|name| - 4] == 'm';
  }

  lemma WasmTest()
    ensures IsTest(WASM_TEST) && Dir(WASM_TEST) == WASM
  {
    DirOf(WASM, "main_test.go");
    SuffixOfName(WASM, "main_test.go", "_test.go");
  }

  /** Its production change is unmapped and yet gets no slice; with a changed test beside it, that test is lost. */
  lemma WasmPackageIsWithheld(t: Tables, x: Selection, y: Selection, tags: map<string, seq<string>>)
    requires var files := [WASM_MAIN, WASM_TEST]; var changedTests := map[WASM := ["TestX"]];
      && (forall f :: f in files ==> f !in t.focused && f !in t.boundaries)
      && Finished(t, x, y, files, [], changedTests)
    ensures var files := [WASM_MAIN, WASM_TEST]; var changedTests := map[WASM := ["TestX"]];
      && Unmapped(t, files, [], WASM) && !SliceDue(t, files, [], changedTests, tags, WASM)
      && FocusChosen(t, files, changedTests, WASM, "TestX") && !Executes(t, y, tags, WASM, "TestX")
  {
    var files, changedTests := [WASM_MAIN, WASM_TEST], map[WASM := ["TestX"]];
    WasmMain();
    WasmTest();
    assert WASM_MAIN in files && UnmappedFile(t, [], WASM_MAIN);
    assert "TestX" in Listed(changedTests, WASM);
    assert Relevant(WASM_MAIN) && !TestLike([], WASM_MAIN) && !AllTestLike(files, [], WASM);
    NoSelectedTestLost(t, x, y, tags, files, [], changedTests, WASM, "TestX");
  }

  // ---- The plan ----

  /** The planner's commands: the tests of the adjusted selection and of tagged boundaries, the slices due, the
      compiles of the selection, and no touched package left out. */
  method PlanTests(t: Tables, files: seq<string>, inert: seq<string>, changedTests: map<string, seq<string>>,
                   tags: map<string, seq<string>>)
    returns (commands: seq<Command>, ghost x: Selection, ghost y: Selection)
    requires InputsOK(t, files, changedTests)
    ensures Finished(t, x, y, files, inert, changedTests)
    ensures forall d, test :: RunBy(commands, d, test) <==>
      Executes(t, y, tags, d, test) || TaggedChosen(t, files, d, test)
    ensures forall d, test :: Chosen(t, files, changedTests, d, test) ==>
      (RunBy(commands, d, test) <==> Reached(t, files, inert, d, test) || TaggedChosen(t, files, d, test))
    ensures forall d :: Sliced(commands, d) <==> SliceDue(t, files, inert, changedTests, tags, d)
    ensures CompilesSelection(y, tags, commands) && forall c :: c in commands && c.Focused? ==> InBatch(tags, c)
    ensures forall d :: Touched(files, d) && d != WASM ==> Built(commands, d)
  {
    var selection, boundary := SelectPackages(t, files, inert, changedTests);
    var adjusted := AdjustSelection(t, selection, files);
    x, y := selection, adjusted;
    var direct := AffectedGoCommands(t, adjusted, tags);
    commands := direct + boundary;
    BothCommands(t, y, tags, files, direct, boundary);
    BothCompile(t, y, tags, direct, boundary);
    forall d, test | Chosen(t, files, changedTests, d, test)
      ensures Executes(t, y, tags, d, test) <==> Reached(t, files, inert, d, test)
    {
      NoSelectedTestLost(t, x, y, tags, files, inert, changedTests, d, test);
    }
    forall d ensures d in y.changed && FallsBack(y, tags, d) <==> SliceDue(t, files, inert, changedTests, tags, d) {
      SlicesAreExact(t, x, y, tags, files, inert, changedTests, d);
    }
    forall d | Touched(files, d) && d != WASM ensures Built(commands, d) {
      NoTouchedPackageForgotten(t, x, y, tags, files, inert, changedTests, direct, d);
      var c :| c in direct && Builds(c, d);
      assert c in commands;
    }
  }

  /** Selection, focus and boundaries, in this order. */
  method SelectPackages(t: Tables, files: seq<string>, inert: seq<string>, changedTests: map<string, seq<string>>)
    returns (x: Selection, boundary: seq<Command>)
    ensures Planned(t, x, files, inert, changedTests)
    ensures forall d, test :: RunBy(boundary, d, test) <==> TaggedChosen(t, files, d, test)
    ensures forall c :: c in boundary ==> c.TaggedBoundary?
  {
    var p := new Planner(t);
    p.Select(files, inert);
    p.FocusGoTests(files, changedTests);
    ghost var focus := p.focused;
    boundary := p.ApplyPublicTestBoundaries(files, inert);
    x := Selection(p.changed, p.testOnly, p.compileOnly, p.required, p.focused);
    KeptIsChosen(t, x, focus, files, changedTests);
  }

  lemma BothCommands(t: Tables, y: Selection, tags: map<string, seq<string>>, files: seq<string>, direct: seq<Command>,
                     boundary: seq<Command>)
    requires RunsSelection(t, y, tags, direct)
    requires forall d, test :: RunBy(boundary, d, test) <==> TaggedChosen(t, files, d, test)
    requires forall c :: c in boundary ==> c.TaggedBoundary?
    ensures forall d, test :: RunBy(direct + boundary, d, test) <==>
      Executes(t, y, tags, d, test) || TaggedChosen(t, files, d, test)
    ensures forall d :: Sliced(direct + boundary, d) <==> d in y.changed && FallsBack(y, tags, d)
  {
    forall d, test ensures RunBy(direct + boundary, d, test) <==> RunBy(direct, d, test) || RunBy(boundary, d, test) {
      RunByAppend(direct, boundary, d, test);
    }
    forall d ensures Sliced(direct + boundary, d) <==> Sliced(direct, d) { SlicedAppend(direct, boundary, d); }
  }

  /** Boundary commands compile nothing and add no batch. */
  lemma BothCompile(t: Tables, y: Selection, tags: map<string, seq<string>>, direct: seq<Command>,
                    boundary: seq<Command>)
    requires RunsSelection(t, y, tags, direct) && CompilesSelection(y, tags, direct)
    requires forall c :: c in boundary ==> c.TaggedBoundary?
    ensures CompilesSelection(y, tags, direct + boundary)
    ensures forall c :: c in direct + boundary && c.Focused? ==> InBatch(tags, c)
  {
    assert forall c :: c in direct + boundary <==> c in direct || c in boundary;
    forall d ensures Compiled(direct + boundary, d) <==> Compiled(direct, d) {}
    forall key, d ensures TagCompiled(direct + boundary, key, d) <==> TagCompiled(direct, key, d) {}
  }

  lemma KeptIsChosen(t: Tables, x: Selection, focus: map<string, seq<string>>, files: seq<string>,
                     changedTests: map<string, seq<string>>)
    requires forall d, test :: test in Listed(focus, d) <==> FocusChosen(t, files, changedTests, d, test)
    requires forall d ::
      Names(Listed(x.required, d)) + Names(Listed(x.focused, d)) == Names(Listed(focus, d)) +
        AllBoundaryNames(t, files, d)
    ensures forall d, test :: KeptIs(t, x, files, changedTests, d, test)
  {
    forall d, test ensures KeptIs(t, x, files, changedTests, d, test) {
      BoundaryNamesAreChosen(t, files, d, test);
      NamesMembers(Listed(x.required, d));
      NamesMembers(Listed(x.focused, d));
      NamesMembers(Listed(focus, d));
      var kept := Names(Listed(x.required, d)) + Names(Listed(x.focused, d));
      assert test in kept <==> test != "" && (test in Listed(x.required, d) || test in Listed(x.focused, d));
    }
  }
}
