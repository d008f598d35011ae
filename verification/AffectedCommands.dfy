/** Commands emitted for a selection, and the coverage they give. */
module AffectedCommands {
  import opened Ordering
  import opened AffectedTests

  function TagsOf(tags: map<string, seq<string>>, dir: string): seq<string> { SortedUnique(Listed(tags, dir)) }

  /** The tests a package runs by name: its focus, or what a package in fallback must run under its own tags. */
  function NamedTests(x: Selection, tags: map<string, seq<string>>, dir: string): seq<string> {
    if dir in x.required then (if |TagsOf(tags, dir)| == 0 then [] else SortedUnique(x.required[dir]))
    else SortedUnique(Listed(x.focused, dir))
  }

  predicate FallsBack(x: Selection, tags: map<string, seq<string>>, dir: string) {
    dir in x.required || (dir !in x.focused && |TagsOf(tags, dir)| == 0)
  }

  /** Exactly which tests the commands of a selection execute. */
  predicate Executes(t: Tables, x: Selection, tags: map<string, seq<string>>, dir: string, test: string) {
    || ((dir in x.changed || dir in x.testOnly) && test in NamedTests(x, tags, dir))
    || (dir in x.changed && FallsBack(x, tags, dir) && (test !in SlowTests(t, dir) || test in Listed(x.required, dir)))
  }

  /** The names a package in this selection is to run, and whether it has any at all. */
  predicate NothingNamed(x: Selection, dir: string) {
    SortedUnique(if dir in x.required then x.required[dir] else Listed(x.focused, dir)) == []
  }

  /** An empty focus: the package is compiled, no test is run. */
  predicate CompilesFocus(x: Selection, tags: map<string, seq<string>>, dir: string) {
    dir !in x.required && dir in x.focused && |TagsOf(tags, dir)| == 0 && NothingNamed(x, dir)
  }

  /** Build tags and no test to run: the package is compiled under its tags. */
  predicate CompilesTagged(x: Selection, tags: map<string, seq<string>>, dir: string) {
    |TagsOf(tags, dir)| > 0 && NothingNamed(x, dir)
  }

  /** What happens to one package: named tests, its fallback, a plain or a tagged compile. */
  method SelectTests(x: Selection, tags: map<string, seq<string>>, dir: string)
    returns (named: seq<string>, fallback: bool, compile: bool, tagged: bool)
    ensures forall test :: test in named <==> test in NamedTests(x, tags, dir)
    ensures fallback <==> FallsBack(x, tags, dir)
    ensures compile <==> CompilesFocus(x, tags, dir)
    ensures tagged <==> CompilesTagged(x, tags, dir)
    ensures named != [] || fallback || compile || tagged
  {
    named, fallback, compile, tagged := [], false, false, false;
    var selected, focused, dirTags := Listed(x.focused, dir), dir in x.focused, SortedUnique(Listed(tags, dir));
    if dir in x.required {
      fallback := true;
      if |dirTags| == 0 { return; }
      selected, focused := x.required[dir], true;
    }
    var tests := SortedUnique(selected);
    if |tests| == 0 {
      if |dirTags| > 0 {
        tagged := true;
      } else if focused {
        compile := true;
      } else {
        fallback := true;
      }
      return;
    }
    named := tests;
  }

  /** Bounded batches that together run exactly the named tests. */
  method EmitBatches(dir: string, tags: seq<string>, tests: seq<string>) returns (commands: seq<Command>)
    ensures forall d, test :: RunBy(commands, d, test) <==> d == dir && test in tests
    ensures forall c :: c in commands ==> c.Focused? && c.dir == dir && 0 < |c.tests| <= BATCH && c.tags == tags
  {
    commands := [];
    var start := 0;
    while start < |tests|
      invariant 0 <= start <= |tests|
      invariant forall d, test :: RunBy(commands, d, test) <==> d == dir && test in tests[..start]
      invariant forall c :: c in commands ==> c.Focused? && c.dir == dir && 0 < |c.tests| <= BATCH && c.tags == tags
    {
      var end := if start + BATCH < |tests| then start + BATCH else |tests|;
      var c := Focused(dir, tags, tests[start..end]);
      assert tests[..end] == tests[..start] + tests[start..end];
      forall d, test ensures RunBy(commands + [c], d, test) <==> d == dir && test in tests[..end] {
        OneMore(commands, c, d, test);
      }
      commands := commands + [c];
      start := end;
    }
    assert tests[..|tests|] == tests;
  }

  lemma OneMore(commands: seq<Command>, c: Command, d: string, test: string)
    ensures RunBy(commands + [c], d, test) <==> RunBy(commands, d, test) || Runs(c, d, test)
  {
    RunByAppend(commands, [c], d, test);
    assert RunBy([c], d, test) <==> Runs([c][0], d, test);
  }

  method SliceCommand(t: Tables, x: Selection, dir: string) returns (c: Command)
    ensures c.Slice? && c.dir == dir
    ensures forall d, test :: Runs(c, d, test) <==>
      d == dir && (test !in SlowTests(t, dir) || test in Listed(x.required, dir))
  {
    if |SlowTests(t, dir)| > 0 {
      c := BudgetedPackageCommand(t, dir, Listed(x.required, dir));
    } else {
      c := Slice(dir, []);
    }
  }

  predicate ExecutesNamed(x: Selection, tags: map<string, seq<string>>, dirs: seq<string>, dir: string, test: string) {
    dir in dirs && test in NamedTests(x, tags, dir)
  }

  predicate ExecutesSlice(t: Tables, x: Selection, tags: map<string, seq<string>>, dirs: seq<string>, dir: string,
                          test: string) {
    dir in dirs && FallsBack(x, tags, dir) && (test !in SlowTests(t, dir) || test in Listed(x.required, dir))
  }

  /** A package slice is among the commands. */
  predicate Sliced(commands: seq<Command>, dir: string) { exists c :: c in commands && c.Slice? && c.dir == dir }

  lemma SlicedAppend(a: seq<Command>, b: seq<Command>, dir: string)
    ensures Sliced(a + b, dir) <==> Sliced(a, dir) || Sliced(b, dir)
  {
    assert forall c :: c in a + b <==> c in a || c in b;
  }

  /** A bounded batch of one package, under the tags of that package. */
  predicate InBatch(tags: map<string, seq<string>>, c: Command) {
    c.Focused? && |c.tests| <= BATCH && c.tags == TagsOf(tags, c.dir)
  }

  predicate InTags(tagged: map<seq<string>, seq<string>>, key: seq<string>, dir: string) {
    key in tagged && dir in tagged[key]
  }

  function AddTagged(tagged: map<seq<string>, seq<string>>, key: seq<string>,
                     dir: string): map<seq<string>, seq<string>> {
    tagged[key := (if key in tagged then tagged[key] else []) + [dir]]
  }

  lemma TaggedNext(tagged: map<seq<string>, seq<string>>, key: seq<string>, dir: string)
    ensures forall k, d :: InTags(AddTagged(tagged, key, dir), k, d) <==> InTags(tagged, k, d) || (k == key && d == dir)
  {
  }

  /** Commands of the listed packages; `slices` says whether their fallback is a slice or only a compile. */
  method PackageCommands(t: Tables, x: Selection, tags: map<string, seq<string>>, dirs: seq<string>, slices: bool)
    returns (named: seq<Command>, sliced: seq<Command>, compiled: seq<string>, tagged: map<seq<string>, seq<string>>)
    ensures forall d, test :: RunBy(named, d, test) <==> ExecutesNamed(x, tags, dirs, d, test)
    ensures forall d, test :: RunBy(sliced, d, test) <==> slices && ExecutesSlice(t, x, tags, dirs, d, test)
    ensures forall d :: Sliced(sliced, d) <==> d in dirs && slices && FallsBack(x, tags, d)
    ensures (forall c :: c in named ==> InBatch(tags, c)) && forall c :: c in sliced ==> c.Slice?
    ensures forall d :: d in compiled <==>
      d in dirs && (CompilesFocus(x, tags, d) || (!slices && FallsBack(x, tags, d)))
    ensures forall key, d :: InTags(tagged, key, d) <==>
      d in dirs && CompilesTagged(x, tags, d) && key == TagsOf(tags, d)
  {
    named, sliced, compiled, tagged := [], [], [], map[];
    for i := 0 to |dirs|
      invariant forall d, test :: RunBy(named, d, test) <==> ExecutesNamed(x, tags, dirs[..i], d, test)
      invariant forall d, test :: RunBy(sliced, d, test) <==> slices && ExecutesSlice(t, x, tags, dirs[..i], d, test)
      invariant forall d :: Sliced(sliced, d) <==> d in dirs[..i] && slices && FallsBack(x, tags, d)
      invariant (forall c :: c in named ==> InBatch(tags, c)) && forall c :: c in sliced ==> c.Slice?
      invariant forall d :: d in compiled <==>
        d in dirs[..i] && (CompilesFocus(x, tags, d) || (!slices && FallsBack(x, tags, d)))
      invariant forall key, d :: InTags(tagged, key, d) <==>
        d in dirs[..i] && CompilesTagged(x, tags, d) && key == TagsOf(tags, d)
    {
      var dir := dirs[i];
      assert dirs[..i + 1] == dirs[..i] + [dir];
      var tests, fallback, compile, tag := SelectTests(x, tags, dir);
      var batches := EmitBatches(dir, TagsOf(tags, dir), tests);
      forall d, test ensures RunBy(named + batches, d, test) <==> ExecutesNamed(x, tags, dirs[..i + 1], d, test) {
        RunByAppend(named, batches, d, test);
      }
      named := named + batches;
      if fallback && slices {
        var c := SliceCommand(t, x, dir);
        forall d, test ensures RunBy(sliced + [c], d, test) <==> ExecutesSlice(t, x, tags, dirs[..i + 1], d, test) {
          OneMore(sliced, c, d, test);
        }
        forall d ensures Sliced(sliced + [c], d) <==> Sliced(sliced, d) || d == dir { SlicedAppend(sliced, [c], d); }
        sliced := sliced + [c];
      }
      if compile || (fallback && !slices) { compiled := compiled + [dir]; }
      if tag {
        TaggedNext(tagged, TagsOf(tags, dir), dir);
        tagged := AddTagged(tagged, TagsOf(tags, dir), dir);
      }
    }
    assert dirs[..|dirs|] == dirs;
  }

  /** A compile command without tags names the package. */
  predicate Compiled(commands: seq<Command>, dir: string) {
    exists c :: c in commands && c.Compile? && dir in c.dirs
  }

  predicate TagCompiled(commands: seq<Command>, tags: seq<string>, dir: string) {
    exists c :: c in commands && c.TaggedCompile? && c.tags == tags && dir in c.dirs
  }

  /** The packages compiled without being run: those only generated code changed in, those with an empty focus, and
      the test-only ones that fall back. */
  predicate CompileDue(x: Selection, tags: map<string, seq<string>>, dir: string) {
    || dir in x.compileOnly || ((dir in x.changed || dir in x.testOnly) && CompilesFocus(x, tags, dir))
    || (dir in x.testOnly && FallsBack(x, tags, dir))
  }

  predicate TaggedCompileDue(x: Selection, tags: map<string, seq<string>>, dir: string) {
    (dir in x.changed || dir in x.testOnly) && CompilesTagged(x, tags, dir)
  }

  lemma CompiledAppend(a: seq<Command>, b: seq<Command>, dir: string)
    requires forall c :: c in a ==> c.Focused? || c.Slice?
    ensures Compiled(a + b, dir) <==> Compiled(b, dir)
    ensures forall key :: TagCompiled(a + b, key, dir) <==> TagCompiled(b, key, dir)
  {
    assert forall c :: c in a + b <==> c in a || c in b;
  }

  /** What the four kinds of commands run and slice, together. */
  lemma FourKinds(named: seq<Command>, more: seq<Command>, sliced: seq<Command>, compiles: seq<Command>, d: string,
                  test: string)
    ensures RunBy(named + more + sliced + compiles, d, test) <==>
      RunBy(named, d, test) || RunBy(more, d, test) || RunBy(sliced, d, test) || RunBy(compiles, d, test)
    ensures Sliced(named + more + sliced + compiles, d) <==>
      Sliced(named, d) || Sliced(more, d) || Sliced(sliced, d) || Sliced(compiles, d)
  {
    RunByAppend(named, more, d, test);
    RunByAppend(named + more, sliced, d, test);
    RunByAppend(named + more + sliced, compiles, d, test);
    SlicedAppend(named, more, d);
    SlicedAppend(named + more, sliced, d);
    SlicedAppend(named + more + sliced, compiles, d);
  }

  /** The commands run and slice exactly what the selection says. */
  ghost predicate RunsSelection(t: Tables, x: Selection, tags: map<string, seq<string>>, commands: seq<Command>) {
    && (forall d, test :: RunBy(commands, d, test) <==> Executes(t, x, tags, d, test))
    && (forall d :: Sliced(commands, d) <==> d in x.changed && FallsBack(x, tags, d))
    && (forall c :: c in commands && c.Focused? ==> InBatch(tags, c))
  }

  /** The commands compile exactly what the selection says, each package under its own tags. */
  ghost predicate CompilesSelection(x: Selection, tags: map<string, seq<string>>, commands: seq<Command>) {
    && (forall d :: Compiled(commands, d) <==> CompileDue(x, tags, d))
    && (forall key, d :: TagCompiled(commands, key, d) <==> TaggedCompileDue(x, tags, d) && key == TagsOf(tags, d))
  }

  /** Every selected package is built: there is always a batch, a slice or a compile for it. */
  lemma SelectedIsBuilt(t: Tables, x: Selection, tags: map<string, seq<string>>, commands: seq<Command>, dir: string)
    requires RunsSelection(t, x, tags, commands) && CompilesSelection(x, tags, commands)
    requires dir in x.changed || dir in x.testOnly || dir in x.compileOnly
    ensures Built(commands, dir)
  {
    if CompileDue(x, tags, dir) {
      assert Compiled(commands, dir);
    } else if TaggedCompileDue(x, tags, dir) {
      assert TagCompiled(commands, TagsOf(tags, dir), dir);
    } else if dir in x.changed && FallsBack(x, tags, dir) {
      assert Sliced(commands, dir);
    } else {
      var test := NamedTests(x, tags, dir)[0];
      assert Executes(t, x, tags, dir, test);
      assert RunBy(commands, dir, test);
      var i :| 0 <= i < |commands| && Runs(commands[i], dir, test);
      assert commands[i] in commands && Builds(commands[i], dir);
    }
  }

  method AffectedGoCommands(t: Tables, x: Selection, tags: map<string, seq<string>>) returns (commands: seq<Command>)
    ensures RunsSelection(t, x, tags, commands)
    ensures CompilesSelection(x, tags, commands)
  {
    var named, sliced, compiled, tagged := PackageCommands(t, x, tags, SortedKeys(x.changed), true);
    var moreNamed, none, moreCompiled, moreTagged := PackageCommands(t, x, tags, SortedKeys(x.testOnly), false);
    var plain := SortedKeys(x.compileOnly) + compiled + moreCompiled;
    var compiles := CompileCommands(plain, tagged, moreTagged);
    commands := named + moreNamed + sliced + compiles;
    assert RunsSelection(t, x, tags, commands) by {
      forall d, test
        ensures RunBy(commands, d, test) <==> Executes(t, x, tags, d, test)
        ensures Sliced(commands, d) <==> d in x.changed && FallsBack(x, tags, d)
      {
        FourKinds(named, moreNamed, sliced, compiles, d, test);
      }
      assert forall c :: c in commands ==> c in named || c in moreNamed || c in sliced || c in compiles;
    }
    assert CompilesSelection(x, tags, commands) by {
      assert forall d :: d in plain <==> CompileDue(x, tags, d);
      forall d ensures Compiled(commands, d) <==> CompileDue(x, tags, d) {
        CompiledAppend(named + moreNamed + sliced, compiles, d);
      }
      forall key, d
        ensures TagCompiled(commands, key, d) <==> TaggedCompileDue(x, tags, d) && key == TagsOf(tags, d)
      {
        CompiledAppend(named + moreNamed + sliced, compiles, d);
        assert InTags(tagged, key, d) <==>
          d in SortedKeys(x.changed) && CompilesTagged(x, tags, d) && key == TagsOf(tags, d);
        assert InTags(moreTagged, key, d) <==>
          d in SortedKeys(x.testOnly) && CompilesTagged(x, tags, d) && key == TagsOf(tags, d);
      }
    }
  }

  /** Compilation executes no test; one command for the plain packages, one for each set of tags. */
  method CompileCommands(dirs: seq<string>, tagged: map<seq<string>, seq<string>>, more: map<seq<string>, seq<string>>)
    returns (commands: seq<Command>)
    ensures forall d, test :: !RunBy(commands, d, test)
    ensures forall c :: c in commands ==> c.Compile? || c.TaggedCompile?
    ensures forall d :: Compiled(commands, d) <==> d in dirs
    ensures forall key, d :: TagCompiled(commands, key, d) <==> InTags(tagged, key, d) || InTags(more, key, d)
  {
    commands := if |dirs| > 0 then [Compile(dirs)] else [];
    var left := tagged.Keys + more.Keys;
    while left != {}
      invariant left <= tagged.Keys + more.Keys
      invariant forall c :: c in commands ==> c.Compile? || c.TaggedCompile?
      invariant forall d :: Compiled(commands, d) <==> d in dirs
      invariant forall key, d :: TagCompiled(commands, key, d) <==>
        key !in left && (InTags(tagged, key, d) || InTags(more, key, d))
      decreases |left|
    {
      var key :| key in left;
      var c := TaggedCompile(key, (if key in tagged then tagged[key] else []) + if key in more then more[key] else []);
      TagCompiledNext(commands, c);
      commands := commands + [c];
      left := left - {key};
    }
    forall d, test ensures !RunBy(commands, d, test) {
      forall i | 0 <= i < |commands| ensures !Runs(commands[i], d, test) { assert commands[i] in commands; }
    }
  }

  lemma TagCompiledNext(commands: seq<Command>, c: Command)
    requires c.TaggedCompile?
    ensures forall d :: Compiled(commands + [c], d) <==> Compiled(commands, d)
    ensures forall key, d :: TagCompiled(commands + [c], key, d) <==>
      TagCompiled(commands, key, d) || (key == c.tags && d in c.dirs)
  {
    assert forall e :: e in commands + [c] <==> e in commands || e == c;
  }
}
