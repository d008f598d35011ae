/** What the planner still adds and removes between the boundary pass and the commands. */
module AffectedAdjustments {
  import opened AffectedTests

  const WASM := "cmd/stackkit-capacity-wasm"
  const AUTHORITY := "internal/architecturev2"
  const RENDERER := "internal/architecturev2renderer"
  const TEMPLATES := "internal/kittemplates"
  const KIT_PARITY := "TestProductKitsMatchesCUEDerivedAuthorityProfiles"
  const RENDERER_PARITY := "TestModuleCatalogRenderUnitsAreRegisteredExactlyByTheProductionRegistry"

  predicate Under(files: seq<string>, prefixes: seq<string>) {
    exists f, p :: f in files && p in prefixes && StartsWith(f, p)
  }

  predicate GoUnder(files: seq<string>, prefix: string) {
    exists f :: f in files && StartsWith(f, prefix) && IsGo(f)
  }

  /** A file the embedded authority bundle is built from changed. */
  predicate CueChanged(files: seq<string>) { Under(files, ["foundation/", "cue.mod/"]) }
  predicate AuthorityCut(files: seq<string>) { CueChanged(files) && !GoUnder(files, AUTHORITY + "/") }
  predicate RendererCut(files: seq<string>) { CueChanged(files) && !GoUnder(files, RENDERER + "/") }
  predicate KitChanged(t: Tables, files: seq<string>) { Under(files, t.kitRoots) }
  predicate ParityDue(files: seq<string>) {
    GoUnder(files, RENDERER + "/") || Under(files, ["foundation/architecture_v2"])
  }
  predicate TemplatesChanged(files: seq<string>) {
    Under(files, ["foundation/templates/", "basement-kit/templates/", "cloud-kit/templates/"])
  }

  /** The whole authority package already runs. */
  predicate FullyRun(x: Selection) { AUTHORITY in x.changed && AUTHORITY !in x.focused }

  /** The authority package is selected with one more test. */
  function WithParity(x: Selection, test: string): Selection {
    x.(compileOnly := x.compileOnly - {AUTHORITY}, changed := x.changed + {AUTHORITY},
       focused := x.focused[AUTHORITY := SortedUnique(Listed(x.focused, AUTHORITY) + [test])])
  }

  /** The js/wasm-only package has no native test build. */
  method DropWasm(x: Selection) returns (y: Selection)
    ensures y == x.(changed := x.changed - {WASM}, compileOnly := x.compileOnly - {WASM})
  {
    y := x.(changed := x.changed - {WASM});
    y := y.(compileOnly := y.compileOnly - {WASM});
  }

  /** A CUE change without Go changes below them compiles the authority and the renderer only. */
  method CutCompiled(x: Selection, files: seq<string>) returns (y: Selection)
    ensures y.required == x.required && y.testOnly == x.testOnly
    ensures y.changed == x.changed - (if AuthorityCut(files) then {AUTHORITY} else {})
                                   - (if RendererCut(files) then {RENDERER} else {})
    ensures y.focused == if AuthorityCut(files) then x.focused - {AUTHORITY} else x.focused
    ensures y.compileOnly == x.compileOnly + (if AuthorityCut(files) then {AUTHORITY} else {})
                                           + (if RendererCut(files) then {RENDERER} else {})
  {
    y := x;
    if CueChanged(files) {
      if !GoUnder(files, AUTHORITY + "/") {
        y := y.(changed := y.changed - {AUTHORITY}, compileOnly := y.compileOnly + {AUTHORITY});
        y := y.(focused := y.focused - {AUTHORITY});
      }
      if !GoUnder(files, RENDERER + "/") {
        y := y.(changed := y.changed - {RENDERER}, compileOnly := y.compileOnly + {RENDERER});
      }
    }
  }

  method AddParities(t: Tables, x: Selection, files: seq<string>) returns (y: Selection)
    ensures y == Parities(t, x, files)
  {
    y := x;
    if KitChanged(t, files) { y := WithParity(y, KIT_PARITY); }
    if ParityDue(files) {
      if !FullyRun(y) {
        y := WithParity(y, RENDERER_PARITY);
        y := y.(testOnly := y.testOnly - {AUTHORITY});
      }
    }
  }

  function Parities(t: Tables, x: Selection, files: seq<string>): Selection {
    var y := KitStage(t, x, files);
    if ParityDue(files) && !FullyRun(y) then WithParity(y, RENDERER_PARITY).(testOnly := y.testOnly - {AUTHORITY})
      else y
  }

  // ---- Package by package ----

  predicate ChangedAfter(t: Tables, x: Selection, files: seq<string>, d: string) {
    if d == WASM then false
    else if d == AUTHORITY then (d in x.changed && !AuthorityCut(files)) || KitChanged(t, files) || ParityDue(files)
    else if d == RENDERER then d in x.changed && !RendererCut(files)
    else d in x.changed || (d == TEMPLATES && TemplatesChanged(files))
  }

  /** The renderer parity test is added to the authority package. */
  predicate ParityAdded(t: Tables, x: Selection, files: seq<string>) {
    ParityDue(files) && (AuthorityCut(files) || KitChanged(t, files) || !FullyRun(x))
  }

  predicate CompiledAfter(t: Tables, x: Selection, files: seq<string>, d: string) {
    if d == WASM then false
    else if d == AUTHORITY then
      (d in x.compileOnly || AuthorityCut(files)) && !KitChanged(t, files) && !ParityAdded(t, x, files)
    else if d == RENDERER then d in x.compileOnly || RendererCut(files)
    else d in x.compileOnly && !(d == TEMPLATES && TemplatesChanged(files))
  }

  predicate FocusedAfter(t: Tables, x: Selection, files: seq<string>, d: string) {
    if d == AUTHORITY then (d in x.focused && !AuthorityCut(files)) || KitChanged(t, files) || ParityAdded(t, x, files)
    else d in x.focused
  }

  predicate FocusAfter(t: Tables, x: Selection, files: seq<string>, d: string, test: string) {
    (test in Listed(x.focused, d) && !(d == AUTHORITY && AuthorityCut(files)))
    || (d == AUTHORITY && KitChanged(t, files) && test == KIT_PARITY)
    || (d == AUTHORITY && ParityAdded(t, x, files) && test == RENDERER_PARITY)
  }

  /** The selection the commands are built from, package by package. */
  ghost predicate IsAdjusted(t: Tables, x: Selection, files: seq<string>, y: Selection) {
    && y.required == x.required
    && (forall d :: d in y.changed <==> ChangedAfter(t, x, files, d))
    && (forall d :: d in y.testOnly <==> d in x.testOnly && !(d == AUTHORITY && ParityAdded(t, x, files)))
    && (forall d :: d in y.compileOnly <==> CompiledAfter(t, x, files, d))
    && (forall d :: d in y.focused <==> FocusedAfter(t, x, files, d))
    && (forall d, test :: test != "" ==> (test in Listed(y.focused, d) <==> FocusAfter(t, x, files, d, test)))
  }

  method AdjustSelection(t: Tables, x: Selection, files: seq<string>) returns (y: Selection)
    ensures IsAdjusted(t, x, files, y)
  {
    var dropped := DropWasm(x);
    var cut := CutCompiled(dropped, files);
    y := AddParities(t, cut, files);
    ghost var with := y;
    if TemplatesChanged(files) {
      y := y.(changed := y.changed + {TEMPLATES}, compileOnly := y.compileOnly - {TEMPLATES});
    }
    ParitiesMeaning(t, cut, files);
    AdjustedFromParts(t, x, files, cut, with, y);
  }

  /** The selection between the removals and the additions. */
  ghost predicate IsCut(x: Selection, files: seq<string>, cut: Selection) {
    && cut.required == x.required && cut.testOnly == x.testOnly
    && cut.changed == x.changed - {WASM} - (if AuthorityCut(files) then {AUTHORITY} else {})
                                        - (if RendererCut(files) then {RENDERER} else {})
    && cut.focused == (if AuthorityCut(files) then x.focused - {AUTHORITY} else x.focused)
    && cut.compileOnly == x.compileOnly - {WASM} + (if AuthorityCut(files) then {AUTHORITY} else {})
                                                 + (if RendererCut(files) then {RENDERER} else {})
  }

  lemma AdjustedFromParts(t: Tables, x: Selection, files: seq<string>, cut: Selection, with: Selection, y: Selection)
    requires IsCut(x, files, cut) && HasParities(t, cut, files, with)
    requires y.required == with.required && y.testOnly == with.testOnly && y.focused == with.focused
    requires y.changed == with.changed + (if TemplatesChanged(files) then {TEMPLATES} else {})
    requires y.compileOnly == with.compileOnly - (if TemplatesChanged(files) then {TEMPLATES} else {})
    ensures IsAdjusted(t, x, files, y)
  {
    FullyRunAfterCut(t, x, files, cut);
    forall d
      ensures d in y.changed <==> ChangedAfter(t, x, files, d)
      ensures d in y.compileOnly <==> CompiledAfter(t, x, files, d)
      ensures d in y.focused <==> FocusedAfter(t, x, files, d)
    {
      AdjustedPackage(t, x, files, cut, with, y, d);
    }
    forall d, test | test != "" ensures test in Listed(y.focused, d) <==> FocusAfter(t, x, files, d, test) {
      CutFocus(x, files, cut, d, test);
    }
  }

  lemma AdjustedPackage(t: Tables, x: Selection, files: seq<string>, cut: Selection, with: Selection, y: Selection,
                        d: string)
    requires IsCut(x, files, cut) && HasParities(t, cut, files, with)
    requires Added(t, cut, files) <==> ParityAdded(t, x, files)
    requires y.focused == with.focused
    requires y.changed == with.changed + (if TemplatesChanged(files) then {TEMPLATES} else {})
    requires y.compileOnly == with.compileOnly - (if TemplatesChanged(files) then {TEMPLATES} else {})
    ensures d in y.changed <==> ChangedAfter(t, x, files, d)
    ensures d in y.compileOnly <==> CompiledAfter(t, x, files, d)
    ensures d in y.focused <==> FocusedAfter(t, x, files, d)
  {
    NamesDiffer();
  }

  lemma FullyRunAfterCut(t: Tables, x: Selection, files: seq<string>, cut: Selection)
    requires IsCut(x, files, cut)
    ensures FullyRun(cut) <==> FullyRun(x) && !AuthorityCut(files)
    ensures Added(t, cut, files) <==> ParityAdded(t, x, files)
  {
    NamesDiffer();
  }

  lemma CutFocus(x: Selection, files: seq<string>, cut: Selection, d: string, test: string)
    requires IsCut(x, files, cut)
    ensures test in Listed(cut.focused, d) <==> test in Listed(x.focused, d) && !(d == AUTHORITY && AuthorityCut(files))
  {
  }

  lemma NamesDiffer()
    ensures WASM != AUTHORITY && WASM != RENDERER && WASM != TEMPLATES
    ensures AUTHORITY != RENDERER && AUTHORITY != TEMPLATES && RENDERER != TEMPLATES
    ensures KIT_PARITY != "" && RENDERER_PARITY != "" && |AUTHORITY| == 23 && |RENDERER| == 31
  {
    assert |WASM| == 26 && |AUTHORITY| == 23 && |RENDERER| == 31 && |TEMPLATES| == 21;
  }

  predicate Added(t: Tables, x: Selection, files: seq<string>) {
    ParityDue(files) && (KitChanged(t, files) || !FullyRun(x))
  }

  ghost predicate HasParities(t: Tables, x: Selection, files: seq<string>, y: Selection) {
    && y.required == x.required
    && y.changed == x.changed + (if KitChanged(t, files) || ParityDue(files) then {AUTHORITY} else {})
    && y.compileOnly == x.compileOnly - (if KitChanged(t, files) || Added(t, x, files) then {AUTHORITY} else {})
    && y.testOnly == x.testOnly - (if Added(t, x, files) then {AUTHORITY} else {})
    && y.focused.Keys == x.focused.Keys + (if KitChanged(t, files) || Added(t, x, files) then {AUTHORITY} else {})
    && forall d, test :: test != "" ==> (test in Listed(y.focused, d) <==> ParityFocus(t, x, files, d, test))
  }

  predicate ParityFocus(t: Tables, x: Selection, files: seq<string>, d: string, test: string) {
    || test in Listed(x.focused, d)
    || (d == AUTHORITY && KitChanged(t, files) && test == KIT_PARITY)
    || (d == AUTHORITY && Added(t, x, files) && test == RENDERER_PARITY)
  }

  lemma WithParityMeaning(x: Selection, added: string)
    requires added != ""
    ensures var y := WithParity(x, added);
      && y.focused.Keys == x.focused.Keys + {AUTHORITY} && !FullyRun(y)
      && forall d, test :: test != "" ==>
           (test in Listed(y.focused, d) <==> test in Listed(x.focused, d) || (d == AUTHORITY && test == added))
  {
  }

  lemma ParitiesMeaning(t: Tables, x: Selection, files: seq<string>)
    ensures HasParities(t, x, files, Parities(t, x, files))
  {
    NamesDiffer();
    WithParityMeaning(x, KIT_PARITY);
    WithParityMeaning(KitStage(t, x, files), RENDERER_PARITY);
    ParityFocusMeaning(t, x, files);
  }

  function KitStage(t: Tables, x: Selection, files: seq<string>): Selection {
    if KitChanged(t, files) then WithParity(x, KIT_PARITY) else x
  }

  lemma ParityFocusMeaning(t: Tables, x: Selection, files: seq<string>)
    ensures forall d, test :: test != "" ==>
      (test in Listed(Parities(t, x, files).focused, d) <==> ParityFocus(t, x, files, d, test))
  {
    NamesDiffer();
    WithParityMeaning(x, KIT_PARITY);
    WithParityMeaning(KitStage(t, x, files), RENDERER_PARITY);
  }
}
