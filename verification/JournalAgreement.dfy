/** When the executor side and the journal side agree whatever sorts the two use. */
module JournalAgreement {
  import opened Ordering
  import opened ExecutionModel
  import opened Sealing
  import opened Invocation
  import opened ApplyOperation
  import opened SortWitness
  import opened SealExample

  /** Every legal journal sort accepts the result exactly when no requirement id is repeated. */
  lemma JournalAgreementExactly(k: Rules, s: Sorts, r: Request, o: Outcome, compensation: string)
    requires TokensAreNulFree(k) && AreSorts(s) && Divisible(k, s, r, compensation)
    requires ExactOutcome(k, r, o) && ResultOK(k, ResultOf(k, r, o))
    ensures (forall t :: AreStepSorts(t) ==> Proves(k, StepOf(t, r, compensation), ResultOf(k, r, o))) <==>
      Distinct(Map(TargetRequirement, r.runtimeTargets))
  {
    if Distinct(Map(TargetRequirement, r.runtimeTargets)) {
      forall t | AreStepSorts(t) ensures Proves(k, StepOf(t, r, compensation), ResultOf(k, r, o)) {
        InvokeAndJournalAgree(k, s, t, r, o, compensation);
      }
    } else {
      var t := SomeSortRefuses(k, s, r, o, compensation);
      assert AreStepSorts(t);
    }
  }

  lemma SomeSortRefuses(k: Rules, s: Sorts, r: Request, o: Outcome, compensation: string) returns (t: StepSorts)
    requires TokensAreNulFree(k) && AreSorts(s) && Divisible(k, s, r, compensation)
    requires ExactOutcome(k, r, o) && ResultOK(k, ResultOf(k, r, o))
    requires !Distinct(Map(TargetRequirement, r.runtimeTargets))
    ensures AreStepSorts(t) && !Proves(k, StepOf(t, r, compensation), ResultOf(k, r, o))
  {
    SortsExist();
    SealedTokens(k, s, r);
    RepeatedRequirementCanDisagree(SomeStepSorts(), r.runtimeTargets);
    var keys := Map(RuntimeKey, r.runtimeTargets);
    t :| AreStepSorts(t) && t.expectations(keys) != keys;
    InvokedResultProvesStepExactly(k, s, t, r, o, compensation);
  }

  // ---- A request the journal may refuse ----

  const OBSERVED := Observation("o", "d")

  function TwinTargets(): seq<RuntimeTarget> { [PlacedTarget("r", "i"), PlacedTarget("r", "j")] }

  function TwinOutcome(): Outcome {
    Outcome([RuntimeOutcome("r", "i", STATUS_APPLIED, OBSERVED), RuntimeOutcome("r", "j", STATUS_APPLIED, OBSERVED)],
      [])
  }

  lemma TwinsArePlaced()
    ensures Placed(TwinTargets()) && !Distinct(Map(TargetRequirement, TwinTargets()))
  {
    var targets := TwinTargets();
    assert TargetLess(targets[0], targets[1]);
    assert Map(TargetRequirement, targets)[0] == Map(TargetRequirement, targets)[1];
  }

  lemma PlacedIsDivisible(s: Sorts, targets: seq<RuntimeTarget>)
    requires AreSorts(s) && Placed(targets)
    ensures TokensAreNulFree(LENIENT) && Divisible(LENIENT, s, PlacedRequest(targets, []), MODE_NONE)
  {
    PlacedRequestIsValid(s, targets, []);
  }

  lemma LenientHashesAreDigests()
    ensures ResultHashesAreDigests(LENIENT)
  {
  }

  lemma AnswerMakesResult(s: Sorts, r: Request, o: Outcome)
    requires AreSorts(s) && TokensAreNulFree(LENIENT) && Valid(LENIENT, s, r) && Answers(LENIENT, r, o)
    ensures ExactOutcome(LENIENT, r, o) && ResultOK(LENIENT, ResultOf(LENIENT, r, o))
  {
    LenientHashesAreDigests();
    OutcomeCheckMeansAnswers(LENIENT, s, r, o);
    AnswersMakeValidResults(LENIENT, s, r, o);
  }

  lemma TwinsAreAnswered()
    ensures Answers(LENIENT, PlacedRequest(TwinTargets(), []), TwinOutcome())
  {
    var targets, l := TwinTargets(), TwinOutcome().runtime;
    assert RuntimeAnswer(LENIENT, targets[0], l[0]) && RuntimeAnswer(LENIENT, targets[1], l[1]);
  }

  /** Two instances of one requirement: the invocation succeeds, and some legal journal sort refuses its result. */
  lemma TwinTargetsCanBeRefused()
    ensures exists k, s, t, r, o ::
      && TokensAreNulFree(k) && AreSorts(s) && AreStepSorts(t) && Divisible(k, s, r, MODE_NONE)
      && ExactOutcome(k, r, o) && ResultOK(k, ResultOf(k, r, o))
      && !Proves(k, StepOf(t, r, MODE_NONE), ResultOf(k, r, o))
  {
    SortsExist();
    TwinsArePlaced();
    var r, o := PlacedRequest(TwinTargets(), []), TwinOutcome();
    PlacedIsDivisible(SomeSorts(), TwinTargets());
    TwinsAreAnswered();
    AnswerMakesResult(SomeSorts(), r, o);
    var t := SomeSortRefuses(LENIENT, SomeSorts(), r, o, MODE_NONE);
  }
}
