# Verified model of the StackKits apply, rollback and contract core

This project models the parts of StackKits whose correctness spans several functions or a whole run,
and proves what their code and comments promise:

- **Coordinated rollback** (`RollbackModel`, `RollbackProtocol`, `RollbackTheorems`, `RollbackOutcomes`,
  `RollbackMachine`, `RollbackController`):
  the plan, the persisted journal, and the write-ahead execution that may die before or after any side effect and be
  resumed any number of times.
- **Sealed requests** (`ExecutionModel`, `Closures`, `BindingClosures`, `Canonical`, `Sealing`, `SealOrder`,
  `SortWitness`, `SealExample`, `RequestChecks`, `RequestDraft`, `SealedContent`, `DigestBinding`, `ValidRequests`,
  `Invocation`): canonicalisation by nested unstable
  sorts, reference-counting closures, freshness and exact outcome matching.
- **Apply journal** (`ApplyOperation`, `JournalAgreement`, `ApplyCoverage`, `ApplyJournal`, `ApplyRuns`, `ApplyReplay`,
  `StepHistory`, `StuckRuns`, `StrandedExample`, `OperationShape`, `FileJournal`, `JournalRuns`, `JournalLife`): the split of a parent request into
  child steps, the runs of the step journal, and the durable journal with its fences.
- **Dispatch** (`JournalAnswers`, `DispatchProtocol`, `DispatchTrace`, `FaithfulDispatch`, `Dispatch`): how the children of a parent are
  started, called, reported and merged through a journal that is not trusted.
- **Affected-test planner** (`AffectedTests`, `AffectedPlan`, `AffectedAdjustments`, `AffectedCommands`,
  `AffectedCoverage`): how test names move between the focus, requirement and package lists, which packages the planner
  withholds or adds afterwards, and which command finally runs each test.
- **Canonical capability codec** (`CapabilityJson`, `CapabilityCodec`, `MemberOrder`, `CapabilityDocument`,
  `CapabilityClaims`): the printer of RFC 8785 sections 3.2.2.2 and 3.2.3, a parser for its grammar, what is found under
  which name, and the claim rules.
- **Change-set diff** (`ChangeSet`): the two-map merge as an exact, invertible patch.
- **Streaming JSON limits and route lookup** (`JsonScanner`, `RouteTable`): two loops against what they mean.

`Ordering` holds the byte-wise string order, sorting facts and the pigeonhole argument the others share; `Searching` the
halving search.

## How to read it

Each loop or in-place update of the source is a method or a class whose `ensures` states an independent predicate
(`ok <==> Partitioned...`, `r == Seal(...)`, `RunBy(...) <==> Executes(...)`); the theorems are lemmas about those
predicates. Parameters stand for what the model does not look into:

- `Rules` and `Formats` hold the regular expressions and scalar checks as predicates and SHA-256 over canonical JSON as
  functions. The only fact assumed of tokens is `TokensAreNulFree`.
- `Sorts` and `StepSorts` hold the library sorts in use. All that is known is that they return a permutation in which
  no later element is smaller; how they order equal keys is arbitrary and may differ between the two sides.
- In the dispatch, `Env` is the journal and the executors: each answer is any function of everything done so far. What
  the dispatcher may do is `DispatchProtocol.Permitted`; `Faithful` says that the journal takes what the contract accepts
  and that delivered results prove their steps.
- In the rollback, `RollbackMachine` is the environment: an effect succeeds, is refused without effect, or the process
  dies before or after it; whatever keeps a rollback from converging is noted as an `Upset`. OpenTofu replaces a root's state arbitrarily. `RollbackProtocol.Permits` says what an effect
  may do given only what is persisted at that moment; `RollbackController` shows that every effect the code causes is
  permitted; `RollbackTheorems` derives what then holds over every run, so no program counter has to survive a crash.

## Results worth knowing

- **Write-ahead holds for every crash pattern**, and so does convergence. The statement about written checkpoint files
  covers OpenTofu roots; a host step is also planned as restored but is reconciled by its own repair and writes no file.
- **A rollback fails only for a cause outside.** `Execute` succeeds exactly when nothing was refused, every tool succeeded,
  every plan exited 0 and every stack, marker and recreation was there. A stack the checkpoint names but did not capture
  is never touched, no root it names is ever removed, and those it does not name are gone at the end.
- **Recreated roots come first.** No effect of a step runs before a save has found the files of every recreated root on
  disk and recorded them (`RecreatedRecordedBeforeSteps`).
- **The digests bind the whole request.** Barring a hash collision on the values at hand, two seals have one digest exactly
  when their inputs have the same unordered content (`SealDigestBindsContent`), and a result for other content never
  proves a step (`ForeignResultIsRefused`).
- **Invoke and the journal agree for every legal sort exactly when no requirement id is repeated**
  (`JournalAgreementExactly`), and `TwinTargetsCanBeRefused` exhibits a valid two-target request whose result some legal
  sort refuses. This is a missing guarantee rather than a visible fault: Go's `sort.Slice` leaves a list that is already
  non-decreasing alone, so the library in use does not show it, but nothing the contract states excludes it. An accepted
  operation forces distinct ids.
- **Compensation starts only when nothing is left to attempt.** Every journal derives the operation state from the steps,
  so no run holds a compensated step next to a pending or running one (`CompensationWaitsForTheRest`), although the
  snapshot validator alone would accept one. Once one step is compensated, nothing runs again.
- **An operation with steps of both modes can be stranded.** A journal that has begun compensating can end exactly when no
  succeeded step lacks declared compensation (`StuckExactly`). Such a dead end can be reached exactly when the operation
  has at least three steps, one that can succeed and be compensated and one that can succeed and cannot
  (`StrandedExactly`): both succeed, the others fail, the first is compensated. `AcceptedIsStrandedExactly` gives accepted
  operations of this kind that the durable journal takes, and `StuckRecordNeverEnds` says that none of its records gets
  out again. An operation whose steps all declare compensation is never stranded. This is a property of the contract:
  nothing in the repository commits a compensation yet.
- **The durable journal and the journal contract agree**: its records hold exactly the snapshots that runs of accepted
  events reach (`JournalHoldsExactly`), and a holder that lost its fence is refused for good (`StaleHolderIsRefused`).
- **A completed operation is replayed for ever**, with exactly the finalised snapshot, and that replay proves its parent
  (`CompletedIsReplayedForEver`).
- **The durable journal refuses some accepted operations**: those with a step that checks no
  health, or lists it out of order (`AcceptedIsJournaledExactly`), which splitting a parent allows.
- **A dispatch trusts neither journal nor executors.** Whatever they answer, a returned outcome is made of one delivered or
  journaled result for each child and passes the exact check of the parent, every executor call was written ahead, no child is attempted twice, and every report is what the attempt
  came to (`ExecutePrepared`, `CallIsWrittenAhead`, `AttemptsAscend`, `ReportsAreTrue`). With a journal that takes what the
  contract accepts, a dispatch always ends done or with a reported failure. The check of journal answers stops at the
  committed step: steps after it are not compared (`AnswerMeans`, `LaterStepMayMove`).
- **The slice announced for an unreadable test file is emitted exactly when the package also has a real production change**
  (`AnnouncedSliceIsEmittedExactly`). The warning in `cmd/stackkit-affected-tests/main.go` announces the full package slice;
  for a package in which only tests changed, the command builder falls back to a compile instead
  (`UnreadableTestIsOnlyCompiled` is a diff of one such file). The model follows the code.
- **Which chosen tests run.** A changed test is executed in every package but the js/wasm-only one (`ChangedTestIsRun`).
  A changed, file-bound or boundary test is executed exactly when its package is reached
  (`NoSelectedTestLost`). Apart from compile-only packages the losses are those the planner causes on purpose:
  `cmd/stackkit-capacity-wasm` is withheld from native tests, and a CUE-only change cuts the embedded authority and the
  renderer down to a compile. A package with unmapped production changes gets its slice exactly when it is not the wasm one
  (`UnmappedProductionIsSliced`); `WasmPackageIsWithheld` is a diff in that package whose changed test is not run.
- **No touched package is forgotten**: every package with a changed Go file but the js/wasm-only one is tested or compiled
  by some command (`NoTouchedPackageForgotten`).
- **A capability has one document.** The decoder accepts a document exactly when it is the record, with increasing names, in
  which the fields the library decoded stand under their published names (`CanonicalIsTheDocument`).
- **A diff within its bound can still fail record validation**, exactly when two different contents of one path have equal
  metadata and the same digest (`DiffPassesValidation`).

## Model

| member | source | states |
|---|---|---|
| RollbackModel.RootEquals | internal/advancedrollback/rollback.go:628-658 | true exactly when every captured file is on disk byte for byte |
| RollbackModel.Plan | internal/advancedrollback/rollback.go:161-234 | the plan is the current stacks in exact reverse run order, each with the action its disk state calls for, then the captured checkpoint-only stacks in run order; refused only for a root its role cannot own |
| RollbackModel.CurrentSteps | internal/advancedrollback/rollback.go:170-217 | the backwards loop visits every current stack once and classifies it |
| RollbackModel.ChooseAction | internal/advancedrollback/rollback.go:174-212 | a host is restored; an uncaptured stack is left alone if the checkpoint names it and destroyed if present otherwise; a captured one is recreated if not applied, left unchanged if equal, restored if it differs |
| RollbackModel.PlanNamesEachRootOnce | internal/advancedrollback/rollback.go:161-234 | with distinct roots on each side, no root is planned twice |
| RollbackModel.DependentsComeFirst | internal/advancedrollback/rollback.go:156-160 | for any topological run order, a dependent is visited before every current stack it runs after |
| RollbackModel.CheckpointOnlyComeLast | internal/advancedrollback/rollback.go:156-160 | checkpoint-only stacks come after all current ones and keep their run order |
| RollbackModel.CapturedRootsArePlanned | internal/advancedrollback/rollback.go:195-232 | every captured checkpoint root is planned, and left unchanged only when it equals the checkpoint |
| RollbackModel.PlannedActionsFit | internal/advancedrollback/rollback.go:161-234 | in every plan: destroyed are exactly the present stacks the checkpoint does not name, recreated exactly the captured ones that are not applied, restored exactly the applied ones that differ; every current stack and every captured checkpoint-only stack has its step |
| RollbackProtocol.RunKeepsInv | internal/advancedrollback/rollback.go:240-336 | every permitted run keeps: fixed plan, settled prefix, unchanged roots untouched, destroyed roots gone, restored roots proven |
| RollbackProtocol.TouchedIsOpen | internal/advancedrollback/rollback.go:299-310 | only an unsettled step's root is ever touched, and never one planned as unchanged |
| RollbackTheorems.ResumeIsPrefix | internal/advancedrollback/rollback.go:299-335 | in every reachable journal settled steps are a prefix, a failed step leaves all later ones unrun, and done means all settled |
| RollbackTheorems.RecordNeverReverts | internal/advancedrollback/rollback.go:406-411 | a files-restored record stands in every later journal and a settled result never changes |
| RollbackTheorems.SettledIsNeverRunAgain | internal/advancedrollback/rollback.go:299-303 | no effect touches the root of a settled step |
| RollbackTheorems.RecordHasSave | internal/advancedrollback/rollback.go:468-492 | a recorded root was recorded by a save that found its checkpoint files on disk |
| RollbackTheorems.RecordedFilesWereWritten | internal/advancedrollback/rollback.go:664-702 | every captured file of a recorded root was written by this rollback, or stood in the root its recreation left, before the record |
| RollbackTheorems.WriteAhead | internal/advancedrollback/rollback.go:261-294 | over every run with any number of crashes: before a root is applied its record was saved, has not been reverted, and from then on the root is rewritten only where it does not exist |
| RollbackTheorems.FirstApplyMeetsCheckpoint | internal/advancedrollback/rollback.go:468-512 | over every run: the first apply after the record meets the checkpoint files byte for byte, unless OpenTofu or a rebuild touched the root in between |
| RollbackTheorems.RecreatedRecordedBeforeSteps | internal/advancedrollback/rollback.go:258-294 | over every run: before any effect of a step, a save found the files of every recreated root on disk and recorded them |
| RollbackTheorems.RemovedRootWasTornDown | internal/advancedrollback/rollback.go:438-459 | over every run: an applied root is removed only after a successful destroy that nothing has followed |
| RollbackTheorems.PhaseTellsHistory | internal/advancedrollback/rollback.go:512-536 | a root counts as proven only by a successful apply followed by a plan that exited 0, with nothing touching it in between |
| RollbackTheorems.ConvergedRollbackReachedCheckpoint | internal/advancedrollback/rollback.go:435-538 | when the journal is done: destroyed roots are gone, unchanged roots are as planned, restored and recreated roots had all checkpoint files written and recorded before their last apply, which a clean plan followed |
| RollbackTheorems.CapturedRootsConverge | internal/advancedrollback/rollback.go:161-234 | every captured target root equalled the checkpoint at planning time and was left alone, or was rewritten, recorded, applied and planned clean |
| RollbackOutcomes.UnplannedIsLeftAlone | internal/advancedrollback/rollback.go:299-310 | a root the plan does not name is the same after every run |
| RollbackOutcomes.UncapturedTargetIsLeftAlone | internal/advancedrollback/rollback.go:193-197 | over every run: a stack the checkpoint names but did not capture is left exactly as it was |
| RollbackOutcomes.TargetRootIsNeverRemoved | internal/advancedrollback/rollback.go:438-459 | no run removes a root the checkpoint names |
| RollbackOutcomes.TargetRootIsDestroyedToRestore | internal/advancedrollback/rollback.go:468-492 | a root the checkpoint names is destroyed only while its captured files are still to be restored |
| RollbackOutcomes.ForeignRootsAreGone | internal/advancedrollback/rollback.go:181-192 | when the journal is done, every current stack the checkpoint does not name is gone |
| RollbackMachine.Machine.Perform | internal/advancedrollback/journal.go:69-83 | an effect or save happens completely or not at all, and may be followed by the end of the process; every refusal and failure is noted as an upset |
| RollbackController.MakeReport | internal/advancedrollback/rollback.go:380-404 | converged exactly when every step is settled, in plan order, with the recorded status, stack, action and plan exit code of each |
| RollbackController.Controller.Prepare | internal/advancedrollback/rollback.go:77-112 | an unfinished journal is resumed unchanged; otherwise the plan is persisted before any side effect; it fails only for an upset |
| RollbackController.Controller.RestoreRoot | internal/advancedrollback/rollback.go:664-702 | on success every captured file is on disk; needs the marker; only unrecorded restored or recreated roots |
| RollbackController.Controller.WriteFiles | internal/advancedrollback/rollback.go:681-700 | the files are written one by one, the state after all others; success means all are in place |
| RollbackController.Controller.RemoveRoot | internal/advancedrollback/rollback.go:707-730 | on success the root is gone; an absent root succeeds without any effect |
| RollbackController.Controller.RunDestroyed | internal/advancedrollback/rollback.go:438-459 | converges exactly when the outside caused no upset, then with the root gone; a repeated destroy of an absent root converges without effect |
| RollbackController.Controller.RunHost | internal/advancedrollback/rollback.go:738-753 | converges exactly when the host reconciliation was carried out and succeeded |
| RollbackController.Controller.EnsureRestored | internal/advancedrollback/rollback.go:468-492 | continues only with the files recorded in the persisted journal; every failure leaves a recordable result |
| RollbackController.Controller.ApplyAndPlan | internal/advancedrollback/rollback.go:512-538 | converges exactly when the apply was carried out and succeeded and the plan that followed exited 0 |
| RollbackController.Controller.RunStep | internal/advancedrollback/rollback.go:406-542 | whatever happens, the result fits the persisted state and memory differs from disk at most at this step; the step converges exactly when the outside caused no upset |
| RollbackController.Controller.PendingRecreations | internal/advancedrollback/rollback.go:264-277 | exactly the unsettled recreated roots that are unrecorded or absent |
| RollbackController.Controller.RestoreRecreated | internal/advancedrollback/rollback.go:261-294 | success means every recreated root still to be run is recorded and exists on disk, so steps may run; it succeeds exactly when the outside caused no upset |
| RollbackController.Controller.RunSteps | internal/advancedrollback/rollback.go:299-330 | settled steps are skipped, the first failure ends the loop, success means all settled, and exactly an upset prevents it |
| RollbackController.Controller.Execute | internal/advancedrollback/rollback.go:240-336 | every effect is permitted, also across a crash; it succeeds exactly when no effect or save was refused, every tool succeeded, every plan exited 0, every stack resolved and every marker and recreation was there; then journal and report are converged; failure never turns an unfinished journal into a finished one |
| RollbackController.Controller.Invoke | internal/advancedrollback/rollback.go:72-112 | one invocation, repeatable after any crash, keeps the run valid, so a finished rollback has reached the checkpoint; nothing but an upset or an unplannable root keeps it from finishing |
| Ordering.JoinedKeysOrderLikePairs | contracts/runtimeexecutor/validation.go:418-424 | for NUL-free tokens, comparing joined keys is comparing pairs, and equal keys are equal pairs |
| Ordering.SortedFormIsUnique | contracts/runtimeexecutor/validation.go:559-624 | whatever an unstable sort returned, it equals the strictly sorted list with the same elements |
| Ordering.Pigeonhole | contracts/runtimeapply/operation_validation.go:112-125 | distinct members of an equally long list are that list up to order |
| Searching.SortedSearchFinds | contracts/runtimeexecutor/validation.go:243-246 | on sorted keys the halving search finds exactly the members |
| Closures.ValidateAdapterArtifactRefs | contracts/runtimeexecutor/artifact_validation.go:234-250 | accepts exactly references to present handoff artifacts of that authority, and counts each |
| Closures.ValidateTargetAdapterArtifacts | contracts/runtimeexecutor/artifact_validation.go:198-212 | the adapter and all its agents, likewise |
| Closures.ValidateArtifactReferenceCounts | contracts/runtimeexecutor/artifact_validation.go:214-232 | each class has its reference count: executable once by a target, handoff only by adapters and at least once, plan never |
| Closures.CountsMeanOwnership | contracts/runtimeexecutor/artifact_validation.go:166-250 | accepted counts are exactly a bijection between executable artifacts and runtime references, with handoffs referenced only by adapters and at least once |
| Closures.ValidateArtifactClosure | contracts/runtimeexecutor/artifact_validation.go:166-196 | accepts exactly the requests with that ownership |
| BindingClosures.ContainsSorted | contracts/runtimeexecutor/validation.go:243-246 | what the binary search finds on any list, which on a sorted one is membership |
| BindingClosures.ExactCoveredRefs | contracts/runtimeexecutor/validation.go:248-258 | decides equal length and inclusion, which for distinct values is set equality |
| BindingClosures.ValidateBindingTarget | contracts/runtimeexecutor/external_binding_validation.go:138-159 | for any lists, accepts exactly what the searches for site, capability and nodes find on no conflicting site, and covers those nodes |
| BindingClosures.ListedBindingFits | contracts/runtimeexecutor/external_binding_validation.go:138-159 | on the strictly ordered lists of a checked target, that is exactly a binding lying inside the target |
| BindingClosures.CoverageMeaning | contracts/runtimeexecutor/external_binding_validation.go:110-128 | the collected node, site and capability sets are exact precisely when the target is covered |
| BindingClosures.ValidateTargetBindings | contracts/runtimeexecutor/external_binding_validation.go:97-129 | a bound target is accepted exactly when its bindings cover its nodes and capabilities |
| BindingClosures.ValidateBindingClosure | contracts/runtimeexecutor/external_binding_validation.go:91-136 | accepts exactly when bindings are partitioned among targets, each bound target covered exactly |
| Canonical.CanonicalRequestFacts | contracts/runtimeexecutor/validation.go:559-624 | the canonical request is sorted at every level and keeps the unordered content |
| Canonical.TargetListsAgree | contracts/runtimeexecutor/validation.go:581-586 | equal contents with strict order on one side are equal target lists |
| Sealing.ValidIsStrict | contracts/runtimeexecutor/validation.go:110-137 | adjacent checks, unique keys and the canonical-form check force strict order at every level |
| RequestChecks.ValidateRefList | contracts/runtimeexecutor/validation.go:471-484 | accepts exactly bounded, strictly increasing token lists |
| RequestChecks.ValidateDaemonTargets | contracts/runtimeexecutor/validation.go:486-509 | accepts exactly daemon lists in strictly increasing joined-key order on the governed engine |
| RequestChecks.ValidateRuntimeAdapter | contracts/runtimeexecutor/runtime_target_validation.go:190-220 | accepts exactly adapters whose agents are ordered and whose artifacts belong to one authority each |
| RequestChecks.ValidateRuntimeTargets | contracts/runtimeexecutor/runtime_target_validation.go:9-38 | accepts exactly well-formed targets with distinct requirement and instance pairs |
| RequestChecks.ValidateHealthTargets | contracts/runtimeexecutor/validation.go:260-276 | accepts exactly well-formed health targets with distinct requirement ids |
| RequestChecks.ValidateHealthClosure | contracts/runtimeexecutor/validation.go:366-381 | bound health has exactly the placement of the last target with its requirement |
| RequestChecks.ValidateBindings | contracts/runtimeexecutor/external_binding_validation.go:10-35 | accepts exactly bounded bindings with true projection hashes, distinct ids and distinct scopes |
| RequestChecks.ValidateArtifacts | contracts/runtimeexecutor/artifact_validation.go:7-43 | accepts exactly well-formed artifacts, digests matching content, bounded in total, distinct ids |
| RequestChecks.ValidateTopology | contracts/runtimeexecutor/validation.go:172-201 | the ten checks together decide the whole topology predicate |
| RequestDraft.Draft.Canonicalize | contracts/runtimeexecutor/validation.go:559-624 | the in-place loops produce the canonical request |
| RequestDraft.ComputeArtifactSetHash | contracts/runtimeexecutor/digest.go:12-55 | the digest of the ordered metadata, or a refusal exactly when the artifacts are not acceptable |
| RequestDraft.ValidateRequest | contracts/runtimeexecutor/validation.go:110-137 | accepts exactly the valid sealed requests, whose digest is the hash of all the rest |
| RequestDraft.SealRequest | contracts/runtimeexecutor/validation.go:68-106 | returns the seal of the input, or nothing; its digest is the hash of everything else in it |
| SealOrder.SealDependsOnContentOnly | contracts/runtimeexecutor/validation.go:68-106 | once sealing succeeds, another input seals to the identical request and digest under any sorts exactly when it has the same unordered content |
| SealOrder.SameContentSealsAlike | contracts/runtimeexecutor/validation.go:68-106 | inputs with the same unordered content seal alike under any sorts: both fail, or both give the identical request and digest |
| SealOrder.SealIgnoresListOrder | contracts/runtimeexecutor/validation.go:559-624 | permuting the target, health, binding and artifact lists gives the identical seal, or again none |
| SealOrder.SealIsIdempotent | contracts/runtimeexecutor/validation.go:68-106 | a seal validates, and sealing it again changes nothing, whatever sorts are used |
| SealOrder.ValidExactlyWhenSealed | contracts/runtimeexecutor/validation.go:108-137 | validation accepts exactly the requests that sealing returns |
| SealOrder.ValidityIgnoresSorts | contracts/runtimeexecutor/validation.go:110-137 | validity does not depend on which unstable sort the validator uses |
| SealedContent.SealKeepsAuthority | contracts/runtimeexecutor/validation.go:68-106 | a seal carries every hash, the executor and the authorization time of its input, in the one supported version |
| SealedContent.SealKeepsArtifacts | contracts/runtimeexecutor/validation.go:595-606 | no artifact is lost or made up: each is kept but for sorted references and an absent class, which its owner decides |
| DigestBinding.RequestDigestIdentifies | contracts/runtimeexecutor/digest.go:57-65 | without a collision of the hash on the two, valid requests have one digest exactly when they are one request |
| DigestBinding.SealDigestBindsContent | contracts/runtimeexecutor/validation.go:97-106 | two requests that seal get one digest exactly when they have the same unordered content |
| DigestBinding.ArtifactSetHashIdentifies | contracts/runtimeexecutor/digest.go:12-55 | the artifact set hash is the same exactly when the artifacts are, content aside |
| DigestBinding.ArtifactHashesBindContent | contracts/runtimeexecutor/artifact_validation.go:7-43 | together with the digest of each artifact it binds the whole artifacts |
| DigestBinding.ProjectionHashIdentifies | contracts/runtimeexecutor/external_binding_validation.go:10-35 | two accepted bindings of a side have one projection hash exactly when they project the same content |
| DigestBinding.ResultDigestIdentifies | contracts/runtimeexecutor/validation.go:205-228 | two valid results have one digest exactly when they are one result |
| DigestBinding.ForeignResultIsRefused | contracts/runtimeapply/journal.go:230-241 | a result bound to a request with other content never proves the step of this one |
| ValidRequests.ExecutableHasOneTarget | contracts/runtimeexecutor/artifact_validation.go:166-232 | in a valid request an executable artifact belongs to exactly one target, whose identity and placement it carries, and has the digest of its content |
| ValidRequests.EveryReferenceResolves | contracts/runtimeexecutor/artifact_validation.go:166-196 | every reference of a target is to an executable artifact of its identity |
| ValidRequests.HandoffIsNamed | contracts/runtimeexecutor/artifact_validation.go:198-250 | a handed-off artifact is named by an adapter or agent under the authority it carries |
| ValidRequests.BindingServesOneTarget | contracts/runtimeexecutor/external_binding_validation.go:10-136 | every binding serves exactly one target and lies inside it, with a true projection hash and no second binding for its authority |
| ValidRequests.ScopeIdentifies | contracts/runtimeexecutor/external_binding_validation.go:28-32 | for NUL-free references the joined scope key is the same exactly for one capability of one site, for backups on the same nodes |
| ValidRequests.BoundHealthIsPlaced | contracts/runtimeexecutor/validation.go:366-381 | health that names a runtime requirement is placed where a target of it is |
| SortWitness.SortsExist | contracts/runtimeexecutor/validation.go:559-624 | insertion sort is a legal sort for every order the records are sorted by, so the hypotheses on sorts can be met |
| SealExample.PlacedRequestIsValid | contracts/runtimeexecutor/validation.go:110-137 | any placed targets and health checks in strict order form a valid request, whatever the sorts |
| Invocation.ValidateRuntimeOutcomes | contracts/runtimeexecutor/validation.go:402-431 | accepts exactly well-formed outcomes in strictly increasing joined-key order |
| Invocation.ValidateHealthOutcomes | contracts/runtimeexecutor/validation.go:433-458 | accepts exactly well-formed health outcomes in strictly increasing requirement order |
| Invocation.ValidateExactOutcome | contracts/runtimeexecutor/invoke.go:73-93 | accepts exactly the outcomes that answer the governed targets position by position, and tells a malformed outcome from one for other targets |
| Invocation.ValidateResult | contracts/runtimeexecutor/validation.go:205-228 | accepts exactly well-formed results carrying their own digest |
| Invocation.ValidateExternalFreshness | contracts/runtimeexecutor/external_binding_validation.go:383-411 | accepts exactly a proper instant that is the authorization time and lies inside the validity window of every access and backup binding, or no bindings and no authorization time |
| Invocation.InvokeAt | contracts/runtimeexecutor/invoke.go:21-71 | the executor is called at most once and exactly on a valid, not cancelled request sealed for it, at its authorization time and inside every binding window; otherwise the first of the five failing checks names the refusal; a result is returned exactly for an exact outcome and binds it; panic, error, late cancellation, malformed outcome and foreign targets each have their own refusal |
| Invocation.OutcomeCheckMeansAnswers | contracts/runtimeexecutor/invoke.go:73-93 | on a sealed request the outcome check accepts exactly the executors that answer each target once, in order, with well-formed observations |
| Invocation.AnswersMakeValidResults | contracts/runtimeexecutor/invoke.go:51-71 | such an answer always yields a valid result |
| ApplyOperation.HealthTargetsOneRuntime | contracts/runtimeapply/journal.go:333-341 | true exactly when one and only one target matches |
| ApplyOperation.NewStep | contracts/runtimeapply/journal.go:162-190 | there is a step exactly for a valid child request whose health is all its own; it carries the request's digest, authority and compensation mode and expects its targets and health |
| ApplyOperation.VerifyStepRuntime | contracts/runtimeapply/operation_validation.go:137-148 | accepts exactly the expected outcomes, in order, all applied |
| ApplyOperation.VerifyStepHealth | contracts/runtimeapply/operation_validation.go:150-161 | accepts exactly the expected health outcomes, in order, all healthy |
| ApplyOperation.VerifyStepResult | contracts/runtimeapply/journal.go:230-241 | accepts exactly the verified results of this step |
| ApplyOperation.InvokedResultProvesStepExactly | contracts/runtimeapply/journal.go:162-190 | a returned result proves the step of its request exactly when the journal's sort kept the sealed order |
| ApplyOperation.InvokeAndJournalAgree | contracts/runtimeapply/journal.go:230-241 | with distinct requirement ids it always does, despite the separate sorts |
| JournalAgreement.JournalAgreementExactly | contracts/runtimeapply/journal.go:162-190 | every legal journal sort accepts the invocation's result exactly when no requirement id is repeated |
| JournalAgreement.TwinTargetsCanBeRefused | contracts/runtimeapply/journal.go:162-190 | a valid request with two instances of one requirement, invoked successfully, whose result some legal sort refuses |
| ApplyCoverage.OperationCoverage.ValidateRuntime | contracts/runtimeapply/operation_validation.go:82-97 | consumes exactly sorted expectations that name parent targets and were not consumed before |
| ApplyCoverage.OperationCoverage.ValidateHealth | contracts/runtimeapply/operation_validation.go:99-110 | consumes exactly non-empty health expectations not consumed before |
| ApplyCoverage.OperationCoverage.ValidateStep | contracts/runtimeapply/operation_validation.go:47-69 | accepts a step exactly when it fits the parent and repeats nothing consumed so far |
| ApplyCoverage.OperationCoverage.ValidateComplete | contracts/runtimeapply/operation_validation.go:112-125 | accepts exactly complete runtime and health coverage |
| ApplyCoverage.ValidateOperationSteps | contracts/runtimeapply/operation_validation.go:30-45 | accepts exactly the covering step lists |
| ApplyCoverage.ValidateOperationForRequest | contracts/runtimeapply/journal.go:210-226 | accepts exactly the operations bound to the parent |
| ApplyCoverage.NewOperation | contracts/runtimeapply/journal.go:192-208 | builds an accepted operation, or there is none with these steps |
| ApplyCoverage.CoverageIsPartition | contracts/runtimeapply/operation_validation.go:30-125 | acceptance puts expectations in bijection with the parent's runtime and health targets and forces distinct requirement ids |
| ApplyCoverage.AcceptedExactlyWhenPartitioned | contracts/runtimeapply/operation_validation.go:30-125 | the step checks accept exactly the partitions of the parent into well-formed steps |
| ApplyJournal.ValidateStepState | contracts/runtimeapply/journal.go:298-314 | a step carries exactly the evidence its state calls for |
| ApplyJournal.ValidateSnapshotSteps | contracts/runtimeapply/snapshot_validation.go:41-65 | every step is exact and evidenced, and the counters are the true state counts |
| ApplyJournal.ValidateCounts | contracts/runtimeapply/snapshot_validation.go:67-104 | the counter arithmetic decides exactly which step states fit an operation state |
| ApplyJournal.ValidateSnapshot | contracts/runtimeapply/journal.go:263-272 | accepts exactly the valid snapshots |
| ApplyJournal.OperationStateForSteps | internal/runtimeexecutordispatch/journal.go:390-413 | the counting loop gives reconcile-required exactly when a step failed and none is pending or running |
| ApplyJournal.ValidateReservation | contracts/runtimeapply/journal.go:243-261 | each disposition carries exactly its token and snapshot |
| ApplyJournal.AcceptedIdsSorted | contracts/runtimeapply/journal.go:217-224 | an accepted operation has strictly increasing step ids, as the commit search needs |
| ApplyJournal.NamedIsFound | contracts/runtimeapply/journal.go:278 | in a sorted operation a commit can name no step but the one the search finds |
| ApplyJournal.ValidateStepCommit | contracts/runtimeapply/journal.go:274-286 | accepts exactly the commits whose searched step has that id and digest, along a legal transition with matching evidence; in a sorted operation, all legal commits |
| ApplyJournal.ValidateFinalization | contracts/runtimeapply/journal.go:288-296 | accepts exactly fenced legal operation transitions |
| ApplyRuns.NoDeadEndBeforeCompensation | contracts/runtimeapply/snapshot_validation.go:67-97 | with the derived operation state: from every open snapshot without a compensated step, completion is at most 2n accepted commits and one finalisation away |
| ApplyRuns.CompensationIsPointOfNoReturn | contracts/runtimeapply/snapshot_validation.go:67-104 | over every run: after one compensation no step runs, the operation never completes, pending and failed stay, and an end means every step compensated or failed |
| ApplyRuns.CompensationEndsExactly | contracts/runtimeapply/journal.go:320-331 | a compensating snapshot can reach its end, with derived states, exactly when nothing is pending and every succeeded step declared compensation |
| StuckRuns.CompensationWaitsForTheRest | internal/runtimeexecutordispatch/journal.go:390-413 | no run from a new journal holds a compensated step next to a pending or running one |
| StuckRuns.StuckExactly | contracts/runtimeapply/snapshot_validation.go:67-104 | a reachable snapshot that has begun compensating can end exactly when no step stays succeeded without declared compensation |
| StuckRuns.AllExplicitIsNeverStranded | contracts/runtimeapply/snapshot_validation.go:67-104 | an operation whose steps all declare compensation can always end |
| StuckRuns.StrandedExactly | internal/runtimeexecutordispatch/journal.go:390-413 | a run from a new journal can reach a partly compensated snapshot that nothing ends exactly when the operation has three steps, one that can succeed and be compensated and one that can succeed and cannot |
| StrandedExample.AcceptedIsStrandedExactly | internal/architecturev2/product_apply_file_journal.go:583-629 | any placed parent with requirements of their own, split into steps with health, is accepted and journaled, and can be stranded exactly when it has three steps of both modes |
| StrandedExample.SomeAcceptedOperationIsStranded | internal/runtimeexecutordispatch/journal.go:390-413 | an accepted operation that a durable journal takes and can be stranded with exists |
| OperationShape.ValidateOperationShape | internal/architecturev2/product_apply_file_journal.go:583-629 | accepts exactly the operations with well-formed, sorted, pairwise different steps and expectations |
| OperationShape.AcceptedIsJournaledExactly | internal/architecturev2/product_apply_file_journal.go:583-629 | an operation accepted for its parent has that shape exactly when every step checks some health, in requirement order |
| FileJournal.Journal.Write | internal/architecturev2/product_apply_file_journal.go:477-494 | a record is written completely or not at all, and a written one may still be reported as failed |
| FileJournal.Journal.Begin | internal/architecturev2/product_apply_file_journal.go:129-192 | acquired exactly when nothing is stored, conflicting exactly when another operation is, resumed exactly when it is open, replayed exactly when it is terminal, the last two with exactly the stored snapshot; never in progress; the store changes only by the new record or the new fence |
| FileJournal.Journal.CommitStep | internal/architecturev2/product_apply_file_journal.go:194-239 | a commit is taken exactly when some accepted event of the stored record is this commit; then only that record changes, by it and by the derived state |
| FileJournal.Journal.Finalize | internal/architecturev2/product_apply_file_journal.go:241-277 | likewise for finalisation, which drops the fence of a terminal operation |
| FileJournal.StepsKeepRecord | internal/architecturev2/product_apply_file_journal.go:544-570 | every step of its life leaves a record well-formed, fenced and reachable |
| FileJournal.StaleHolderIsRefused | internal/architecturev2/product_apply_file_journal.go:208-210 | over every life of a record: after another holder took the operation over, no event with the old token is accepted |
| FileJournal.RepeatedCommitIsRefused | internal/architecturev2/product_apply_file_journal.go:220-222 | a commit repeated at once is refused, whether or not its write was reported |
| FileJournal.FinalRecordIsFrozen | internal/architecturev2/product_apply_file_journal.go:173-176 | no takeover and no event changes the record of a completed or compensated operation |
| JournalLife.FinishedStays | internal/architecturev2/product_apply_file_journal.go:129-277 | over every life of the store: the record of a finished operation never changes again |
| JournalLife.FinalisedIsReplayed | internal/architecturev2/product_apply_file_journal.go:173-176 | after a finalisation every later begin of that operation answers replay with exactly the finalised snapshot |
| JournalLife.CompletedIsReplayedForEver | internal/architecturev2/product_apply_file_journal.go:241-277 | so a completed operation is replayed for ever, and its replay proves its parent |
| JournalRuns.JournalHoldsExactly | internal/architecturev2/product_apply_file_journal.go:129-277 | the durable record of a new operation can hold a snapshot exactly when some run of accepted events reaches it |
| JournalRuns.StuckRecordNeverEnds | internal/architecturev2/product_apply_file_journal.go:129-277 | a stuck record stays reconcile-required for ever, whoever takes it over |
| ApplyRuns.FinalIsFinal | contracts/runtimeapply/journal.go:327-331 | no event changes a completed or compensated snapshot |
| StepHistory.SuccessStands | contracts/runtimeapply/journal.go:316-331 | over every run: a succeeded step is never run again; its evidence stands until, at most, it is compensated |
| StepHistory.ResultWasRunning | contracts/runtimeapply/journal.go:316-331 | over every run from a new journal: nothing is recorded of a step before it was recorded as running |
| ApplyReplay.CompletedReplayProvesParent | contracts/runtimeapply/snapshot_validation.go:22-65 | the journaled outcomes of an accepted completed replay are in bijection with the parent's targets, all applied and all healthy, under the parent's authority |
| ApplyReplay.MergedOutcomeAnswersParent | internal/runtimeexecutordispatch/journal.go:296-349 | the outcomes of a completed accepted operation, merged in any order and sorted by any legal sorts, pass the exact check of the parent target by target |
| JournalAnswers.ValidateCommittedSnapshot | internal/runtimeexecutordispatch/journal.go:359-388 | accepts exactly the valid snapshots in the expected state that show the commit, with every step before it as indexed |
| JournalAnswers.AnswerMeans | internal/runtimeexecutordispatch/journal.go:359-429 | against the snapshot the dispatcher indexed, that is exactly agreement with the derived commit in state and in every step up to the committed one |
| JournalAnswers.HonestAnswerPasses | internal/runtimeexecutordispatch/journal.go:359-388 | the answer of a journal that keeps the rules always passes |
| JournalAnswers.LaterStepMayMove | internal/runtimeexecutordispatch/journal.go:371-387 | a pending step after the committed one may have been set running and the answer still passes |
| JournalAnswers.LastAnswerIsExact | internal/runtimeexecutordispatch/journal.go:371-387 | for the last step only the exact commit passes |
| DispatchProtocol.CallIsWrittenAhead | internal/runtimeexecutordispatch/journal.go:172-189 | in every orderly log an executor is called only directly after a commit that set exactly its step running, which the journal showed |
| DispatchProtocol.AttemptsAscend | internal/runtimeexecutordispatch/journal.go:154-189 | no child is attempted twice |
| DispatchProtocol.BrokenPlatformIsNotDeployedTo | internal/runtimeexecutordispatch/platform_gate.go:18-30 | after a platform broke, no executor of a child that deploys through it is called |
| DispatchProtocol.RefusedOnlyAfterBreak | internal/runtimeexecutordispatch/platform_gate.go:18-30 | a call is refused in place of the executor only to a child whose platform broke before |
| DispatchProtocol.CriticalFailureEndsDispatch | internal/runtimeexecutordispatch/journal.go:47-55 | after a critical child really failed, that failure is reported and nothing else is done any more |
| DispatchProtocol.ReportsAreTrue | internal/runtimeexecutordispatch/journal.go:189-236 | nothing is reported of a step but what its attempt, directly before, came to: exactly the delivered result, or a failure with the code of its cause |
| DispatchProtocol.CompletionMeansNoneFailed | internal/runtimeexecutordispatch/journal.go:239-264 | completion is asked for only when no failure was reported |
| FaithfulDispatch.StartIsAccepted | internal/runtimeexecutordispatch/journal.go:172-187 | starting the next child of a dispatch in hand is accepted and leaves exactly its step running |
| FaithfulDispatch.ReportIsAccepted | internal/runtimeexecutordispatch/journal.go:189-236 | reporting it is accepted and leaves the child done, nothing running |
| FaithfulDispatch.AllDoneMeans | internal/runtimeexecutordispatch/journal.go:239-248 | with every child done the operation has succeeded throughout, or is reconcile-required when a failure was reported |
| FaithfulDispatch.DiligentIsFaithful | internal/runtimeexecutordispatch/journal.go:79-272 | such a journal and such executors exist for any operation with verifiable results |
| Dispatch.GatheredAnswersParent | internal/runtimeexecutordispatch/journal.go:335-349 | results that prove their steps, gathered child by child and sorted in any legal way, pass the exact check of the parent |
| Dispatch.DispatchChild | internal/runtimeexecutordispatch/journal.go:154-237 | a succeeded step is taken over with the journal's result and without a call; any other is started, attempted and reported, or the dispatch ends with a stated verdict |
| Dispatch.Complete | internal/runtimeexecutordispatch/journal.go:250-269 | a dispatch is done only when the journal showed the operation completed with exactly the steps it had before; a faithful one always does |
| Dispatch.ReplayPrepared | internal/runtimeexecutordispatch/journal.go:296-322 | a completed operation is always answered, from exactly one journaled result for each child |
| Dispatch.ExecutePrepared | internal/runtimeexecutordispatch/journal.go:79-272 | whatever journal and executors answer, every act is permitted; a returned outcome consists of exactly one result for each child, delivered by its attempt or shown by the journal, and passes the exact check of the parent; a reconcile verdict carries the last journaled snapshot, is critical exactly when a critical child failed, and otherwise leaves no child unattempted; with a faithful journal the dispatch always ends done or with a reported failure |
| AffectedPlan.Planner.FocusGoTests | cmd/stackkit-affected-tests/planner.go:706-723 | the focus of a package is exactly its changed and file-bound tests |
| AffectedPlan.Planner.Select | cmd/stackkit-affected-tests/planner.go:978-1063 | a touched package is compile-only, test-only or changed according to all its changed files |
| AffectedPlan.Planner.FallBackToPackageSlice | cmd/stackkit-affected-tests/planner.go:745-751 | the focus moves into the requirement without losing or inventing a test |
| AffectedPlan.Planner.ApplyBoundary | cmd/stackkit-affected-tests/planner.go:752-784 | one boundary adds exactly its tests to its owner and makes the owner a changed package |
| AffectedPlan.Planner.ApplyPublicTestBoundaries | cmd/stackkit-affected-tests/planner.go:725-804 | kept tests grow by exactly the boundary tests, exactly the unmapped packages fall back, and tagged commands run exactly the tagged boundary tests |
| AffectedTests.BudgetedPackageCommand | cmd/stackkit-affected-tests/slice_budget.go:155-168 | the slice runs every test but the slow ones that are not required |
| AffectedCommands.SelectTests | cmd/stackkit-affected-tests/planner.go:1080-1110 | decides exactly which packages get named tests, their fallback, a plain compile or a compile under their tags |
| AffectedCommands.EmitBatches | cmd/stackkit-affected-tests/planner.go:1123-1139 | batches of at most eight, under the tags of the package, run exactly the named tests |
| AffectedCommands.CompileCommands | cmd/stackkit-affected-tests/planner.go:1153-1172 | one command compiles exactly the plain packages and one for each set of tags exactly its packages |
| AffectedCommands.AffectedGoCommands | cmd/stackkit-affected-tests/planner.go:1069-1183 | the commands execute exactly the tests the selection says, slice exactly the packages in fallback, and compile exactly the compile-only, empty-focus, test-only and tagged packages |
| AffectedAdjustments.AdjustSelection | cmd/stackkit-affected-tests/planner.go:357-445 | the removals and additions after the boundaries leave exactly the stated packages changed, test-only, compile-only and focused, with exactly the stated tests |
| AffectedCoverage.SelectPackages | cmd/stackkit-affected-tests/planner.go:342-356 | selection, focus and boundaries together keep exactly the chosen tests and classify every package from the inputs |
| AffectedCoverage.ChangedTestsAreNotCompileOnly | cmd/stackkit-affected-tests/planner.go:1014-1016 | a package with changed tests is never compile-only |
| AffectedCoverage.NoSelectedTestLost | cmd/stackkit-affected-tests/planner.go:342-446 | a changed, file-bound or boundary test is executed exactly when its package is reached, a condition on the inputs alone |
| AffectedCoverage.ChosenTestIsRun | cmd/stackkit-affected-tests/planner.go:342-446 | every chosen test of a package that is neither withheld nor compile-only is executed |
| AffectedCoverage.ChangedTestIsRun | cmd/stackkit-affected-tests/planner.go:342-446 | a changed test of any package but the js/wasm-only one is executed |
| AffectedCoverage.SlicesAreExact | cmd/stackkit-affected-tests/planner.go:342-446 | a package gets its slice exactly when the inputs call for one |
| AffectedCoverage.NoTouchedPackageForgotten | cmd/stackkit-affected-tests/planner.go:342-449 | every package with a changed Go file, but the js/wasm-only one, is built by some command |
| AffectedCoverage.UnmappedProductionIsSliced | cmd/stackkit-affected-tests/planner.go:357-362 | a package with unmapped production changes gets a slice exactly when it is not the js/wasm-only one |
| AffectedCoverage.WasmPackageIsWithheld | cmd/stackkit-affected-tests/planner.go:357-362 | a diff of that package's main file and a test file gets no slice and loses its changed test |
| AffectedCoverage.AnnouncedSliceIsEmittedExactly | cmd/stackkit-affected-tests/planner.go:1080-1120 | without a focus or a tag the slice is emitted exactly when the package has a real production change |
| AffectedCoverage.TestOnlyWithoutChosenOnlyCompiles | cmd/stackkit-affected-tests/planner.go:1118-1120 | a test-only package without a chosen test executes a test exactly when a parity test or the templates bring one in |
| AffectedCoverage.UnreadableTestIsOnlyCompiled | cmd/stackkit-affected-tests/planner.go:1118-1120 | a diff of one unreadable test file executes no test of its package and gets no slice |
| AffectedCoverage.PlanTests | cmd/stackkit-affected-tests/planner.go:342-449 | end to end, the emitted commands run a chosen test exactly when its package is reached or a tagged boundary names it, slice exactly the packages due one, compile what the selection says, and forget no touched package |
| CapabilityCodec.AppendCapability | contracts/advancedcapability/advancedcapability_gen.go:207-256 | the buffer grows by exactly the canonical bytes, with or without the signature, and what a parser reads from them has each field under its published name |
| CapabilityCodec.AppendRenewal | contracts/advancedcapability/advancedcapability_gen.go:285-313 | the buffer grows by exactly the printed backup renewal |
| CapabilityJson.ParseValueInverts | contracts/advancedcapability/advancedcapability_gen.go:207-256 | parsing a printed value followed by anything recovers the value and leaves the rest |
| CapabilityJson.ParseValueExact | contracts/advancedcapability/wire.go:187-202 | the parser accepts no second spelling of a value |
| CapabilityJson.PrintedIsJson | contracts/advancedcapability/advancedcapability_gen.go:207-256 | a printed value is a quoted string, a bracketed list of quoted strings or a braced list of quoted names with values, joined by commas |
| CapabilityJson.EscapeIsCharacterwise | contracts/advancedcapability/advancedcapability_gen.go:207-256 | every character is escaped on its own |
| CapabilityJson.OrderedMembersAgree | contracts/advancedcapability/wire.go:187-202 | two records with increasing names in which every name finds the same value are one record |
| CapabilityCodec.CanonicalRoundTrip | contracts/advancedcapability/wire.go:63-71 | the parser recovers every capability from its canonical bytes, for any operations and optional members |
| CapabilityCodec.PrintedByName | contracts/advancedcapability/advancedcapability_gen.go:207-256 | in the printed document and its nested records every field is found under its published JSON name, an absent option under none, and nothing else is found |
| CapabilityCodec.ParsedBytesAreCanonical | contracts/advancedcapability/wire.go:187-202 | whatever parses as a capability is its canonical bytes |
| CapabilityCodec.SignedBytesIdentifyCapability | contracts/advancedcapability/wire.go:52-71 | signed messages are equal exactly for capabilities equal up to the signature |
| MemberOrder.PrintedMembersIncrease | contracts/advancedcapability/advancedcapability_gen.go:207-256 | whichever optional members it has, signed or not, every record of a printed capability has strictly increasing member names |
| CapabilityDocument.DocumentIsUnique | contracts/advancedcapability/wire.go:187-202 | a capability has only one document with increasing names |
| CapabilityDocument.CanonicalIsTheDocument | contracts/advancedcapability/wire.go:187-202 | the canonical bytes are that document, and no others are |
| CapabilityDocument.DecodeCapability | contracts/advancedcapability/wire.go:190-202 | accepted exactly when bounded, decoded and valid, and the bytes are the document of what the library decoded: increasing names in every record, each field under its published name, and nothing else |
| CapabilityClaims.ValidateOperations | contracts/advancedcapability/wire.go:112-122 | accepts exactly non-empty, strictly increasing, supported operation lists |
| CapabilityClaims.ValidateScope | contracts/advancedcapability/wire.go:144-175 | the three nested checks accept exactly one of four capability shapes |
| CapabilityClaims.ValidateClaims | contracts/advancedcapability/wire.go:105-176 | accepts exactly the claims with a bounded lifetime and one shape |
| CapabilityClaims.AcceptedScopesExcludeEachOther | contracts/advancedcapability/wire.go:144-175 | a transfer or renewal is the whole capability, and its operation and record imply each other |
| ChangeSet.ArtifactsByPath | internal/advancedchangeset/changeset.go:195-210 | the path map of a valid rendering, or a refusal |
| ChangeSet.DiffArtifacts | internal/advancedchangeset/changeset.go:133-181 | exactly the transitions of all paths, sorted by path, within the bound |
| ChangeSet.ListedExactlyWhereDifferent | internal/advancedchangeset/changeset.go:133-193 | a path is listed exactly when presence, bytes or governed metadata differ, with its true kind, both digests and whether metadata differ |
| ChangeSet.DiffIsExactPatch | internal/advancedchangeset/changeset.go:133-181 | applying the changes to the baseline digests gives exactly the candidate digests |
| ChangeSet.SwappingInvertsTheDiff | internal/advancedchangeset/changeset.go:133-181 | swapping the renderings inverts every change, and the inverse undoes the patch |
| ChangeSet.DiffIgnoresListOrder | internal/advancedchangeset/changeset.go:133-210 | permuting either rendering leaves the diff unchanged |
| ChangeSet.EmptyExactlyWhenEqual | internal/advancedchangeset/changeset.go:133-193 | no change exactly when paths, bytes and governed metadata agree |
| ChangeSet.ValidateChanges | internal/advancedchangeset/changeset.go:312-345 | refuses a missing list and accepts exactly the well-formed ones |
| ChangeSet.DiffPassesValidation | internal/advancedchangeset/changeset.go:312-345 | a diff within the bound over portable paths passes the record validator exactly when no path has equal metadata, different bytes and one digest for both |
| ChangeSet.RefusedDiffExists | internal/advancedchangeset/changeset.go:334-338 | with such a collision the validator refuses the diff, for any two artifacts that differ in bytes only |
| JsonScanner.Scanner.NextToken | internal/api/architecture_v2_resolve.go:344-354 | consumes one token and refuses past the token limit |
| JsonScanner.ParseInverts | internal/api/architecture_v2_resolve.go:356-422 | the reference grammar reads the tokens of every value back as that value |
| JsonScanner.ParseExact | internal/api/architecture_v2_resolve.go:356-422 | it reads nothing else as a value |
| JsonScanner.Scanner.ScanValue | internal/api/architecture_v2_resolve.go:356-369 | from any stream, accepts exactly when a value stands here that fits depth, collections and tokens, and consumes exactly it |
| JsonScanner.Scanner.ScanCollection | internal/api/architecture_v2_resolve.go:371-422 | the same for an opened collection |
| JsonScanner.Scanner.ScanMembers | internal/api/architecture_v2_resolve.go:376-398 | the member loop accepts exactly bounded objects with distinct keys |
| JsonScanner.Scanner.ScanItems | internal/api/architecture_v2_resolve.go:399-409 | the item loop accepts exactly bounded arrays |
| JsonScanner.ValidateObject | internal/api/architecture_v2_resolve.go:320-342 | any token stream, well-formed or not, is accepted exactly when it is one conforming object and only the end of the input follows |
| RouteTable.DuplicateKeyIdentifiesRule | internal/accessgatetable/table.go:199-205 | duplicate keys are equal exactly for equal rules |
| RouteTable.Validate | internal/accessgatetable/table.go:192-208 | accepts exactly tables of valid, pairwise different rules |
| RouteTable.Lookup | internal/accessgatetable/table.go:286-305 | returns a longest matching route, or nothing when none matches |
| RouteTable.NoTies | internal/accessgatetable/table.go:286-315 | two matching routes of equal length are one route |
| RouteTable.SelectionIsStrictlyLongest | internal/accessgatetable/table.go:286-315 | on an accepted table the selected route is strictly longer than every other match |
| RouteTable.LookupIgnoresRouteOrder | internal/accessgatetable/table.go:286-305 | reordering an accepted table never changes the selection |

## Left out

- Filesystem confinement, permissions, symlink checks and admission leases: a save or a file write either fully happens or does not.
- Rollback scaffolding (`Materialize`), journal file decoding and the durations and details in reports: no claim of the model depends on them.
- The recreation callback of a rollback is external; it is modelled by its documented promise, that on success every listed root holds its checkpoint files, and by arbitrary damage to those roots on failure. The order of the writes inside it is not modelled.
- Provider initialisation, workload alignment and native side steps are part of the one arbitrary replacement of a root's state by its apply.
- Compose and environment files live in the parent directory of a root; the model keeps them with the root, which is faithful while roots are distinct and not nested, and removing a root removes them with it.
- Changes made to the workspace by others between two invocations of a rollback.
- RollbackTheorems.ConvergedRollbackReachedCheckpoint: says nothing about host steps, which own no OpenTofu root and write no checkpoint file.
- The durable journal's file system, locks, recovery capsules and JSON: a record is written whole or not at all, and operations are compared as values, which for the sorted operations of the journal is what comparing their canonical JSON does. A call that cannot lock or read its record is one whose write is refused.
- That a randomly drawn fence token is new: the fencing results speak of tokens that differ.
- Who would commit a compensation: no code of the repository does.
- Dispatch without a journal, the progress observers, error texts, and the partition and sealing of child requests before a dispatch; a child's criticality and platform role are inputs.
- Dispatch.ExecutePrepared: a dispatch may end without a verdict on any refused child or answer; which refusal it was is not modelled.
- Regular expressions, URL, timestamp and semantic-version syntax, probe and workload scalars: predicates of `Rules`; SHA-256 and JSON marshalling: functions; Ed25519: part of the validity predicate of `DecodeCapability`.
- The difference between an absent and an empty list in Go's JSON, which cloning removes.
- AffectedPlan.Planner.Select: does not model reverse dependents; they are only compiled and execute no test.
- AffectedPlan.Planner.ApplyPublicTestBoundaries: publisher-only packages are assumed absent. Package patterns are identified with their directories.
- AffectedCommands.AffectedGoCommands: reverse compiles, the order of commands of one kind and their argument strings are not modelled.
- The planner blocks that append fixed commands for other tools (website, WebMCP, CUE, publisher build, contract proof).
- CapabilityCodec.AppendCapability: strings outside printable ASCII, which `strconv.AppendQuote` escapes in further ways, are not modelled.
- CapabilityCodec.AppendRenewal: likewise.
- The trust bundle of capabilities with its keys.
- JsonScanner.ValidateObject: the decoder is its token stream, cut at the first syntax error; lexing and the decoder's own placement of commas and colons are not modelled.
