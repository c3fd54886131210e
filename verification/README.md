# Verified model of the module build scheduler

This project models the core of the module build service in Dafny and proves what it promises about
builds: in which order RPMs are built, when a module is done, what is reused, and how several
self-contained algorithms relate to their simple definitions.

**The scheduler as a step machine.** A module build is a row with a life-cycle state, a trace of states,
a batch counter, component builds and the task of a repo regeneration (`Records.dfy`). The handlers for
`init`, `wait`, `failed`, `done`, finished tasks, tag messages and repo messages, the periodic producer
steps, user cancel and resubmission are functions on that row (`Batches.dfy`, `Handlers.dfy`), and
`World.dfy` puts all module builds together with Koji: in every step any message may be handled, late,
repeated or stale, or Koji may move on. Theorems about runs are inductions over these steps.

**The same handlers in place.** `ModuleBuild.dfy` holds the class whose methods change the fields of one
row as the handlers do, with the loops and the recursion of the code. Each method is proved to have
exactly the effect of the function of the same handler, and `Process` shows that any message handled in
place is a step of the machine. So the run theorems hold of the class.

**What runs keep.** `WorldInvariant.dfy` proves the batch invariant of all runs. On it rest the
end-to-end promise of buildorder (`EndToEnd.dfy`), the limit on concurrent builds (`Concurrency.dfy`),
the gate to done (`DoneGate.dfy`), repo regenerations and tag messages (`Repositories.dfy`) and the life
cycle (`LifeCycle.dfy`). `Example.dfy` gives a run that meets all assumptions, so none of this is empty,
and `Witnesses.dfy` gives runs that end where they should not.

**What each handler answers.** `BatchAnswers.dfy` and `HandlerAnswers.dfy` say, by the states, tags and batches of
the components, exactly when a handler waits, submits, tags, asks for a repo, cancels, fails the build or
finishes it, and what it leaves of every component.

**Marks of reuse.** The threshold does not count a component that was reused, and a resubmission resets it
without taking the mark; `SubmitsWithinLimitIff` says exactly when one continuation that meets such marks
would exceed the limit. No run comes to that: look-ups repeat (`Offers.dfy`, `OffersRepeat`), so a marked
component is reused again when its batch is entered again, is never submitted (`ReusedIsNeverSubmitted`), and
the limit holds for all that really runs (`RealLimitHoldsInRuns`, all in `ReuseMarks.dfy`).

**Planning and reuse.** `Planning.dfy` flattens nested modulemds into batches, `Numbering.dfy` proves that
buildorder becomes batch order, `PlanningSuccess.dfy` says when planning gives every RPM a batch number, and
`PlanningExact.dfy` when it succeeds and what it records, whatever names occur twice. `Reuse.dfy` covers which
components may be reused, changed-and-after, and reuse of whole modules.

**Algorithms.** `RpmSplit.dfy` (module and -devel contents), `Dependencies.dfy` (dependencies to solver
expressions), `LatestBuilds.dfy` (latest versions from the database and from Koji), `StreamVersions.dfy`
(stream versions and prefixed versions) and `ScratchContexts.dfy` (contexts of scratch builds).

## Findings

These follow from the code as it is. The lemmas named show a concrete input, or the exact condition, or both.

- `start_next_batch_build` does not end on every input: if all that is unbuilt lies below the current
  batch and every check passes, it calls itself until the interpreter stops it (`RecursionEndsIff`). In
  runs this needs module-build-macros left unbuilt while everything else is built, or an RPM that comes
  after an empty included modulemd (`RecursionEndsInRuns`). Runs get there both ways: by a resubmission
  after failed macros that reuses every other component (`RunawayReached`), and with module-build-macros
  built (`UnnumberedRunawayReached`).
- `done` is reached with untagged components exactly when they lie above the current batch
  (`FinishTaggedIff`), and a run with a resubmission does so (`DoneUntagged`); it cannot happen in one
  build round.
- An included modulemd without components leaves planning without a batch number. Planning then fails
  exactly if the buildorder changes again (`PlanningSucceedsIff`, `EmptyIncludedModuleFails`). An RPM of the
  same buildorder is recorded in batch 0, the default of the column (`NumberedIff`), whatever its
  buildorder (`BuildorderRespected`, `LaterOrderInBatchZero`); no batch ever submits it, and it is refused
  when the modulemd is recorded again (`RecordingTwice`).
- A stream without digits has stream version 0, not none as its documentation says (`NoDigitsIsZero`), and
  0 switches the less-or-equal filter off (`LteFilterIff`).
- Of two source RPMs of one name in a tag, the first may be in neither the module nor its -devel module
  (`SourceRpmsAreComplementaryIff`, `FirstOfTwoSourcesIsLost`).
- A list of dependency dictionaries keeps its meaning exactly when all are empty or none is
  (`MeaningKeptIff`): a leading empty dictionary is dropped instead of making everything acceptable
  (`LeadingEmptyDictIsDropped`), and one after a non-empty one cannot be compiled (`CompilesIff`).
- Two builds share name:stream:version:context exactly when some scratch build got a context that a normal
  build already had (`NoTwoBuildsShareNsvcIff`). That needs contexts of different lengths
  (`OneLengthNeverClashes`), which static contexts may have (`MixedLengthsMayClash`).
- A `wait` message that starts a build in another state than wait, and a `done` message that makes a build
  ready in another state than done, are the only messages that break the life cycle
  (`TracesFollowEdgesIff`); the handlers do not check the state.
- A `wait` message requests a repo regeneration without looking whether one is active; exactly then two may
  be active at once (`OneActiveAcrossRoundsIff`, `TwoRegenerations`).

## Assumptions about the environment

They are the predicates `KojiEvolves`, `Answers`, `Truthful` and `Allowed` in `World.dfy`.

- A Koji task that ended keeps its end; a closed task has one build with one NVR; the buildroot of a module
  build that has neither failed nor been collected only grows; what passes `buildroot_ready` is in it.
- `builder.build` answers with a running build or a failure without a task, or raises. An orphan that is
  recovered has a closed task.
- A message about a task reports how the task ended. A `done` message is only sent for a module build that
  once was done. All messages may be late, repeated or stale; the one theorem that needs fresh `wait` and
  `done` messages says `IsFreshRun`.
- Components are reused from the module build that was chosen once, or else from one that is ready. What a
  look-up finds is what `get_reusable_component` finds on the rows of both (`Reuse.Offer`, `LooksUp`).
- No RPM of a modulemd is itself named module-build-macros. The build system is Koji, no Celery broker is
  configured, and a handler is one atomic step.

## Model

| member | source | states |
|---|---|---|
| SelectionTheorems.ContinueIsWorkConservingAndHeaviestFirst | module_build_service/scheduler/batches.py:96-134 | after a selection every candidate was submitted, was recovered, or the counted builds of all modules reach the limit; nothing left waiting weighs more than something submitted |
| SelectionTheorems.SelectWorkConserving | module_build_service/scheduler/batches.py:120-134 | a candidate the loop leaves is only left because the threshold is met when the loop ends |
| SelectionTheorems.SelectHeaviestFirst | module_build_service/scheduler/batches.py:108-134 | what the loop starts weighs at least as much as any candidate it leaves |
| SelectionTheorems.SelectWithinLimit | module_build_service/scheduler/batches.py:13-45 | a loop that selects anything ends with no more counted builds than the limit |
| SelectionTheorems.SelectMarksChosen | module_build_service/scheduler/batches.py:119-134 | exactly the selected components were set to building, each once, and none of them was complete |
| SelectionTheorems.SubmitAllTouchesChosen | module_build_service/scheduler/batches.py:51-80 | submission changes only the selected components, leaves them running or failed, and changes the module only to failed |
| SelectionTheorems.SortPermutes | module_build_service/scheduler/batches.py:111 | sorting the candidates neither loses nor adds one |
| SelectionTheorems.SortSorted | module_build_service/scheduler/batches.py:111 | the candidates are in descending order of weight |
| SelectionTheorems.SortIsStable | module_build_service/scheduler/batches.py:111 | candidates of one weight keep their order |
| SelectionTheorems.ThresholdCounts | module_build_service/scheduler/batches.py:13-45 | the threshold is met exactly if there is a limit and the running components that were not reused, here and in the other builds, reach it |
| BatchAnswers.ContinueAnswers | module_build_service/scheduler/batches.py:51-150 | each component that is submitted is failed if the submission raised or gave a running build without a task, and carries task, state and NVR of the answer otherwise; the build fails by the call if and only if some submission was refused; every other seed is recovered if it waits and a build of it exists, and nothing else changes |
| BatchAnswers.EnterAnswers | module_build_service/scheduler/batches.py:246-279 | of a batch that is entered, what is looked up and offered carries the task and NVR of its counterpart, runs and is not submitted, and the other build is recorded; the rest is continued with |
| BatchAnswers.StartNextAnswers | module_build_service/scheduler/batches.py:153-279 | in terms of the states of the components: when nothing happens, when the batch is continued, when relict tasks fail the build, and when the next batch is entered, looked up, or skipped; the buildroot is asked for exactly the NVRs of the batch |
| SkipRecursion.RecursionEndsIff | module_build_service/scheduler/batches.py:163-244 | some stack depth lets the recursion return if and only if the input is not one whose unbuilt components all lie below the current batch while all checks pass |
| SkipRecursion.ReturnsWithinFrames | module_build_service/scheduler/batches.py:220-244 | the distance to one past the last batch is enough stack, whatever gaps lie between |
| SkipRecursion.RunawayNeverReturns | module_build_service/scheduler/batches.py:220-244 | on such an input the recursion exceeds every stack depth |
| SkipRecursion.StopsAtLeastUnbuiltBatch | module_build_service/scheduler/batches.py:163-244 | if the checks pass and nothing up to the current batch is unbuilt, the recursion stops exactly at the least batch with an unbuilt component, at most the last one, having checked the buildroot for each batch it left, in order |
| SkipRecursion.ForgottenMacrosRunAway | module_build_service/scheduler/batches.py:220-244 | a concrete module build on which the recursion never ends |
| SkipRecursion.Landing | module_build_service/scheduler/batches.py:220-244 | whatever is skipped, the result is that of one call that differs in the batch counter only |
| EndToEnd.RecursionEndsInRuns | module_build_service/scheduler/batches.py:163-244 | in every run, for a modulemd in which no RPM comes after an empty included one, the recursion returns unless everything but module-build-macros is built and module-build-macros is unbuilt |
| Witnesses.RunawayReached | module_build_service/scheduler/batches.py:220-244 | a concrete run reaches the runaway input by a resubmission that reuses everything but module-build-macros, and the next repo message then fails the build because no stack is deep enough |
| Witnesses.UnnumberedRunawayReached | module_build_service/scheduler/submit.py:419-495 | a concrete run without resubmission reaches a runaway input with module-build-macros built: an RPM after an empty included modulemd was recorded in batch 0, and the repo message fails the build |
| Numbering.BuildorderRespected | module_build_service/scheduler/submit.py:411-495 | in every modulemd of the tree, a recorded RPM under an entry of smaller buildorder is in a strictly smaller batch than one under an entry of larger buildorder if and only if the latter has a batch number |
| Numbering.BuildorderIsBatchOrder | module_build_service/scheduler/submit.py:428-495 | the same of the planned numbers, from any initial batch, known or not, and previous buildorder |
| Numbering.EqualOrderSameBatch | module_build_service/scheduler/submit.py:428-440 | plain RPMs of equal buildorder in one modulemd share a batch |
| Numbering.WalkRises | module_build_service/scheduler/submit.py:428-495 | numbers never fall along the traversal and stay above the initial batch, the returned batch is the last and largest one, and once a number is unknown all later ones are |
| Numbering.PlannedBatches | module_build_service/scheduler/submit.py:379-495 | planning gives one unsubmitted row per package, in batches from 2 up or in batch 0; if it returns a batch, that is the largest one assigned and none is 0 |
| Numbering.EveryRpmRecorded | module_build_service/scheduler/submit.py:428-495 | every RPM of every included modulemd gets a row |
| Numbering.RecordModuleFollowsWalk | module_build_service/scheduler/submit.py:379-495 | recording with its duplicate checks adds exactly the planned rows and returns the planned batch |
| Numbering.RecordingTwice | module_build_service/scheduler/submit.py:463-481 | recording the same modulemd again changes nothing if and only if every RPM was recorded with a batch number |
| PlanningSuccess.PlanningSucceedsIff | module_build_service/scheduler/submit.py:411-495 | planning of a modulemd in which every RPM has its own name succeeds if and only if, once an included modulemd without components was met, the buildorder never changes |
| PlanningExact.PlanningSucceedsExactly | module_build_service/scheduler/submit.py:379-495 | for every modulemd, with repeated names too: planning succeeds if and only if no change of buildorder follows an empty include, no included modulemd has an RPM of the outermost one, and every other repeated name has source, ref and batch of its first occurrence |
| PlanningExact.PlannedRowsAreFirsts | module_build_service/scheduler/submit.py:424-493 | there is one row for the first occurrence of each name, not submitted, with its source, ref, weight and build-only flag and the batch number known there, or 0 |
| PlanningExact.SortIsStable | module_build_service/scheduler/submit.py:417-428 | entries of one buildorder keep the order of the modulemd |
| PlanningSuccess.NumberedIff | module_build_service/scheduler/submit.py:419-495 | when planning succeeds, all batches are at least 2 if and only if no RPM comes after an included modulemd without components |
| PlanningSuccess.LaterOrderInBatchZero | module_build_service/scheduler/submit.py:419-495 | a concrete modulemd whose RPM of buildorder 0 is planned for batch 2 and whose RPM of buildorder 1 is recorded in batch 0 |
| PlanningSuccess.NonEmptyTreesArePlanned | module_build_service/scheduler/submit.py:411-495 | in particular it succeeds, with every RPM in a batch from 2 up, when every included modulemd has components |
| Numbering.EmptyIncludedModuleFails | module_build_service/scheduler/submit.py:419-453 | a concrete modulemd with an empty included module that cannot be planned |
| Planning.ComponentTable.RecordComponentBuilds | module_build_service/scheduler/submit.py:379-495 | the loop with its recursion leaves the rows, the batch or the error that the functional recording gives |
| WorldInvariant.BatchInvariantOfRuns | module_build_service/scheduler/batches.py:153-279 | in every run a done or ready build is complete, and for a modulemd in which no RPM comes after an empty included one every component below the current batch is complete and one that ever got a task has only complete components in smaller batches; module-build-macros is exempt once all the rest is built |
| WorldInvariant.RunsKeepInv | module_build_service/scheduler/consumer.py:245-296 | in every reachable state every module build satisfies the full invariant, its part about batches if no RPM of its modulemd comes after an empty included one, across failure, cancel, late results, recovery, reuse and resubmission |
| WorldInvariant.StepKeepsInv | module_build_service/scheduler/consumer.py:245-296 | every single event keeps the invariant of every module build |
| WorldInvariant.StepKeepsRecord | module_build_service/scheduler/consumer.py:245-296 | every message keeps the invariant of its module build, and never takes it back to init or out of being reusable |
| WorldInvariant.WaitKeepsInv | module_build_service/scheduler/handlers/modules.py:410-477 | wait keeps the invariant in all its cases, reusing everything or starting batch 1, fresh or stale |
| WorldInvariant.ResubmitKeepsInv | module_build_service/web/submit.py:592-606 | a resubmission, which rewinds the batch counter, keeps the invariant |
| WorldInvariant.InitKeepsInv | module_build_service/scheduler/handlers/modules.py:180-242 | init keeps the invariant, for any modulemd |
| WorldInvariant.StaleDoneKeepsInv | module_build_service/scheduler/handlers/modules.py:107-141 | a done message handled late or again, in any state, keeps the invariant, since what once was done is still complete |
| BatchInvariant.StartNextAdvances | module_build_service/scheduler/batches.py:163-279 | through any number of skipped batches, advancing only leaves complete batches, submits only in the batch it ends in, and every NVR of a batch left passed the buildroot check first |
| BatchInvariant.ContinueProgress | module_build_service/scheduler/batches.py:83-150 | continuing a batch never changes a complete component, changes tasks only in the current batch, and keeps tags and reuse marks |
| HandlerSteps.BuildEvolves | module_build_service/scheduler/handlers/components.py:66-176 | the end of a task makes only progress, in the current batch, whatever it reports and however late |
| HandlerSteps.RepoEvolves | module_build_service/scheduler/handlers/repos.py:34-142 | a repo message makes only progress, and leads to done only with everything complete |
| HandlerSteps.TagEvolves | module_build_service/scheduler/handlers/tags.py:43-85 | a tag message makes only progress |
| HandlerSteps.FailedEvolves | module_build_service/scheduler/handlers/modules.py:67-102 | failed makes only progress: no complete component is touched |
| HandlerAnswers.RepoAnswers | module_build_service/scheduler/handlers/repos.py:45-142 | exactly when a repo message raises, leaves the row alone, fails the build, goes on to the next batch or finishes the build, by the states and tags of the components |
| HandlerAnswers.RepoSparesRunningBatch | module_build_service/scheduler/handlers/repos.py:61-68 | while a component of the current batch is building, a repo message changes nothing and makes no call |
| HandlerAnswers.FinalizeAnswers | module_build_service/scheduler/handlers/components.py:66-176 | failed macros fail the build; an open batch is continued if something in it waits and left otherwise; a finished batch with a failed or canceled component fails the build without tagging; any other is tagged with exactly the NVRs it built, and those of the result for the result |
| HandlerAnswers.FinishedBatchFailsIff | module_build_service/scheduler/handlers/components.py:106-132 | a finished batch fails the build if and only if something in it failed or was canceled, and has tag calls if and only if nothing did and something is built |
| HandlerAnswers.TaggedAnswers | module_build_service/scheduler/handlers/tags.py:36-85 | the flag of the first component with that NVR is set; a repo is requested, and recorded, if and only if nothing in the batch is unbuilt, all that is built so far is tagged, something is left to build and no regeneration is active |
| HandlerAnswers.FailedAnswers | module_build_service/scheduler/handlers/modules.py:46-102 | exactly the tasks of unbuilt components and of the recorded regeneration are canceled, exactly the unbuilt components fail, and the failure is recorded at most once |
| HandlerAnswers.WaitAnswers | module_build_service/scheduler/handlers/modules.py:328-477 | missing dependencies fail the build; without components it is built at once; if everything is offered all of it is reused; otherwise batch 1 starts; the tag is set in all cases but the first |
| HandlerAnswers.StartAnswers | module_build_service/scheduler/handlers/modules.py:418-477 | the first row of module-build-macros is found or added in batch 1, left if complete, recovered if a build exists, submitted otherwise; a submission that raises fails the build without a repo, else a repo is requested and recorded |
| HandlerAnswers.ResubmitAnswers | module_build_service/web/submit.py:592-606 | a failed build has exactly its components that are neither waiting nor complete reset, and goes to init if it never got further and to wait in batch 0 otherwise |
| HandlerAnswers.PausedAnswers | module_build_service/scheduler/producer.py:175-212 | a build is advanced exactly in the build state, in a batch with nothing running, after a missed repo message and below the limit |
| HandlerAnswers.RetriggerAnswers | module_build_service/scheduler/producer.py:216-245 | a regeneration that ended badly is requested again, and the new one recorded, exactly in the build state |
| HandlerAnswers.CleanupAnswers | module_build_service/scheduler/producer.py:293-337 | exactly the complete components of a failed build lose both flags |
| EndToEnd.SubmittedOnBuiltGround | module_build_service/scheduler/batches.py:163-279 | in every run, when a component is submitted for a modulemd in which no RPM comes after an empty included one, every component of a smaller batch is complete, its NVR passed buildroot_ready earlier in this build round, and it is in the buildroot if the build is live |
| EndToEnd.BuildorderIsBuildOrder | module_build_service/scheduler/submit.py:428-495 | the same in terms of buildorder: in such a modulemd every RPM of the same level, included ones flattened, with a smaller buildorder is complete and passed the check |
| Example.RunsExist | module_build_service/scheduler/batches.py:153-279 | a concrete run without stale messages meets every assumption and reaches the submission of the first RPM in batch 2 |
| Concurrency.LimitHoldsInRuns | module_build_service/scheduler/batches.py:13-45 | in every run with a limit, the running builds of all modules together, without reused components and module-build-macros, never exceed it |
| Concurrency.OutcomeWithin | module_build_service/scheduler/batches.py:119-134 | every message either adds no running build or leaves all counted builds within the limit |
| Concurrency.WaitWithin | module_build_service/scheduler/handlers/modules.py:410-465 | wait adds no running build but module-build-macros |
| Concurrency.SubmitsWithinLimitIff | module_build_service/scheduler/batches.py:13-45 | where running builds that bear the mark of an earlier reuse are overlooked, one continuation keeps all that run within the limit if and only if the free slots are enough for all that is left to build, or none is overlooked and none of the heaviest components that fill the slots bears such a mark |
| Concurrency.MarkedAreAllSubmitted | module_build_service/scheduler/batches.py:119-134 | if all that is left to build bears such a mark, one free slot is enough for all of it to be submitted |
| ReuseMarks.RealLimitHoldsInRuns | module_build_service/scheduler/batches.py:13-45 | in every run with a limit, all builds that really run, of all module builds together and but for module-build-macros, stay within the limit, and the threshold overlooks none of them |
| ReuseMarks.ReusedIsNeverSubmitted | module_build_service/scheduler/batches.py:246-279 | in every run, nothing that was once reused is submitted to the build system, whatever failed, was canceled or was resubmitted in between |
| ReuseMarks.OffersRepeat | module_build_service/scheduler/reuse.py:270-449 | at any two moments of a run, a component of one module build is offered for reuse by another one that has components either both times or neither time |
| ReuseMarks.OnlyBatchTwoIsLookedUp | module_build_service/scheduler/batches.py:246-257 | under changed-and-after the look-up is made for batch 2 only, since the row of module-build-macros is never reused |
| Offers.OfferIsPlanned | module_build_service/scheduler/reuse.py:270-449 | what two module builds offer each other turns on their modulemds and the strategy alone, whatever was built or failed since planning |
| ReuseMarks.SubmitsWithinLimitInState | module_build_service/scheduler/batches.py:13-45 | the condition for one continuation in a state of the service, where what is overlooked is what bears the mark of a reuse and really runs |
| DoneGate.DoneIsCompleteAndTagged | module_build_service/scheduler/handlers/repos.py:110-142 | in every run a step to done finds every component complete, and tagged in the build tag and the final tag (or build-time only) if there was one build round |
| DoneGate.OnlyRepoDoneFinishes | module_build_service/scheduler/handlers/repos.py:110-142 | only a repo message, at the last gate, takes a build to done |
| DoneGate.FinishTaggedIff | module_build_service/scheduler/handlers/repos.py:51-59 | at the last gate everything is tagged if and only if what lies above the current batch is |
| Witnesses.DoneUntagged | module_build_service/scheduler/handlers/repos.py:51-142 | a concrete run, with a cancel and a resubmission, in which a repo message takes a build to done with an untagged component |
| DoneGate.RunsKeepOneRound | module_build_service/scheduler/handlers/modules.py:410-477 | in one build round nothing above the current batch was ever given a task |
| Repositories.AtMostOneActiveRegeneration | module_build_service/scheduler/handlers/tags.py:61-100 | in every run at most one of the repo regenerations requested since the last wait is active, and it is the recorded one |
| Repositories.OneActiveAcrossRoundsIff | module_build_service/scheduler/handlers/modules.py:466-474 | in every run, of all regenerations ever requested for a build only the recorded one is active, at all times up to t, if and only if no wait before t requested one while another was active |
| Repositories.WaitKeepsOneActiveIff | module_build_service/scheduler/handlers/modules.py:466-474 | a single wait leaves only the recorded regeneration active if and only if it requests none beside an active one |
| Witnesses.TwoRegenerations | module_build_service/scheduler/handlers/modules.py:466-474 | a concrete run in which a repeated wait message leaves two regenerations active |
| Repositories.TagRepoStep | module_build_service/scheduler/handlers/tags.py:61-75 | a tag message requests a regeneration only when the recorded one is not active, and records it |
| Repositories.RetriggerRepoStep | module_build_service/scheduler/producer.py:216-243 | the producer replaces a regeneration only when it ended, and records the new one |
| Repositories.TagOrderDoesNotMatter | module_build_service/scheduler/handlers/tags.py:46-51 | tag flags end up the same for every order and repetition of the same tag messages |
| Repositories.TagFlags | module_build_service/scheduler/handlers/tags.py:46-51 | after any tag messages a flag is set exactly if it was set or a message named the component, and nothing else changed |
| LifeCycle.TracesFollowEdgesIff | module_build_service/common/models.py:656-707 | in every run all changes in all traces are edges of the life cycle if and only if every message handled so far fitted: a wait came in state wait or could not start the build, and a done in state done or did not make it ready; each trace ends in the state |
| LifeCycle.FreshTracesFollowEdges | module_build_service/scheduler/handlers/modules.py:46-353 | in runs without stale wait and done messages all changes are edges; failed messages may be stale |
| LifeCycle.WaitIsLifeStepIff | module_build_service/scheduler/handlers/modules.py:328-477 | a wait message makes a change of the life cycle if and only if the build is in wait, or module-build-macros is needed, not built, not found and not submitted |
| LifeCycle.DoneIsLifeStepIff | module_build_service/scheduler/handlers/modules.py:107-141 | a done message does if and only if the build is done, is a scratch build or fails gating |
| LifeCycle.FailedIsLeftBy | module_build_service/web/submit.py:592-606 | failed is left for init or wait exactly by resubmission, for garbage exactly by cleanup, and otherwise exactly by a wait or done message that does not fit |
| LifeCycle.NeverBackToInit | module_build_service/common/models.py:473-477 | in every run a build that was in a state other than init and failed is never in init again |
| Reuse.ChangedAndAfterIsDownwardClosed | module_build_service/scheduler/reuse.py:323-449 | if a component of batch b is reusable then every component of batches 2 to b-1 is, and both builds hold the same names, refs and architectures in each of these batches |
| Reuse.NothingReusableAfterAChange | module_build_service/scheduler/reuse.py:360-433 | once a component of a batch is not reusable, nothing in a later batch is |
| Reuse.ReuseIsAllOrNothing | module_build_service/scheduler/reuse.py:182-226 | on failure no component and no batch number changed and nothing was tagged; on success every component but module-build-macros carries its own counterpart, the batch is the maximum, and exactly these NVRs are tagged |
| Reuse.LastReusedIsMaximum | module_build_service/scheduler/reuse.py:212-216 | the batch ends as the maximum of its old value and the batches of the reused components |
| Reuse.OfferedIff | module_build_service/scheduler/reuse.py:270-449 | exactly when a component is offered for reuse, when it is not, and when the look-up raises: strategy, batches, refs, macros, the components of all earlier batches, the architectures as sets, and one row of the name in the other build |
| Reuse.OfferedIsCounterpart | module_build_service/scheduler/reuse.py:335-449 | what is offered is the row of the same name and ref in the other build, and both modulemds build the RPM for the same architectures |
| Reuse.GetReusableComponent | module_build_service/scheduler/reuse.py:270-449 | the decision with its loop over the earlier batches returns the component, none, or the exception that the functional decision gives |
| ModuleBuilds.ModuleBuild.constructor | module_build_service/common/models.py:609-654 | a new row is in init, with init in its trace, in no batch and without components |
| ModuleBuilds.ModuleBuild.SelectComponents | module_build_service/scheduler/batches.py:120-134 | the loop marks and returns exactly the components of the functional selection |
| ModuleBuilds.ModuleBuild.RecoverOrphans | module_build_service/scheduler/batches.py:113-118 | the loop recovers exactly the waiting components that have an orphaned build |
| ModuleBuilds.ModuleBuild.ContinueBatchBuild | module_build_service/scheduler/batches.py:83-150 | the new row and the calls are those of the functional continuation, of the seeds or of what the batch still has to build |
| ModuleBuilds.ModuleBuild.ReuseComponents | module_build_service/scheduler/batches.py:258-270 | every reusable component of the batch is reused, and exactly the others are returned |
| ModuleBuilds.ModuleBuild.StartNextBatchBuild | module_build_service/scheduler/batches.py:153-279 | the recursion in place agrees with the functional one: same row, same calls, or the same exception with only the batch counter moved |
| ModuleBuilds.ModuleBuild.AttemptToReuseAllComponents | module_build_service/scheduler/reuse.py:173-226 | both loops together leave the row, the answer and the calls of the functional reuse |
| ModuleBuilds.ModuleBuild.HandleInit | module_build_service/scheduler/handlers/modules.py:146-242 | init plans the components and goes to wait, or leaves them alone and fails |
| ModuleBuilds.ModuleBuild.HandleWait | module_build_service/scheduler/handlers/modules.py:328-477 | wait in place agrees with the function: reuse, batch 1 and module-build-macros, the repo regeneration, or failure |
| ModuleBuilds.ModuleBuild.HandleFailed | module_build_service/scheduler/handlers/modules.py:46-102 | failed in place agrees with the function: tasks canceled, unbuilt components failed, at most one transition |
| ModuleBuilds.ModuleBuild.CancelUnbuilt | module_build_service/scheduler/handlers/modules.py:73-78 | the loop cancels exactly the tasks of unbuilt components, in row order, and marks these components as failed |
| ModuleBuilds.ModuleBuild.BuildTaskFinalize | module_build_service/scheduler/handlers/components.py:66-176 | the component is marked; the batch is failed, tagged, continued or left as the functional step says |
| ModuleBuilds.ModuleBuild.Tagged | module_build_service/scheduler/handlers/tags.py:28-85 | the flag of the component is set, and a regeneration requested and recorded as the functional step says |
| ModuleBuilds.ModuleBuild.RepoDone | module_build_service/scheduler/handlers/repos.py:20-142 | the gates in place agree with the functional ones, including the exception without a batch |
| ModuleBuilds.ModuleBuild.ProcessPaused | module_build_service/scheduler/producer.py:175-212 | a paused build is advanced under the conditions of the functional step |
| ModuleBuilds.ModuleBuild.CleanupStaleFailedBuild | module_build_service/scheduler/producer.py:293-337 | complete components of a failed build lose their tag flags, and the build goes to garbage |
| ModuleBuilds.ModuleBuild.PreviousNonFailedState | module_build_service/common/models.py:473-477 | the backward search finds the last state of the trace that is not failed |
| ModuleBuilds.ModuleBuild.ResubmitFailed | module_build_service/web/submit.py:592-606 | components that are neither waiting nor complete are reset, and the build returns to init or, with batch 0, to wait |
| ModuleBuilds.ModuleBuild.Process | module_build_service/scheduler/consumer.py:245-296 | any message handled in place has exactly the outcome of the step of the state machine |
| RpmSplit.FillInRpmsList | module_build_service/builder/KojiContentGenerator.py:496-649 | the loops compute the artifacts and the licenses of the functional split |
| RpmSplit.Group | module_build_service/builder/KojiContentGenerator.py:547-559 | the first loop separates debug RPMs, keeps the last source RPM of each name, and collects the binary names |
| RpmSplit.BinaryRpmsAreComplementary | module_build_service/builder/KojiContentGenerator.py:561-636 | a binary RPM that passes the architecture filters is in exactly one of the two lists, any other in neither |
| RpmSplit.SourceRpmsAreComplementaryIff | module_build_service/builder/KojiContentGenerator.py:551-636 | a source RPM is never in both lists, and in one of them if and only if it is the last of its name or an included RPM was built from it |
| RpmSplit.SourceRpmsAreComplementary | module_build_service/builder/KojiContentGenerator.py:551-636 | with one source RPM per name, every source RPM is in exactly one of the two lists |
| RpmSplit.FirstOfTwoSourcesIsLost | module_build_service/builder/KojiContentGenerator.py:551-559 | a concrete tag with two source RPMs of one name, of which the first is in neither list |
| RpmSplit.OrderDoesNotMatter | module_build_service/builder/KojiContentGenerator.py:551-636 | for a consistent tag both lists are the same for every order of the dictionary |
| RpmSplit.IncludedIff | module_build_service/builder/KojiContentGenerator.py:435-620 | exactly which RPMs of a consistent tag the module includes: of its components or whitelist, not filtered, of a right architecture and not excluded on it; a debug RPM beside that needs its main RPM listed or, where the tag has none, another included RPM of its source |
| RpmSplit.NormalArtifacts | module_build_service/builder/KojiContentGenerator.py:561-636 | the list of the module holds exactly the chosen RPMs and the source RPMs they were built from |
| RpmSplit.DevelArtifacts | module_build_service/builder/KojiContentGenerator.py:561-633 | the -devel list holds exactly the eligible RPMs that are not chosen and the source RPMs nothing chosen was built from |
| Dependencies.CompilationPreservesMeaning | module_build_service/web/mmd_resolver.py:118-199 | installed modules satisfy the compiled expression exactly when some dictionary has, for each name, one module of that name providing a listed stream in a fitting version |
| Dependencies.Deps2Reqs | module_build_service/web/mmd_resolver.py:118-199 | the three nested loops build the expression of the functional compilation |
| Dependencies.EntryDepMeans | module_build_service/web/mmd_resolver.py:134-193 | the expression of one name is satisfied exactly by one module of that name that provides a listed stream |
| Dependencies.DictsMean | module_build_service/web/mmd_resolver.py:126-199 | whenever compilation succeeds, the result is satisfied exactly by one of the non-empty dictionaries |
| Dependencies.CompilesIff | module_build_service/web/mmd_resolver.py:126-199 | compilation succeeds if and only if no empty dictionary comes after one that is not |
| Dependencies.MeaningKeptIff | module_build_service/web/mmd_resolver.py:126-199 | a non-empty list compiles to an expression satisfied exactly when some dictionary is met, whatever is installed, if and only if its dictionaries are all empty or none is |
| Dependencies.LeadingEmptyDictIsDropped | module_build_service/web/mmd_resolver.py:126-199 | a concrete list whose empty first dictionary is met by everything while the compiled expression is not |
| Dependencies.BaseModuleMeets | module_build_service/web/mmd_resolver.py:201-244 | a base module meets a versioned requirement exactly of its own and its virtual streams, in the version asked for or a later one as configured |
| Dependencies.UsableVersionIff | module_build_service/web/mmd_resolver.py:144-156 | a stream of sections x, y, z has a usable version if and only if its sections side by side make at least 100, and that is the version |
| LatestBuilds.LastBuildsAreGreatest | module_build_service/common/models.py:401-448 | exactly the admitted builds, in all contexts, whose version is the greatest admitted one of their stream are kept |
| LatestBuilds.AdmittedIff | module_build_service/common/models.py:350-427 | exactly which rows the query finds: ready ones of the name, from the major version of the limit up to the limit, with one of the virtual streams asked for |
| LatestBuilds.FirstSeen | module_build_service/common/models.py:431-448 | the one-pass loop with the seen map keeps exactly the builds of the greatest version of their name:stream |
| LatestBuilds.KojiBuildsAreLatest | module_build_service/resolver/KojiResolver.py:114-184 | exactly the builds of the greatest version are kept, of those in the topmost tag holding their name and normalised stream and of the requested real stream |
| LatestBuilds.InheritsIff | module_build_service/resolver/KojiResolver.py:18-152 | exactly which builds stay: of the normalised stream, of the real stream if they tell it, and with no build of their name and stream in a tag before theirs |
| LatestBuilds.FilterInherited | module_build_service/resolver/KojiResolver.py:18-62 | sorting, grouping and the search through the tags keep exactly the builds in the topmost tag of their name and stream |
| LatestBuilds.FirstVersions | module_build_service/resolver/KojiResolver.py:169-184 | sorting and grouping twice keeps exactly the builds of the greatest version of their name and stream |
| StreamVersions.VersionOfStream | module_build_service/common/models.py:877-921 | a digit-free prefix, up to three sections up to 99 and any ending give 10000x+100y+z when padded, and the unshifted sections when not |
| StreamVersions.GetStreamVersion | module_build_service/common/models.py:877-921 | the loop over the characters computes the functional stream version |
| StreamVersions.NoDigitsIsZero | module_build_service/common/models.py:888-911 | a stream without digits has version 0 plus its suffix |
| StreamVersions.SplitVersion | module_build_service/web/submit.py:482-490 | x, y and z are the digit groups of the version without its suffix, by Python floor division |
| StreamVersions.SplitRecovers | module_build_service/web/submit.py:482-490 | the split recovers the sections, whatever suffix below 1 was added |
| StreamVersions.OrderIsLexicographic | module_build_service/common/models.py:877-921 | the order of stream versions is the lexicographic order of their sections |
| StreamVersions.LteFilterIff | module_build_service/common/models.py:350-368 | the filter admits exactly the builds of the same major version that are not greater, if and only if the version asked for is not 0 |
| StreamVersions.PrefixedVersionIs | module_build_service/web/submit.py:89-107 | the result is p*10^digits(v)+v if that fits in 64 bits and v otherwise, so it never exceeds the bound when v does not |
| StreamVersions.PrefixedOrderIsLexicographic | module_build_service/web/submit.py:89-107 | among versions of one length that do not fall back, results are ordered by prefix, then version |
| ScratchContexts.NoTwoBuildsShareNsvcIff | module_build_service/web/submit.py:568-655 | over any sequence of submissions no two builds share name:stream:version:context if and only if no scratch submission found its next context taken by a normal build; the k-th scratch build of a context ends in _k |
| ScratchContexts.SubmitKeepsDistinctIff | module_build_service/web/submit.py:568-655 | one submission keeps all builds apart if and only if they were apart and it does not clash in this way |
| ScratchContexts.OneLengthNeverClashes | module_build_service/web/submit.py:568-655 | with contexts of one length nothing ever clashes |
| ScratchContexts.SubmitModuleBuilds | module_build_service/web/submit.py:568-655 | the loop over the submitted modulemds adds exactly the rows of the functional submission |
| ScratchContexts.MixedLengthsMayClash | module_build_service/web/submit.py:611-622 | two concrete submissions whose contexts differ in length and whose builds clash |

## Left out

- SelectionTheorems.SubmitAllTouchesChosen: the threads of the pool are a loop in selection order, and a failed submission fails the module build as intended although the code calls `transition` without its session argument.
- ModuleBuilds.ModuleBuild.HandleInit: validation, default modules, formatting, stream collisions and filters are one input that says whether they succeeded.
- ModuleBuilds.ModuleBuild.HandleWait: Koji tags, targets and repos are not set up; that dependencies are missing is an input.
- ModuleBuilds.ModuleBuild.HandleFailed: whether a state reason is set is an input; state reasons are not kept.
- ModuleBuilds.ModuleBuild.BuildTaskFinalize: RPM filters for build-only components are not added to the modulemd.
- The states in which a module build counts as stuck are the default ones; durations are not modelled.
- ModuleBuilds.ModuleBuild.Process: a handler is atomic, so commits in the middle of a handler that raises later are modelled only where they matter, for the batch number and for module-build-macros. A producer step that raises leaves the build as it was; what its session holds uncommitted afterwards is not modelled.
- Reuse.ReuseIsAllOrNothing: an exception of the comparison ends the handler; in the state machine that is the raising of a handler, and beside it the build may also go on as if nothing were found.
- Reuse.GetReusableComponent: the query that picks the module build to reuse from is an input; once one is picked it stays.
- Dependencies.CompilationPreservesMeaning: what the solver does with a missing operand is an error here, and versions are compared as numbers.
- Dependencies.UsableVersionIff: streams for which a suffix is configured are not covered; their version stays an input of the compilation.
- StreamVersions.GetStreamVersion: versions are exact reals instead of floats, digits are those of ASCII, and the configured suffix is an input.
- ScratchContexts.NoTwoBuildsShareNsvcIff: contexts are taken not to hold the wildcards of the database's pattern match.
- LatestBuilds.KojiBuildsAreLatest: releases are taken as a number and a context, written without leading zeros.
- Rows of component builds are values in a sequence of the module build's row; two references to one row do not occur.
- fail_lost_builds and sync_koji_build_tags add no step of their own: they deliver the task and tag messages that are modelled as late ones. A closed task with no build or with several builds is not modelled.
- Messages scheduled by handlers for themselves are messages that may come at any time.
- The solver itself and the text of its problems, Koji, Mock, DNF, source control, HTTP and mail are not part of this model.
- Views, authorisation, pagination, JSON, configuration, logging, metrics, migrations and spec files are not part of this model.
- Expansion of streams and requires between modules (module_build_service/web/mse.py) is not part of this model; its recursion keeps no set of visited modules.
- Weights are given; how they are measured from earlier builds is not modelled.
- Builds with Mock or for local use, where the threshold and the repo messages differ, are not modelled.
