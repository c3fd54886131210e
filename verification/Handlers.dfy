/**
 The message handlers, the producer's steps and resubmission, as functions on the row of one module
 build. A handler that raises leaves the row to the consumer, which fails the build.
 */
module Handlers {
  import opened Wrappers
  import opened Records
  import opened Batches
  import Planning

  // ---- reuse.py: attempt_to_reuse_all_components ----

  /** Some component that would have to be reused cannot be. */
  predicate AnyNotReusable(cs: seq<Component>, b: Builder) {
    exists i :: 0 <= i < |cs| && !cs[i].IsMacros() && b.reusable(i) == None
  }

  function ReuseEvery(cs: seq<Component>, b: Builder): (r: seq<Component>)
    requires !AnyNotReusable(cs, b)
    ensures |r| == |cs|
  {
    seq(|cs|, i requires 0 <= i < |cs| =>
      if cs[i].IsMacros() then cs[i] else Reuse(cs[i], b.reusable(i).value, true))
  }

  /** The batch counter moves up to the last batch that holds a reused component. */
  function LastReusedBatch(cs: seq<Component>, batch: nat): nat {
    if cs == [] then batch
    else LastReusedBatch(cs[1..], if !cs[0].IsMacros() && cs[0].batch > batch then cs[0].batch else batch)
  }

  function ReusedNvrs(cs: seq<Component>): seq<Option<Nvr>> {
    if cs == [] then []
    else (if cs[0].IsMacros() then [] else [cs[0].nvr]) + ReusedNvrs(cs[1..])
  }

  datatype Attempt = Attempt(reused: bool, outcome: Outcome)

  function ReuseAll(m: Module, b: Builder): Attempt {
    if b.previous == None then Attempt(false, Outcome(m, []))
    else
      var chosen := m.(reusedModule := b.previous);
      if AnyNotReusable(m.components, b) then Attempt(false, Outcome(chosen, []))
      else
        var cs := ReuseEvery(m.components, b);
        Attempt(true, Outcome(
          chosen.(components := cs, batch := LastReusedBatch(m.components, m.batch)),
          [AddToBuildroot(ReusedNvrs(cs), false), TagFinal(ReusedNvrs(cs))]))
  }

  // ---- handlers/modules.py ----

  /** init: plan the components, or fail the build with nothing recorded. */
  function InitHandler(m: Module, valid: bool): Module {
    if m.state != Init then m
    else
      var planned := Planning.RecordComponentBuilds(m.mmd, m.components);
      if valid && planned.Success?
      then m.(components := planned.value.rows).Transition(Wait)
      else m.Transition(Lifecycle.Failed)
  }

  function MacrosRow(id: nat): Component {
    Component(id, MACROS, "srpm", None, 1, 0.0, false, true, NotSubmitted, None, None, false, false, None)
  }

  /** wait finds the row of module-build-macros, or adds one in batch 1. */
  function WithMacros(cs: seq<Component>): (r: seq<Component>)
    ensures |r| >= |cs| && Planning.Find(r, MACROS).Some?
  {
    if Planning.Find(cs, MACROS).Some? then cs
    else
      var r := cs + [MacrosRow(|cs|)];
      assert r[|cs|].package == MACROS;
      r
  }

  function MacrosIndex(cs: seq<Component>): (i: nat)
    requires Planning.Find(cs, MACROS).Some?
    ensures i < |cs| && cs[i].IsMacros()
  {
    Planning.Find(cs, MACROS).value
  }

  /** The row of module-build-macros once it is recovered or submitted, unless it is built already. */
  function MacrosAfter(c: Component, found: Option<Orphan>, answer: SubmitAnswer): Result<Component, PyError> {
    if c.IsCompleted() then Success(c)
    else if found.Some? then
      Success(c.(state := Complete, task := Some(found.value.task), nvr := Some(found.value.nvr)))
    else match answer
      case Raised => Failure(BuilderRaised)
      case Answer(task, state, nvr) => Success(c.(task := task, state := state, nvr := nvr))
  }

  /** No threshold applies to module-build-macros. */
  function SubmitMacros(m: Module, b: Builder): Result<Outcome, PyError>
    requires Planning.Find(m.components, MACROS).Some?
  {
    var i := MacrosIndex(m.components);
    var c := m.components[i];
    match MacrosAfter(c, b.orphan(i), b.submit(i))
    case Failure(e) => Failure(e)
    case Success(d) =>
      Success(Outcome(m.(components := m.components[i := d]),
                      if c.IsCompleted() || b.orphan(i).Some? then [] else [Call.Submit(i)]))
  }

  /** The part of wait that starts batch 1. */
  function StartBuild(m: Module, b: Builder): Outcome {
    var started := m.(batch := 1, components := WithMacros(m.components));
    match SubmitMacros(started, b)
    case Failure(_) => Outcome(started.Transition(Lifecycle.Failed), [])
    case Success(r) =>
      Outcome(
        r.m.Transition(Lifecycle.Build).(newRepo := Some(b.newRepoTask)),
        r.calls + [NewRepo(b.newRepoTask)])
  }

  /** wait */
  function WaitHandler(m: Module, depsFound: bool, b: Builder): Outcome {
    if !depsFound then Outcome(m.Transition(Lifecycle.Failed).Transition(Lifecycle.Failed), [])
    else
      var tagged := m.(kojiTag := true);
      if m.components == [] then Outcome(tagged.Transition(Lifecycle.Build), [])
      else
        var attempt := ReuseAll(tagged, b);
        if attempt.reused then Outcome(attempt.outcome.m.Transition(Lifecycle.Build), attempt.outcome.calls)
        else StartBuild(attempt.outcome.m, b)
  }

  /** failed marks what is unbuilt as failed; the tasks are canceled. */
  function FailUnbuilt(cs: seq<Component>): (r: seq<Component>)
    ensures |r| == |cs|
  {
    seq(|cs|, i requires 0 <= i < |cs| => if cs[i].IsUnbuilt() then cs[i].(state := FailedBuild) else cs[i])
  }

  function CancelCalls(cs: seq<Component>): seq<Call> {
    if cs == [] then []
    else (if cs[0].IsUnbuilt() && cs[0].task.Some? then [Cancel(cs[0].task.value)] else []) + CancelCalls(cs[1..])
  }

  function FailOnce(m: Module): Module {
    if m.state != Lifecycle.Failed then m.Transition(Lifecycle.Failed) else m
  }

  /** failed; `reasonGiven` says whether state_reason is set. */
  function FailedHandler(m: Module, reasonGiven: bool): Outcome {
    if m.kojiTag then
      Outcome(
        FailOnce(m.(components := FailUnbuilt(m.components))),
        (if m.newRepo.Some? then [Cancel(m.newRepo.value)] else []) + CancelCalls(m.components))
    else if !reasonGiven then Outcome(m.Transition(Lifecycle.Failed), [])
    else Outcome(FailOnce(m), [])
  }

  /** done; gating is the answer of Greenwave. */
  function DoneHandler(m: Module, gating: bool): Module {
    if !m.scratch && gating then m.Transition(Ready) else m
  }

  // ---- handlers/components.py ----

  /** What the end of a task means for the current batch, once component `c` is marked with its new state. */
  datatype FinalizeDecision = FailModule | NothingToTag | TagBatch | BuildOn | StillBuilding

  function DecideFinalize(marked: Module, c: Component): FinalizeDecision {
    if c.IsMacros() && !c.IsCompleted() then FailModule
    else if marked.batch == 0 then FailModule
    else if marked.AnyWaitingInBatch() then BuildOn
    else if marked.AnyBuildingInBatch() then StillBuilding
    else if marked.AnyUnsuccessfulInBatch() then FailModule
    else if !marked.AnyCompletedInBatch() then NothingToTag
    else TagBatch
  }

  function TagCalls(m: Module, install: bool): seq<Call> {
    var final := FinalArtifacts(m.components, m.batch);
    [AddToBuildroot(CompletedArtifacts(m.components, m.batch), install)] + if final == [] then [] else [TagFinal(final)]
  }

  function MarkBuilt(m: Module, i: nat, state: ComponentState, nvr: Nvr): Module
    requires i < |m.components|
  {
    m.(components := m.components[i := m.components[i].(state := state, nvr := Some(nvr))])
  }

  /** build_task_finalize for component `i`. */
  function BuildTaskFinalize(
    m: Module, i: nat, state: ComponentState, nvr: Nvr, cfg: Config, others: nat, b: Builder): Outcome
    requires i < |m.components|
  {
    var marked := MarkBuilt(m, i, state, nvr);
    match DecideFinalize(marked, marked.components[i])
    case FailModule => Outcome(marked.Transition(Lifecycle.Failed), [])
    case NothingToTag => Outcome(marked, [])
    case TagBatch => Outcome(marked, TagCalls(marked, marked.components[i].buildTimeOnly))
    case BuildOn => ContinueBatch(marked, cfg, others, b)
    case StillBuilding => Outcome(marked, [])
  }

  // ---- handlers/tags.py ----

  function FindNvr(cs: seq<Component>, nvr: Nvr): (r: Option<nat>)
    ensures r.Some? ==> r.value < |cs| && cs[r.value].nvr == Some(nvr)
    ensures r == None <==> forall i :: 0 <= i < |cs| ==> cs[i].nvr != Some(nvr)
  {
    if cs == [] then None
    else if cs[0].nvr == Some(nvr) then Some(0)
    else
      var r := FindNvr(cs[1..], nvr);
      assert forall i :: 1 <= i < |cs| ==> cs[i] == cs[1..][i - 1];
      if r.Some? then Some(r.value + 1) else None
  }

  function MarkTagged(c: Component, buildTag: bool): Component {
    if buildTag then c.(tagged := true) else c.(taggedInFinal := true)
  }

  /** _is_new_repo_generating */
  predicate RepoGenerating(m: Module, b: Builder) {
    m.newRepo.Some? && b.taskActive(m.newRepo.value)
  }

  function MarkTag(m: Module, i: nat, buildTag: bool): Module
    requires i < |m.components|
  {
    m.(components := m.components[i := MarkTagged(m.components[i], buildTag)])
  }

  /** Everything so far is tagged, something is left to build, and no repo is being regenerated. */
  predicate NeedsNewRepo(marked: Module, b: Builder) {
    && !marked.AnyWaitingInBatch() && !marked.AnyBuildingInBatch() && !marked.AnyUntaggedSoFar()
    && marked.AnyUnbuilt() && !RepoGenerating(marked, b)
  }

  /** tagged, for a module in the build state. */
  function Tagged(m: Module, buildTag: bool, nvr: Nvr, b: Builder): Outcome {
    var found := FindNvr(m.components, nvr);
    if found == None then Outcome(m, [])
    else
      var marked := MarkTag(m, found.value, buildTag);
      if m.batch == 0 then Outcome(marked.Transition(Lifecycle.Failed), [])
      else if NeedsNewRepo(marked, b) then Outcome(marked.(newRepo := Some(b.newRepoTask)), [NewRepo(b.newRepoTask)])
      else Outcome(marked, [])
  }

  // ---- handlers/repos.py ----

  datatype RepoDecision = Ignore | NoBatchYet | AllFailed | TryNextBatch | SomeFailed | Finish

  function DecideRepo(m: Module, b: Builder): RepoDecision {
    if m.components != [] && m.batch == 0 then NoBatchYet
    else if m.components != [] && !m.BatchEmpty() && (m.AnyUntaggedSoFar() || m.AllInBatchWaiting()) then Ignore
    else if m.AnyBuildingInBatch() then Ignore
    else if m.components != [] && !m.AnyCompletedInBatch() then AllFailed
    else if m.AnyUnbuilt() && !m.AnyUnsuccessful() then
      if b.ready(CompletedArtifacts(m.components, m.batch)) then TryNextBatch else Ignore
    else if m.AnyUnsuccessful() then SomeFailed
    else Finish
  }

  /** repos.done, for a module in the build state. */
  function RepoDone(m: Module, cfg: Config, others: nat, b: Builder): Result<Outcome, PyError> {
    match DecideRepo(m, b)
    case Ignore => Success(Outcome(m, []))
    case NoBatchYet => Failure(NoBatchInProgress)
    case AllFailed => Success(Outcome(m.Transition(Lifecycle.Failed), []))
    case TryNextBatch => StartNext(m, cfg, others, b, cfg.depth)
    case SomeFailed => Success(Outcome(m.Transition(Lifecycle.Failed), []))
    case Finish => Success(Outcome(m.Transition(Lifecycle.Done), []))
  }

  // ---- producer.py ----

  /** process_paused_module_builds, for one module that has been idle; `missed` is has_missed_new_repo_message. */
  function ProcessPaused(m: Module, missed: bool, cfg: Config, others: nat, b: Builder): Result<Outcome, PyError> {
    if m.state == Lifecycle.Build && m.batch > 0 && !m.AnyBuildingInBatch() && missed
       && !AtThreshold(cfg, others, m.components)
    then StartNext(m, cfg, others, b, cfg.depth)
    else Success(Outcome(m, []))
  }

  /** retrigger_new_repo_on_failure, when the task of the module failed or was canceled. */
  function RetriggerNewRepo(m: Module, taskFailed: bool, b: Builder): Outcome {
    if m.state == Lifecycle.Build && m.newRepo.Some? && taskFailed
    then Outcome(m.(newRepo := Some(b.newRepoTask)), [NewRepo(b.newRepoTask)])
    else Outcome(m, [])
  }

  function Untag(cs: seq<Component>): (r: seq<Component>)
    ensures |r| == |cs|
  {
    seq(|cs|, i requires 0 <= i < |cs| =>
      if cs[i].IsCompleted() then cs[i].(tagged := false, taggedInFinal := false) else cs[i])
  }

  /** cleanup_stale_failed_builds */
  function CleanupStale(m: Module): Module {
    if m.state != Lifecycle.Failed then m else m.(components := Untag(m.components)).Transition(Garbage)
  }

  /** cancel_stuck_module_builds with its default states, and the cancel request of a user. */
  function CancelStuck(m: Module): Module {
    if m.state == Init || m.state == Lifecycle.Build then m.Transition(Lifecycle.Failed) else m
  }

  function UserCancel(m: Module): Module {
    if m.state == Init || m.state == Wait || m.state == Lifecycle.Build then m.Transition(Lifecycle.Failed) else m
  }

  // ---- web/submit.py: resubmission of a failed build ----

  /** The last state in the trace that is not failed. */
  function PreviousNonFailed(trace: seq<Lifecycle>): Option<Lifecycle>
    decreases |trace|
  {
    if trace == [] then None
    else if trace[|trace| - 1] != Lifecycle.Failed then Some(trace[|trace| - 1])
    else PreviousNonFailed(trace[..|trace| - 1])
  }

  function ResetIncomplete(cs: seq<Component>): (r: seq<Component>)
    ensures |r| == |cs|
  {
    seq(|cs|, i requires 0 <= i < |cs| =>
      if !cs[i].IsWaitingForBuild() && !cs[i].IsCompleted() then cs[i].(state := NotSubmitted) else cs[i])
  }

  function Resubmit(m: Module): Module {
    if m.state != Lifecycle.Failed then m
    else
      var reset := m.(components := ResetIncomplete(m.components));
      if PreviousNonFailed(m.trace) == Some(Init) then reset.Transition(Init)
      else reset.(batch := 0).Transition(Wait)
  }

  /** ModuleBuild.create */
  function NewModule(mmd: ModuleMd, strategy: Strategy, scratch: bool, reusedModule: Option<nat>): Module {
    Module(mmd, strategy, scratch, Init, [Init], 0, [], None, false, reusedModule)
  }
}
