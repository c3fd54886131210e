/**
 The rows the service keeps (module_build_service/common/models.py) as values:
 module builds, their component builds, and the modulemd tree a build is made from.
 */
module Records {
  import opened Wrappers

  type TaskId = nat
  type Nvr = string

  /** The one package that is not in the modulemd: it always is batch 1. */
  const MACROS := "module-build-macros"

  /** Module build states. */
  datatype Lifecycle = Init | Wait | Build | Done | Failed | Ready | Garbage

  /** Component build states; NotSubmitted is a state of None in the database. */
  datatype ComponentState = NotSubmitted | Building | Complete | FailedBuild | Canceled

  datatype Strategy = All | ChangedAndAfter | OnlyChanged

  /** An RPM entry of a modulemd, or a reference to another modulemd that is included. */
  datatype Entry =
    | Rpm(
        name: string, order: int, url: string, ref: Option<string>, weight: real, buildonly: bool,
        arches: seq<string> := [])
    | Included(order: int, mmd: ModuleMd)

  /** RPM entries precede included modules, as record_component_builds lists them; `macros` is in the build options. */
  datatype ModuleMd = ModuleMd(entries: seq<Entry>, macros: Option<string> := None)

  datatype Component = Component(
    id: nat,
    package: string,
    url: string,
    ref: Option<string>,
    batch: nat,
    weight: real,
    buildonly: bool,
    buildTimeOnly: bool,
    state: ComponentState,
    task: Option<TaskId>,
    nvr: Option<Nvr>,
    tagged: bool,
    taggedInFinal: bool,
    reused: Option<nat>)
  {
    predicate IsCompleted() { state == Complete }
    predicate IsBuilding() { state == Building }
    predicate IsFailed() { state == FailedBuild }
    predicate IsWaitingForBuild() { state == NotSubmitted }
    predicate IsUnbuilt() { IsWaitingForBuild() || IsBuilding() }
    predicate IsUnsuccessful() { state == FailedBuild || state == Canceled }
    predicate IsTagged() { tagged && (taggedInFinal || buildTimeOnly) }
    predicate IsMacros() { package == MACROS }
    /** What continue_batch_build picks: a canceled component counts as not yet built. */
    predicate IsCandidate() { !IsCompleted() && !IsBuilding() && !IsFailed() }
  }

  datatype Module = Module(
    mmd: ModuleMd,
    strategy: Strategy,
    scratch: bool,
    state: Lifecycle,
    trace: seq<Lifecycle>,
    batch: nat,
    components: seq<Component>,
    newRepo: Option<TaskId>,
    kojiTag: bool,
    reusedModule: Option<nat>)
  {
    /** ModuleBuild.transition: the new state is recorded in the trace, even when it is the old one. */
    function Transition(s: Lifecycle): Module {
      this.(state := s, trace := trace + [s])
    }

    predicate AnyUnbuilt() { exists i :: 0 <= i < |components| && components[i].IsUnbuilt() }

    predicate AnyUnsuccessful() { exists i :: 0 <= i < |components| && components[i].IsUnsuccessful() }

    predicate InBatch(i: nat) { i < |components| && components[i].batch == batch }

    predicate AnyWaitingInBatch() {
      exists i :: 0 <= i < |components| && InBatch(i) && components[i].IsWaitingForBuild()
    }

    predicate AnyBuildingInBatch() {
      exists i :: 0 <= i < |components| && InBatch(i) && components[i].IsBuilding()
    }

    predicate AnyUnsuccessfulInBatch() {
      exists i :: 0 <= i < |components| && InBatch(i) && components[i].IsUnsuccessful()
    }

    predicate AnyCompletedInBatch() {
      exists i :: 0 <= i < |components| && InBatch(i) && components[i].IsCompleted()
    }

    predicate AllInBatchWaiting() {
      forall i :: 0 <= i < |components| && InBatch(i) ==> components[i].IsWaitingForBuild()
    }

    /** Some component up to the current batch is built but not tagged everywhere it belongs. */
    predicate AnyUntaggedSoFar() {
      exists i :: 0 <= i < |components| && components[i].batch <= batch
        && components[i].IsCompleted() && !components[i].IsTagged()
    }

    predicate BatchEmpty() { forall i :: 0 <= i < |components| ==> !InBatch(i) }
  }

  /** The trace grew by failures only, if at all, and the state says so. */
  predicate FailsOnly(m: Module, m': Module) {
    && |m.trace| <= |m'.trace| && m'.trace[..|m.trace|] == m.trace
    && (forall j :: |m.trace| <= j < |m'.trace| ==> m'.trace[j] == Lifecycle.Failed)
    && m'.state == if |m'.trace| == |m.trace| then m.state else Lifecycle.Failed
  }

  /** Requests a handler makes to the build system, in the order it makes them. */
  datatype Call =
    | Submit(index: nat)                                   // builder.build of component `index`
    | Advance(artifacts: seq<Option<Nvr>>)                 // buildroot_ready passed, batch incremented
    | AddToBuildroot(nvrs: seq<Option<Nvr>>, install: bool)
    | TagFinal(nvrs: seq<Option<Nvr>>)
    | NewRepo(task: TaskId)
    | Cancel(task: TaskId)

  datatype Outcome = Outcome(m: Module, calls: seq<Call>)

  datatype PyError =
    | NoBatchInProgress | RecursionLimit | PlanningError | BuilderRaised | NoSuchRpmComponent | NotExactlyOneRow

  /** What builder.build returns, or that it raised. */
  datatype SubmitAnswer = Raised | Answer(task: Option<TaskId>, state: ComponentState, nvr: Option<Nvr>)

  /** What builder.build answers when it talks to Koji: a running build, or a failure without a task. */
  predicate KojiAnswer(a: SubmitAnswer) {
    a == Raised || (a.nvr == None && (a.state == Building || (a.state == FailedBuild && a.task == None)))
  }

  /** A build found in Koji for a component MBS has no task for. */
  datatype Orphan = Orphan(task: TaskId, nvr: Nvr)

  /** The answers of the build system and of the database queries during one handler. */
  datatype Builder = Builder(
    submit: nat -> SubmitAnswer,
    orphan: nat -> Option<Orphan>,
    activeTasks: bool,
    ready: seq<Option<Nvr>> -> bool,
    taskActive: TaskId -> bool,
    newRepoTask: TaskId,
    previous: Option<nat>,
    reusable: nat -> Option<Component>)

  /** limit = num_concurrent_builds, depth = the interpreter's recursion limit. */
  datatype Config = Config(limit: nat, depth: nat)

  /** NVRs of the components of batch `b`, in row order. */
  function Artifacts(cs: seq<Component>, b: nat): seq<Option<Nvr>> {
    if cs == [] then []
    else (if cs[0].batch == b then [cs[0].nvr] else []) + Artifacts(cs[1..], b)
  }

  /** NVRs of the completed components of batch `b`, in row order. */
  function CompletedArtifacts(cs: seq<Component>, b: nat): seq<Option<Nvr>> {
    if cs == [] then []
    else (if cs[0].batch == b && cs[0].IsCompleted() then [cs[0].nvr] else [])
         + CompletedArtifacts(cs[1..], b)
  }

  /** Those of them that also go to the destination tag. */
  function FinalArtifacts(cs: seq<Component>, b: nat): seq<Option<Nvr>> {
    if cs == [] then []
    else (if cs[0].batch == b && cs[0].IsCompleted() && !cs[0].buildTimeOnly then [cs[0].nvr] else [])
         + FinalArtifacts(cs[1..], b)
  }

  /** Indices from `k` on of the components of batch `b` that are still to be built, in row order. */
  function Candidates(cs: seq<Component>, b: nat, k: nat := 0): (r: seq<nat>)
    requires k <= |cs|
    ensures Indices(r, |cs|)
    ensures forall i :: i in r <==> k <= i < |cs| && cs[i].batch == b && cs[i].IsCandidate()
    decreases |cs| - k
  {
    if k == |cs| then []
    else (if cs[k].batch == b && cs[k].IsCandidate() then [k] else []) + Candidates(cs, b, k + 1)
  }

  /** The number of running builds; reused components are not counted by the threshold. */
  function CountBuilding(cs: seq<Component>, withMacros: bool): nat {
    if cs == [] then 0
    else (if cs[0].IsBuilding() && cs[0].reused == None && (withMacros || !cs[0].IsMacros()) then 1 else 0)
         + CountBuilding(cs[1..], withMacros)
  }

  /** Every element of `order` is an index below `n`. */
  predicate Indices(order: seq<nat>, n: nat) {
    forall k :: 0 <= k < |order| ==> order[k] < n
  }

  predicate AtThreshold(cfg: Config, others: nat, cs: seq<Component>) {
    cfg.limit != 0 && cfg.limit <= others + CountBuilding(cs, true)
  }
}
