/**
 The whole service as a step machine: all module builds, Koji, and the events that reach the service.
 Handlers run one after the other; messages may be late, repeated or stale.
 */
module World {
  import opened Wrappers
  import opened Records
  import opened Batches
  import opened Handlers
  import Planning
  import Lookups = Reuse

  datatype TaskStatus = Active | Closed(nvr: Nvr) | TaskFailed | TaskCanceled

  /** Koji: what it says of its tasks, and the builds in the buildroot of each module build. */
  datatype Koji = Koji(tasks: map<TaskId, TaskStatus>, buildroot: map<nat, set<Nvr>>)

  function Buildroot(k: Koji, id: nat): set<Nvr> {
    if id in k.buildroot then k.buildroot[id] else {}
  }

  predicate IsActive(k: Koji, t: TaskId) {
    t in k.tasks && k.tasks[t] == Active
  }

  /**
   What is remembered about a module build beside its row, to state properties of runs:
   the NVRs that passed buildroot_ready at a batch advance since the last `wait`,
   the repo regenerations requested since then, and how often a build round was started.
   */
  datatype History = History(passed: set<Nvr>, repos: set<TaskId>, rounds: nat)

  datatype Record = Record(m: Module, h: History)

  /** Module builds are identified by their position. */
  datatype State = State(records: seq<Record>, koji: Koji)

  /** What makes the service act on one module build. */
  datatype Message =
    | InitMessage(valid: bool)
    | WaitMessage(depsFound: bool, b: Builder)
    | FailedMessage(reasonGiven: bool)
    | DoneMessage(gating: bool)
    | BuildMessage(index: nat, task: TaskId, state: ComponentState, nvr: Nvr, b: Builder)
    | TagMessage(buildTag: bool, nvr: Nvr, b: Builder)
    | RepoMessage(b: Builder)
    | PausedTick(missed: bool, b: Builder)
    | RetriggerTick(taskFailed: bool, b: Builder)
    | CleanupTick
    | StuckTick
    | CancelRequest
    | ResubmitRequest
    | HandlerRaised

  datatype Event =
    | SubmitModule(mmd: ModuleMd, strategy: Strategy, scratch: bool, reusedModule: Option<nat>)
    | KojiMoves
    | Handle(id: nat, msg: Message)

  // ---- one step ----

  function Count(records: seq<Record>, withMacros: bool): nat {
    if records == [] then 0
    else CountBuilding(records[0].m.components, withMacros) + Count(records[1..], withMacros)
  }

  /** What the threshold query counts in the other module builds. */
  function Others(records: seq<Record>, id: nat): nat
    requires id < |records|
  {
    Count(records[..id], true) + Count(records[id + 1..], true)
  }

  function NvrsOf(artifacts: seq<Option<Nvr>>): set<Nvr> {
    set a | a in artifacts && a.Some? :: a.value
  }

  function PassedNvrs(calls: seq<Call>): set<Nvr> {
    if calls == [] then {}
    else (if calls[0].Advance? then NvrsOf(calls[0].artifacts) else {}) + PassedNvrs(calls[1..])
  }

  function RequestedRepos(calls: seq<Call>): set<TaskId> {
    if calls == [] then {}
    else (if calls[0].NewRepo? then {calls[0].task} else {}) + RequestedRepos(calls[1..])
  }

  function Remember(h: History, calls: seq<Call>): History {
    h.(passed := h.passed + PassedNvrs(calls), repos := h.repos + RequestedRepos(calls))
  }

  /** A handler that raises is rolled back, and the consumer fails the build. */
  function Settle(r: Record, result: Result<Outcome, PyError>): Outcome {
    match result
    case Success(outcome) => outcome
    case Failure(_) => Outcome(r.m.Transition(Lifecycle.Failed), [])
  }

  /** A producer step that raises commits nothing, and nobody fails the build. */
  function Abandon(r: Record, result: Result<Outcome, PyError>): Outcome {
    match result
    case Success(outcome) => outcome
    case Failure(_) => Outcome(r.m, [])
  }

  /** repos.done and tags.tagged only find module builds in the build state. */
  function OutcomeOf(r: Record, msg: Message, cfg: Config, others: nat): Outcome {
    match msg
    case InitMessage(valid) => Outcome(InitHandler(r.m, valid), [])
    case WaitMessage(depsFound, b) => WaitHandler(r.m, depsFound, b)
    case FailedMessage(reasonGiven) => FailedHandler(r.m, reasonGiven)
    case DoneMessage(gating) => Outcome(DoneHandler(r.m, gating), [])
    case BuildMessage(i, _, state, nvr, b) =>
      if i < |r.m.components| then BuildTaskFinalize(r.m, i, state, nvr, cfg, others, b) else Outcome(r.m, [])
    case TagMessage(buildTag, nvr, b) =>
      if r.m.state == Lifecycle.Build then Tagged(r.m, buildTag, nvr, b) else Outcome(r.m, [])
    case RepoMessage(b) =>
      if r.m.state == Lifecycle.Build then Settle(r, RepoDone(r.m, cfg, others, b)) else Outcome(r.m, [])
    case PausedTick(missed, b) => Abandon(r, ProcessPaused(r.m, missed, cfg, others, b))
    case RetriggerTick(taskFailed, b) => RetriggerNewRepo(r.m, taskFailed, b)
    case CleanupTick => Outcome(CleanupStale(r.m), [])
    case StuckTick => Outcome(CancelStuck(r.m), [])
    case CancelRequest => Outcome(UserCancel(r.m), [])
    case ResubmitRequest => Outcome(Resubmit(r.m), [])
    case HandlerRaised => Outcome(r.m.Transition(Lifecycle.Failed), [])
  }

  /** A build round starts with `wait`, and with a resubmission that goes back to `wait`. */
  function HistoryBefore(r: Record, msg: Message, m': Module): History {
    if msg.WaitMessage? && msg.depsFound then History({}, {}, r.h.rounds + 1)
    else if msg.ResubmitRequest? && r.m.state == Lifecycle.Failed then
      History({}, r.h.repos, if m'.state == Wait then r.h.rounds + 1 else r.h.rounds)
    else r.h
  }

  function StepRecord(r: Record, msg: Message, cfg: Config, others: nat): Record {
    var out := OutcomeOf(r, msg, cfg, others);
    Record(out.m, Remember(HistoryBefore(r, msg, out.m), out.calls))
  }

  function Step(s: State, e: Event, cfg: Config, koji: Koji): State {
    match e
    case KojiMoves => s.(koji := koji)
    case SubmitModule(mmd, strategy, scratch, reusedModule) =>
      State(s.records + [Record(NewModule(mmd, strategy, scratch, reusedModule), History({}, {}, 0))], koji)
    case Handle(id, msg) =>
      if id >= |s.records| then s.(koji := koji)
      else State(s.records[id := StepRecord(s.records[id], msg, cfg, Others(s.records, id))], koji)
  }

  // ---- what Koji and the message bus are assumed to do ----

  predicate Live(m: Module) {
    m.state != Lifecycle.Failed && m.state != Garbage
  }

  /** A task that ended stays as it ended; the buildroot of a live module build only grows. */
  ghost predicate KojiEvolves(s: State, k: Koji) {
    && (forall t :: t in s.koji.tasks ==> t in k.tasks && (s.koji.tasks[t] != Active ==> k.tasks[t] == s.koji.tasks[t]))
    && (forall id :: 0 <= id < |s.records| && Live(s.records[id].m) ==> Buildroot(s.koji, id) <= Buildroot(k, id))
  }

  /** get_reusable_module: the module build that was chosen once, or one that is ready. */
  predicate MayReuseFrom(s: State, m: Module, previous: Option<nat>) {
    && (m.reusedModule.Some? ==> previous == m.reusedModule)
    && (previous.Some? ==> previous.value < |s.records|)
    && (previous.Some? && m.reusedModule == None ==> s.records[previous.value].m.state == Ready)
  }

  /** get_reusable_component for every component, on the rows of both module builds. */
  ghost predicate LooksUp(s: State, m: Module, b: Builder) {
    && MayReuseFrom(s, m, b.previous)
    && (b.previous.Some? ==>
         forall i :: 0 <= i < |m.components| ==> b.reusable(i) == Lookups.Offer(m, s.records[b.previous.value].m, i))
  }

  /** The answers of the builder are those of Koji in state `k`, and look-ups those of the database. */
  ghost predicate Answers(s: State, id: nat, b: Builder, k: Koji)
    requires id < |s.records|
  {
    && (forall i :: KojiAnswer(b.submit(i)))
    && (forall i :: b.orphan(i).Some? ==>
         b.orphan(i).value.task in k.tasks && k.tasks[b.orphan(i).value.task] == Closed(b.orphan(i).value.nvr))
    && (forall a :: b.ready(a) ==> NvrsOf(a) <= Buildroot(k, id))
    && (forall t :: b.taskActive(t) <==> IsActive(k, t)) && b.newRepoTask in k.tasks
    && LooksUp(s, s.records[id].m, b)
  }

  /** A message about a task reports how that task ended. */
  predicate Truthful(k: Koji, task: TaskId, state: ComponentState, nvr: Nvr) {
    && task in k.tasks
    && (state == Complete || state == FailedBuild || state == Canceled)
    && (state == Complete ==> k.tasks[task] == Closed(nvr))
    && (state != Complete ==> k.tasks[task] == TaskFailed || k.tasks[task] == TaskCanceled)
  }

  predicate NoRpmNamedMacros(md: ModuleMd) {
    var r := Planning.RecordComponentBuilds(md, []);
    r.Success? ==> forall i :: 0 <= i < |r.value.rows| ==> !r.value.rows[i].IsMacros()
  }

  ghost predicate AllowedMessage(s: State, id: nat, msg: Message, k: Koji)
    requires id < |s.records|
  {
    var m := s.records[id].m;
    match msg
    case DoneMessage(_) => Lifecycle.Done in m.trace
    case WaitMessage(_, b) => Answers(s, id, b, k)
    case BuildMessage(i, task, state, nvr, b) =>
      Answers(s, id, b, k) && Truthful(k, task, state, nvr)
      && (i < |m.components| ==> m.components[i].task == Some(task))
    case TagMessage(_, _, b) => Answers(s, id, b, k)
    case RepoMessage(b) => Answers(s, id, b, k)
    case PausedTick(_, b) => Answers(s, id, b, k)
    case RetriggerTick(taskFailed, b) =>
      Answers(s, id, b, k)
      && (taskFailed && m.newRepo.Some? ==> m.newRepo.value in k.tasks && !IsActive(k, m.newRepo.value))
    case _ => true
  }

  /**
   The events considered. All messages may be stale; a `done` message is only sent for a module build that
   once was done. A submitted modulemd brings no RPM named module-build-macros.
   */
  ghost predicate Allowed(s: State, e: Event, k: Koji) {
    && KojiEvolves(s, k)
    && match e
       case SubmitModule(mmd, _, _, previous) =>
         NoRpmNamedMacros(mmd)
         && (previous.Some? ==> previous.value < |s.records| && s.records[previous.value].m.state == Ready)
       case KojiMoves => true
       case Handle(id, msg) => id < |s.records| ==> AllowedMessage(s, id, msg, k)
  }

  /** A message that may start or finish a build is fresh when the record is in the state it announces. */
  predicate FreshMessage(m: Module, msg: Message) {
    (msg.WaitMessage? && msg.depsFound ==> m.state == Wait) && (msg.DoneMessage? ==> m.state == Lifecycle.Done)
  }

  predicate FreshEvent(s: State, e: Event) {
    e.Handle? && e.id < |s.records| ==> FreshMessage(s.records[e.id].m, e.msg)
  }

  // ---- runs ----

  function Start(): State {
    State([], Koji(map[], map[]))
  }

  /** An event, the state Koji is in when it is handled, and the calls made to the builder meanwhile. */
  datatype Happening = Happening(e: Event, koji: Koji, calls: seq<Call>)

  function CallsOf(s: State, e: Event, cfg: Config): seq<Call> {
    if e.Handle? && e.id < |s.records| then OutcomeOf(s.records[e.id], e.msg, cfg, Others(s.records, e.id)).calls
    else []
  }

  /** A run: what happened, and the states before, between and after. */
  datatype Run = Run(states: seq<State>, events: seq<Happening>)

  ghost predicate Happens(run: Run, t: nat, cfg: Config)
    requires |run.states| == |run.events| + 1 && t < |run.events|
  {
    && Allowed(run.states[t], run.events[t].e, run.events[t].koji)
    && run.states[t + 1] == Step(run.states[t], run.events[t].e, cfg, run.events[t].koji)
    && run.events[t].calls == CallsOf(run.states[t], run.events[t].e, cfg)
  }

  ghost predicate IsRun(run: Run, cfg: Config) {
    && |run.states| == |run.events| + 1 && run.states[0] == Start()
    && forall t :: 0 <= t < |run.events| ==> Happens(run, t, cfg)
  }

  /** A run in which no `wait` or `done` message is stale; `failed` messages may be. */
  ghost predicate IsFreshRun(run: Run, cfg: Config) {
    IsRun(run, cfg) && forall t :: 0 <= t < |run.events| ==> FreshEvent(run.states[t], run.events[t].e)
  }

  /** At step `t` of the run the service handles the message for module build `id`. */
  ghost predicate HandlesAt(run: Run, cfg: Config, t: nat, id: nat, msg: Message) {
    && IsRun(run, cfg) && t < |run.events|
    && run.events[t].e == Handle(id, msg) && id < |run.states[t].records|
  }
}
