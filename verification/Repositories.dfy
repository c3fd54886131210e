/** Repo regenerations and tag messages of one module build. */
module Repositories {
  import opened Wrappers
  import opened Records
  import opened Batches
  import opened Handlers
  import opened SkipRecursion
  import opened World
  import opened BatchInvariant
  import opened HandlerSteps
  import opened WorldInvariant

  /** Of the regenerations requested in this build round, only the recorded one can be active. */
  predicate RepoInv(r: Record, k: Koji) {
    && (forall t :: t in r.h.repos ==> t in k.tasks)
    && (forall t :: t in r.h.repos && IsActive(k, t) ==> r.m.newRepo == Some(t))
  }

  predicate AllRepoInv(s: State) {
    forall id :: 0 <= id < |s.records| ==> RepoInv(s.records[id], s.koji)
  }

  lemma RepoInvLater(r: Record, s: State, k: Koji)
    requires RepoInv(r, s.koji) && KojiEvolves(s, k)
    ensures RepoInv(r, k)
  {
    forall t | t in r.h.repos && IsActive(k, t) ensures r.m.newRepo == Some(t) {
      assert IsActive(s.koji, t);
    }
  }

  lemma {:induction false} NothingRequested(calls: seq<Call>)
    requires forall c :: c in calls ==> !c.NewRepo?
    ensures RequestedRepos(calls) == {}
  {
    if calls != [] {
      assert calls[0] in calls;
      NothingRequested(calls[1..]);
    }
  }

  lemma {:induction false} RequestedConcat(a: seq<Call>, b: seq<Call>)
    ensures RequestedRepos(a + b) == RequestedRepos(a) + RequestedRepos(b)
  {
    if a == [] {
      assert a + b == b;
    } else {
      assert (a + b)[1..] == a[1..] + b;
      RequestedConcat(a[1..], b);
    }
  }

  /** A handler leaves the recorded regeneration alone, or replaces one that is not active by a new one. */
  predicate RepoStep(m: Module, out: Outcome, k: Koji) {
    || (RequestedRepos(out.calls) == {} && out.m.newRepo == m.newRepo)
    || (out.m.newRepo.Some? && RequestedRepos(out.calls) == {out.m.newRepo.value} && out.m.newRepo.value in k.tasks
        && (m.newRepo.Some? ==> !IsActive(k, m.newRepo.value)))
  }

  lemma RepoStepKeepsInv(r: Record, out: Outcome, k: Koji)
    requires RepoInv(r, k) && RepoStep(r.m, out, k)
    ensures RepoInv(Record(out.m, Remember(r.h, out.calls)), k)
  {}

  lemma OneRequest(m: Module, m': Module, b: Builder, k: Koji)
    requires m'.newRepo == Some(b.newRepoTask) && b.newRepoTask in k.tasks
    requires m.newRepo.Some? ==> !IsActive(k, m.newRepo.value)
    ensures RepoStep(m, Outcome(m', [NewRepo(b.newRepoTask)]), k)
  {
    assert RequestedRepos([NewRepo(b.newRepoTask)]) == {b.newRepoTask};
  }

  lemma {:induction false} SubmissionsRequestNothing(chosen: seq<nat>)
    ensures RequestedRepos(SubmitCalls(chosen)) == {}
  {
    if chosen != [] { SubmissionsRequestNothing(chosen[1..]); }
  }

  lemma ContinueRequestsNothing(m: Module, seeds: seq<nat>, cfg: Config, others: nat, b: Builder)
    requires Indices(seeds, |m.components|)
    ensures RequestedRepos(Continue(m, seeds, cfg, others, b).calls) == {}
  {
    var order := SortByWeight(m.components, seeds);
    SubmissionsRequestNothing(Select(Recover(m.components, order, b), order, cfg, others).chosen);
  }

  lemma FinalizeRequestsNothing(m: Module, i: nat, state: ComponentState, nvr: Nvr, cfg: Config, others: nat, b: Builder)
    requires i < |m.components|
    ensures RequestedRepos(BuildTaskFinalize(m, i, state, nvr, cfg, others, b).calls) == {}
  {
    var marked := MarkBuilt(m, i, state, nvr);
    if DecideFinalize(marked, marked.components[i]) == BuildOn {
      ContinueRequestsNothing(marked, Candidates(marked.components, marked.batch), cfg, others, b);
    } else {
      NothingRequested(BuildTaskFinalize(m, i, state, nvr, cfg, others, b).calls);
    }
  }

  lemma SettleRequestsNothing(r: Record, cfg: Config, others: nat, b: Builder, k: Koji, root: set<Nvr>)
    requires AllBacked(r.m.components, k) && Sound(b, k)
    requires Readies(b, root)
    ensures RequestedRepos(Settle(r, StartNext(r.m, cfg, others, b, cfg.depth)).calls) == {}
  {
    var next := StartNext(r.m, cfg, others, b, cfg.depth);
    if next.Success? {
      StartNextAdvances(r.m, cfg, others, b, cfg.depth, k, root, next.value);
      NothingRequested(next.value.calls);
    }
  }

  lemma CancelRequestsNothing(m: Module, reasonGiven: bool)
    ensures RequestedRepos(FailedHandler(m, reasonGiven).calls) == {}
  {
    CancelOnly(m.components);
    NothingRequested(FailedHandler(m, reasonGiven).calls);
  }

  lemma TagRepoStep(m: Module, buildTag: bool, nvr: Nvr, b: Builder, k: Koji)
    requires (forall t :: b.taskActive(t) <==> IsActive(k, t)) && b.newRepoTask in k.tasks
    ensures RepoStep(m, Tagged(m, buildTag, nvr, b), k)
  {
    var found := FindNvr(m.components, nvr);
    if found.Some? && m.batch != 0 && NeedsNewRepo(MarkTag(m, found.value, buildTag), b) {
      OneRequest(m, Tagged(m, buildTag, nvr, b).m, b, k);
    }
  }

  lemma SettleRepoStep(r: Record, cfg: Config, others: nat, b: Builder, k: Koji, root: set<Nvr>)
    requires AllBacked(r.m.components, k) && Sound(b, k)
    requires Readies(b, root)
    ensures RepoStep(r.m, Settle(r, StartNext(r.m, cfg, others, b, cfg.depth)), k)
  {
    SettleRequestsNothing(r, cfg, others, b, k, root);
    SettleSpares(r, cfg, others, b);
  }

  lemma FinalizeRepoStep(
    m: Module, i: nat, state: ComponentState, nvr: Nvr, cfg: Config, others: nat, b: Builder, k: Koji)
    requires i < |m.components|
    ensures RepoStep(m, BuildTaskFinalize(m, i, state, nvr, cfg, others, b), k)
  {
    FinalizeRequestsNothing(m, i, state, nvr, cfg, others, b);
    FinalizeSpares(m, i, state, nvr, cfg, others, b);
  }

  lemma RetriggerRepoStep(m: Module, taskFailed: bool, b: Builder, k: Koji)
    requires b.newRepoTask in k.tasks && (taskFailed && m.newRepo.Some? ==> !IsActive(k, m.newRepo.value))
    ensures RepoStep(m, RetriggerNewRepo(m, taskFailed, b), k)
  {
    if m.state == Lifecycle.Build && m.newRepo.Some? && taskFailed {
      OneRequest(m, RetriggerNewRepo(m, taskFailed, b).m, b, k);
    }
  }

  /** The messages on which a batch may go on. */
  lemma BatchRepoStep(r: Record, msg: Message, cfg: Config, others: nat, k: Koji, root: set<Nvr>)
    requires AllBacked(r.m.components, k)
    requires msg.BuildMessage? || msg.RepoMessage? || msg.PausedTick?
    requires Sound(msg.b, k) && Readies(msg.b, root)
    ensures RepoStep(r.m, OutcomeOf(r, msg, cfg, others), k)
  {
    match msg
    case BuildMessage(i, _, state, nvr, b) =>
      if i < |r.m.components| { FinalizeRepoStep(r.m, i, state, nvr, cfg, others, b, k); }
    case RepoMessage(b) => RepoDoneRepoStep(r, cfg, others, b, k, root);
    case PausedTick(missed, b) => PausedRepoStep(r, missed, cfg, others, b, k, root);
  }

  lemma RepoDoneRepoStep(r: Record, cfg: Config, others: nat, b: Builder, k: Koji, root: set<Nvr>)
    requires AllBacked(r.m.components, k)
    requires Sound(b, k) && Readies(b, root)
    ensures RepoStep(r.m, Settle(r, RepoDone(r.m, cfg, others, b)), k)
  {
    if DecideRepo(r.m, b) == TryNextBatch { SettleRepoStep(r, cfg, others, b, k, root); }
  }

  lemma PausedRepoStep(r: Record, missed: bool, cfg: Config, others: nat, b: Builder, k: Koji, root: set<Nvr>)
    requires AllBacked(r.m.components, k)
    requires Sound(b, k) && Readies(b, root)
    ensures RepoStep(r.m, Abandon(r, ProcessPaused(r.m, missed, cfg, others, b)), k)
  {
    SettleRepoStep(r, cfg, others, b, k, root);
  }

  lemma QuietRepoStep(r: Record, msg: Message, cfg: Config, others: nat, k: Koji)
    requires BuilderOf(msg) == None
    ensures RepoStep(r.m, OutcomeOf(r, msg, cfg, others), k)
  {
    if msg.FailedMessage? { CancelRequestsNothing(r.m, msg.reasonGiven); }
  }

  lemma MessageRepoStep(s: State, id: nat, msg: Message, cfg: Config, others: nat, k: Koji)
    requires id < |s.records| && StateInv(s) && KojiEvolves(s, k) && AllowedMessage(s, id, msg, k)
    requires !msg.WaitMessage?
    ensures RepoStep(s.records[id].m, OutcomeOf(s.records[id], msg, cfg, others), k)
  {
    var r := s.records[id];
    if BuilderOf(msg) == None {
      QuietRepoStep(r, msg, cfg, others, k);
    } else if msg.TagMessage? {
      TagRepoStep(r.m, msg.buildTag, msg.nvr, msg.b, k);
    } else if msg.RetriggerTick? {
      RetriggerRepoStep(r.m, msg.taskFailed, msg.b, k);
    } else {
      BackedLater(r.m.components, s, k);
      BatchRepoStep(r, msg, cfg, others, k, Buildroot(k, id));
    }
  }

  /** `wait` starts a round with no regeneration, or with the one it requests and records. */
  lemma WaitRequests(m: Module, depsFound: bool, b: Builder)
    ensures var out := WaitHandler(m, depsFound, b);
      || RequestedRepos(out.calls) == {}
      || (RequestedRepos(out.calls) == {b.newRepoTask} && out.m.newRepo == Some(b.newRepoTask))
    ensures !depsFound ==> RequestedRepos(WaitHandler(m, depsFound, b).calls) == {}
  {
    var out := WaitHandler(m, depsFound, b);
    if out.calls != [] && out.calls[|out.calls| - 1].NewRepo? {
      RequestedConcat(out.calls[..|out.calls| - 1], [NewRepo(b.newRepoTask)]);
      NothingRequested(out.calls[..|out.calls| - 1]);
      assert out.calls == out.calls[..|out.calls| - 1] + [NewRepo(b.newRepoTask)];
    } else {
      NothingRequested(out.calls);
    }
  }

  lemma WaitKeepsRepoInv(r: Record, depsFound: bool, b: Builder, cfg: Config, others: nat, k: Koji)
    requires RepoInv(r, k) && b.newRepoTask in k.tasks
    ensures RepoInv(StepRecord(r, WaitMessage(depsFound, b), cfg, others), k)
  {
    WaitRequests(r.m, depsFound, b);
    if !depsFound { assert WaitHandler(r.m, depsFound, b).m.newRepo == r.m.newRepo; }
  }

  lemma StepKeepsRepoInv(s: State, id: nat, msg: Message, cfg: Config, others: nat, k: Koji)
    requires id < |s.records| && StateInv(s) && KojiEvolves(s, k) && AllowedMessage(s, id, msg, k)
    requires RepoInv(s.records[id], s.koji)
    ensures RepoInv(StepRecord(s.records[id], msg, cfg, others), k)
  {
    var r := s.records[id];
    RepoInvLater(r, s, k);
    if msg.WaitMessage? {
      WaitKeepsRepoInv(r, msg.depsFound, msg.b, cfg, others, k);
    } else {
      MessageRepoStep(s, id, msg, cfg, others, k);
      RepoStepKeepsInv(Record(r.m, HistoryBefore(r, msg, OutcomeOf(r, msg, cfg, others).m)),
                       OutcomeOf(r, msg, cfg, others), k);
    }
  }

  lemma EventKeepsRepoInv(s: State, e: Event, cfg: Config, k: Koji)
    requires StateInv(s) && Allowed(s, e, k) && AllRepoInv(s)
    ensures AllRepoInv(Step(s, e, cfg, k))
  {
    forall id | 0 <= id < |s.records| ensures RepoInv(s.records[id], k) { RepoInvLater(s.records[id], s, k); }
    match e
    case Handle(id, msg) =>
      if id < |s.records| { StepKeepsRepoInv(s, id, msg, cfg, Others(s.records, id), k); }
    case _ =>
  }

  lemma {:induction false} RunsKeepRepoInv(run: Run, cfg: Config, t: nat)
    requires IsRun(run, cfg) && t < |run.states|
    ensures AllRepoInv(run.states[t])
  {
    if t > 0 {
      RunsKeepRepoInv(run, cfg, t - 1);
      StepOfRun(run, cfg, t - 1);
      EventKeepsRepoInv(run.states[t - 1], run.events[t - 1].e, cfg, run.events[t - 1].koji);
    }
  }

  /**
   In every run, of the repo regenerations requested for a module build since its last `wait`, at most
   one is active in Koji, and it is the one recorded in the row.
   */
  lemma AtMostOneActiveRegeneration(run: Run, cfg: Config, t: nat, id: nat, x: TaskId, y: TaskId)
    requires IsRun(run, cfg) && t < |run.states| && id < |run.states[t].records|
    requires x in run.states[t].records[id].h.repos && y in run.states[t].records[id].h.repos
    requires IsActive(run.states[t].koji, x) && IsActive(run.states[t].koji, y)
    ensures x == y && run.states[t].records[id].m.newRepo == Some(x)
  {
    RunsKeepRepoInv(run, cfg, t);
    assert RepoInv(run.states[t].records[id], run.states[t].koji);
  }

  // ---- across build rounds ----

  /** Every regeneration the handlers requested for module build `id` before time `t`, in whatever round. */
  function EverRequested(run: Run, id: nat, t: nat): set<TaskId>
    requires t <= |run.events|
  {
    if t == 0 then {} else EverRequested(run, id, t - 1) + RequestedAt(run, id, t - 1)
  }

  function RequestedAt(run: Run, id: nat, t: nat): set<TaskId>
    requires t < |run.events|
  {
    var h := run.events[t];
    if h.e.Handle? && h.e.id == id then RequestedRepos(h.calls) else {}
  }

  /** Of these, only the recorded one is active. */
  predicate OnlyRecordedActive(m: Module, ever: set<TaskId>, k: Koji) {
    forall x :: x in ever && IsActive(k, x) ==> m.newRepo == Some(x)
  }

  /** `wait` requests a regeneration while another one is active. */
  predicate RequestsBeside(requested: set<TaskId>, ever: set<TaskId>, k: Koji) {
    requested != {} && exists x :: x in ever && x !in requested && IsActive(k, x)
  }

  predicate WaitClashesAt(run: Run, id: nat, t: nat)
    requires t < |run.events|
  {
    var h := run.events[t];
    h.e.Handle? && h.e.id == id && h.e.msg.WaitMessage?
    && RequestsBeside(RequestedAt(run, id, t), EverRequested(run, id, t), h.koji)
  }

  /** The rows as RepoInv sees them when nothing requested is ever forgotten. */
  function Unforgetting(m: Module, ever: set<TaskId>): Record {
    Record(m, History({}, ever, 0))
  }

  lemma WaitKeepsRecorded(m: Module, depsFound: bool, b: Builder)
    ensures var out := WaitHandler(m, depsFound, b); RequestedRepos(out.calls) == {} ==> out.m.newRepo == m.newRepo
  {
    WaitRequestsWhenItRecords(m, depsFound, b);
  }

  lemma WaitRequestsWhenItRecords(m: Module, depsFound: bool, b: Builder)
    ensures var out := WaitHandler(m, depsFound, b);
      out.m.newRepo == m.newRepo || (out.calls != [] && out.calls[|out.calls| - 1] == NewRepo(b.newRepoTask))
    ensures var out := WaitHandler(m, depsFound, b);
      out.calls != [] && out.calls[|out.calls| - 1].NewRepo? ==> RequestedRepos(out.calls) != {}
  {
    var out := WaitHandler(m, depsFound, b);
    if out.calls != [] && out.calls[|out.calls| - 1].NewRepo? { LastIsRequested(out.calls); }
  }

  lemma {:induction false} LastIsRequested(calls: seq<Call>)
    requires calls != [] && calls[|calls| - 1].NewRepo?
    ensures calls[|calls| - 1].task in RequestedRepos(calls)
  {
    if |calls| > 1 {
      assert calls[1..][|calls| - 2] == calls[|calls| - 1];
      LastIsRequested(calls[1..]);
    }
  }

  /** A `wait` leaves no second regeneration active if and only if it requests none beside an active one. */
  lemma WaitKeepsOneActiveIff(m: Module, depsFound: bool, b: Builder, ever: set<TaskId>, k: Koji)
    requires RepoInv(Unforgetting(m, ever), k) && b.newRepoTask in k.tasks
    ensures var out := WaitHandler(m, depsFound, b);
      && (forall x :: x in ever + RequestedRepos(out.calls) ==> x in k.tasks)
      && (OnlyRecordedActive(out.m, ever + RequestedRepos(out.calls), k)
          <==> !RequestsBeside(RequestedRepos(out.calls), ever, k))
  {
    WaitRequests(m, depsFound, b);
    WaitKeepsRecorded(m, depsFound, b);
    var out := WaitHandler(m, depsFound, b);
    var all := ever + RequestedRepos(out.calls);
    if RequestsBeside(RequestedRepos(out.calls), ever, k) {
      var x :| x in ever && x !in RequestedRepos(out.calls) && IsActive(k, x);
      assert x in all && out.m.newRepo != Some(x);
    } else {
      forall x | x in all && IsActive(k, x) ensures out.m.newRepo == Some(x) {
        if x !in RequestedRepos(out.calls) { assert x in Unforgetting(m, ever).h.repos; }
      }
    }
  }

  lemma OtherMessageKeepsOneActive(s: State, id: nat, msg: Message, cfg: Config, ever: set<TaskId>, k: Koji)
    requires id < |s.records| && StateInv(s) && KojiEvolves(s, k) && AllowedMessage(s, id, msg, k)
    requires !msg.WaitMessage? && RepoInv(Unforgetting(s.records[id].m, ever), k)
    ensures var out := OutcomeOf(s.records[id], msg, cfg, Others(s.records, id));
      RepoInv(Unforgetting(out.m, ever + RequestedRepos(out.calls)), k)
  {
    var out := OutcomeOf(s.records[id], msg, cfg, Others(s.records, id));
    MessageRepoStep(s, id, msg, cfg, Others(s.records, id), k);
    RepoStepKeepsInv(Unforgetting(s.records[id].m, ever), out, k);
  }

  lemma {:induction false} NothingRequestedYet(run: Run, cfg: Config, id: nat, t: nat)
    requires IsRun(run, cfg) && t < |run.states| && id >= |run.states[t].records|
    ensures EverRequested(run, id, t) == {}
  {
    if t > 0 {
      assert Happens(run, t - 1, cfg);
      NothingRequestedYet(run, cfg, id, t - 1);
    }
  }

  /** What holds of module build `id` at time `t`, if it exists by then. */
  predicate OneActiveAt(run: Run, id: nat, t: nat)
    requires |run.states| == |run.events| + 1 && t < |run.states|
  {
    id < |run.states[t].records| ==>
      OnlyRecordedActive(run.states[t].records[id].m, EverRequested(run, id, t), run.states[t].koji)
  }

  predicate AllKnownAt(run: Run, id: nat, t: nat)
    requires |run.states| == |run.events| + 1 && t < |run.states|
  {
    forall x :: x in EverRequested(run, id, t) ==> x in run.states[t].koji.tasks
  }

  lemma KnownLater(run: Run, cfg: Config, id: nat, t: nat)
    requires IsRun(run, cfg) && t < |run.events| && OneActiveAt(run, id, t) && AllKnownAt(run, id, t)
    requires id < |run.states[t].records|
    ensures RepoInv(Unforgetting(run.states[t].records[id].m, EverRequested(run, id, t)), run.events[t].koji)
  {
    assert Happens(run, t, cfg);
    RepoInvLater(Unforgetting(run.states[t].records[id].m, EverRequested(run, id, t)), run.states[t], run.events[t].koji);
  }

  /** The step of the run at which the message is for this module build. */
  lemma HandledKeepsOneActiveIff(run: Run, cfg: Config, id: nat, t: nat)
    requires IsRun(run, cfg) && t < |run.events| && OneActiveAt(run, id, t) && AllKnownAt(run, id, t)
    requires id < |run.states[t].records| && run.events[t].e.Handle? && run.events[t].e.id == id
    ensures AllKnownAt(run, id, t + 1)
    ensures OneActiveAt(run, id, t + 1) <==> !WaitClashesAt(run, id, t)
  {
    StepOfRun(run, cfg, t);
    assert Happens(run, t, cfg);
    KnownLater(run, cfg, id, t);
    var s, k, msg, ever := run.states[t], run.events[t].koji, run.events[t].e.msg, EverRequested(run, id, t);
    if msg.WaitMessage? {
      WaitKeepsOneActiveIff(s.records[id].m, msg.depsFound, msg.b, ever, k);
    } else {
      OtherMessageKeepsOneActive(s, id, msg, cfg, ever, k);
    }
  }

  lemma OtherStepKeepsOneActive(run: Run, cfg: Config, id: nat, t: nat)
    requires IsRun(run, cfg) && t < |run.events| && OneActiveAt(run, id, t) && AllKnownAt(run, id, t)
    requires !(id < |run.states[t].records| && run.events[t].e.Handle? && run.events[t].e.id == id)
    ensures AllKnownAt(run, id, t + 1) && OneActiveAt(run, id, t + 1) && !WaitClashesAt(run, id, t)
  {
    assert Happens(run, t, cfg);
    if id < |run.states[t].records| {
      KnownLater(run, cfg, id, t);
    } else {
      NothingRequestedYet(run, cfg, id, t);
    }
  }

  lemma StepKeepsOneActiveIff(run: Run, cfg: Config, id: nat, t: nat)
    requires IsRun(run, cfg) && t < |run.events| && OneActiveAt(run, id, t) && AllKnownAt(run, id, t)
    ensures AllKnownAt(run, id, t + 1)
    ensures OneActiveAt(run, id, t + 1) <==> !WaitClashesAt(run, id, t)
  {
    if id < |run.states[t].records| && run.events[t].e.Handle? && run.events[t].e.id == id {
      HandledKeepsOneActiveIff(run, cfg, id, t);
    } else {
      OtherStepKeepsOneActive(run, cfg, id, t);
    }
  }

  predicate OneActiveUpTo(run: Run, id: nat, t: nat)
    requires |run.states| == |run.events| + 1 && t < |run.states|
  {
    forall u :: 0 <= u <= t ==> OneActiveAt(run, id, u)
  }

  predicate NoClashBefore(run: Run, id: nat, t: nat)
    requires t <= |run.events|
  {
    forall u :: 0 <= u < t ==> !WaitClashesAt(run, id, u)
  }

  /**
   Across all build rounds: in every run, of all the regenerations ever requested for a module build only
   the recorded one is active, at all times up to `t`, if and only if no `wait` before `t` requested one
   while another was active.
   */
  lemma {:induction false} OneActiveAcrossRoundsIff(run: Run, cfg: Config, id: nat, t: nat)
    requires IsRun(run, cfg) && t < |run.states|
    ensures OneActiveUpTo(run, id, t) <==> NoClashBefore(run, id, t)
    ensures OneActiveUpTo(run, id, t) ==> AllKnownAt(run, id, t)
  {
    if t > 0 {
      OneActiveAcrossRoundsIff(run, cfg, id, t - 1);
      assert OneActiveUpTo(run, id, t) <==> OneActiveUpTo(run, id, t - 1) && OneActiveAt(run, id, t);
      assert NoClashBefore(run, id, t) <==> NoClashBefore(run, id, t - 1) && !WaitClashesAt(run, id, t - 1);
      if OneActiveUpTo(run, id, t - 1) {
        assert OneActiveAt(run, id, t - 1);
        StepKeepsOneActiveIff(run, cfg, id, t - 1);
      }
    }
  }

  // ---- tag messages ----

  /** A tag message for a module build: which of its tags, which build, and the builder's answers meanwhile. */
  datatype TagEvent = TagEvent(buildTag: bool, nvr: Nvr, b: Builder)

  /** Several tag messages, handled one after the other; only a module build in the build state is found by its tag. */
  function HandleTags(m: Module, events: seq<TagEvent>): Module
    decreases |events|
  {
    if events == [] || m.state != Lifecycle.Build then m
    else HandleTags(Tagged(m, events[0].buildTag, events[0].nvr, events[0].b).m, events[1..])
  }

  /** Some message names component `i` in that tag. */
  predicate Names(events: seq<TagEvent>, cs: seq<Component>, buildTag: bool, i: nat) {
    exists n :: 0 <= n < |events| && events[n].buildTag == buildTag && FindNvr(cs, events[n].nvr) == Some(i)
  }

  lemma {:induction false} FindNvrSees(cs: seq<Component>, ds: seq<Component>, nvr: Nvr)
    requires |cs| == |ds| && forall i :: 0 <= i < |cs| ==> ds[i].nvr == cs[i].nvr
    ensures FindNvr(ds, nvr) == FindNvr(cs, nvr)
  {
    if cs != [] {
      assert forall i :: 0 <= i < |cs[1..]| ==> cs[1..][i] == cs[i + 1] && ds[1..][i] == ds[i + 1];
      FindNvrSees(cs[1..], ds[1..], nvr);
    }
  }

  lemma TaggedMarks(m: Module, e: TagEvent)
    ensures var m', found := Tagged(m, e.buildTag, e.nvr, e.b).m, FindNvr(m.components, e.nvr);
      && m'.components == (if found == None then m.components else MarkTag(m, found.value, e.buildTag).components)
      && m'.batch == m.batch && (m.batch > 0 ==> m'.state == m.state)
  {}

  /** What one tag message does to component `i`. */
  lemma OneTag(m: Module, e: TagEvent, i: nat)
    requires i < |m.components|
    ensures var m' := Tagged(m, e.buildTag, e.nvr, e.b).m;
      && |m'.components| == |m.components| && m'.batch == m.batch && (m.batch > 0 ==> m'.state == m.state)
      && m'.components[i] == if FindNvr(m.components, e.nvr) == Some(i) then MarkTagged(m.components[i], e.buildTag)
                             else m.components[i]
  {
    TaggedMarks(m, e);
  }

  /** After any sequence of tag messages a flag is set if it was set, or some message named the component. */
  lemma {:induction false} TagFlags(m: Module, events: seq<TagEvent>, i: nat)
    requires i < |m.components| && m.state == Lifecycle.Build && m.batch > 0
    ensures var c, d := m.components[i], HandleTags(m, events).components;
      && |d| == |m.components|
      && d[i] == c.(tagged := c.tagged || Names(events, m.components, true, i),
                    taggedInFinal := c.taggedInFinal || Names(events, m.components, false, i))
    decreases |events|
  {
    if events != [] {
      var m' := Tagged(m, events[0].buildTag, events[0].nvr, events[0].b).m;
      OneTag(m, events[0], i);
      TagFlags(m', events[1..], i);
      forall j | 0 <= j < |m.components| ensures m'.components[j].nvr == m.components[j].nvr {
        OneTag(m, events[0], j);
      }
      forall buildTag ensures Names(events, m.components, buildTag, i) <==>
        (events[0].buildTag == buildTag && FindNvr(m.components, events[0].nvr) == Some(i))
        || Names(events[1..], m'.components, buildTag, i)
      {
        NamesSplits(m.components, m'.components, events, buildTag, i);
      }
    }
  }

  lemma NamesSplits(cs: seq<Component>, ds: seq<Component>, events: seq<TagEvent>, buildTag: bool, i: nat)
    requires events != [] && |cs| == |ds| && forall j :: 0 <= j < |cs| ==> ds[j].nvr == cs[j].nvr
    ensures Names(events, cs, buildTag, i) <==>
      (events[0].buildTag == buildTag && FindNvr(cs, events[0].nvr) == Some(i)) || Names(events[1..], ds, buildTag, i)
  {
    forall n | 0 <= n < |events| ensures FindNvr(ds, events[n].nvr) == FindNvr(cs, events[n].nvr) {
      FindNvrSees(cs, ds, events[n].nvr);
    }
    if Names(events, cs, buildTag, i) {
      var n :| 0 <= n < |events| && events[n].buildTag == buildTag && FindNvr(cs, events[n].nvr) == Some(i);
      if n > 0 { assert events[1..][n - 1] == events[n]; }
    }
    if Names(events[1..], ds, buildTag, i) {
      var n :| 0 <= n < |events[1..]| && events[1..][n].buildTag == buildTag && FindNvr(ds, events[1..][n].nvr) == Some(i);
      assert events[n + 1] == events[1..][n];
    }
  }

  /** The messages, without the answers of the builder while they are handled. */
  function Messages(events: seq<TagEvent>): set<(bool, Nvr)> {
    set n | 0 <= n < |events| :: (events[n].buildTag, events[n].nvr)
  }

  lemma NamesFollowMessages(cs: seq<Component>, a: seq<TagEvent>, b: seq<TagEvent>, buildTag: bool, i: nat)
    requires Messages(a) <= Messages(b)
    ensures Names(a, cs, buildTag, i) ==> Names(b, cs, buildTag, i)
  {
    if Names(a, cs, buildTag, i) {
      var n :| 0 <= n < |a| && a[n].buildTag == buildTag && FindNvr(cs, a[n].nvr) == Some(i);
      assert (a[n].buildTag, a[n].nvr) in Messages(b);
      var k :| 0 <= k < |b| && (b[k].buildTag, b[k].nvr) == (a[n].buildTag, a[n].nvr);
    }
  }

  /** Tag flags end up the same for every order and repetition of the same tag messages. */
  lemma TagOrderDoesNotMatter(m: Module, a: seq<TagEvent>, b: seq<TagEvent>)
    requires m.state == Lifecycle.Build && m.batch > 0 && Messages(a) == Messages(b)
    ensures HandleTags(m, a).components == HandleTags(m, b).components
  {
    var cs, ds := HandleTags(m, a).components, HandleTags(m, b).components;
    HandleTagsLength(m, a);
    HandleTagsLength(m, b);
    forall i | 0 <= i < |m.components| ensures cs[i] == ds[i] {
      TagFlags(m, a, i);
      TagFlags(m, b, i);
      forall buildTag ensures Names(a, m.components, buildTag, i) <==> Names(b, m.components, buildTag, i) {
        NamesFollowMessages(m.components, a, b, buildTag, i);
        NamesFollowMessages(m.components, b, a, buildTag, i);
      }
    }
  }

  lemma {:induction false} HandleTagsLength(m: Module, events: seq<TagEvent>)
    ensures |HandleTags(m, events).components| == |m.components|
    decreases |events|
  {
    if events != [] && m.state == Lifecycle.Build {
      HandleTagsLength(Tagged(m, events[0].buildTag, events[0].nvr, events[0].b).m, events[1..]);
    }
  }
}
