/** A short run, to show that the assumptions about runs can be met: from submission to the first RPM. */
module Example {
  import opened Wrappers
  import opened Records
  import opened Batches
  import opened Handlers
  import opened World
  import opened EndToEnd
  import opened SkipRecursion
  import Planning
  import Numbering

  const FOO := Rpm("foo", 0, "git://foo", Some("f"), 1.0, false)
  const MMD := ModuleMd([FOO])
  const FOO_ROW := Component(0, "foo", "git://foo", Some("f"), 2, 1.0, false, false, NotSubmitted, None, None, false, false, None)
  const MACROS_ROW := Component(1, MACROS, "srpm", None, 1, 0.0, false, true, NotSubmitted, None, None, false, false, None)

  const CFG := Config(1, 100)

  /** Task 7 builds module-build-macros, task 8 regenerates the repo, task 9 builds foo. */
  const RUNNING := Koji(map[7 := Active, 8 := Active, 9 := Active], map[])
  const BUILT := Koji(map[7 := Closed("macros-1-1"), 8 := Active, 9 := Active], map[0 := {"macros-1-1"}])

  /** Builder answers for module build `id`; its foo is built by task `foo`, its module-build-macros by `macros`. */
  function AnsweringFor(k: Koji, id: nat, foo: TaskId, macros: TaskId): Builder {
    Builder(i => Answer(Some(if i == 0 then foo else macros), Building, None), _ => None, false,
            a => NvrsOf(a) <= Buildroot(k, id), (t: TaskId) => IsActive(k, t), 8, None, _ => None)
  }

  function Answering(k: Koji): Builder {
    AnsweringFor(k, 0, 9, 7)
  }

  // ---- the rows between the steps ----

  function Submitted(): Module {
    NewModule(MMD, ChangedAndAfter, false, None)
  }

  function Planned(): Module {
    Submitted().(components := [FOO_ROW]).Transition(Wait)
  }

  function Building1(): Module {
    Planned().(kojiTag := true, batch := 1,
               components := [FOO_ROW, MACROS_ROW.(task := Some(7), state := Building)])
    .Transition(Lifecycle.Build).(newRepo := Some(8))
  }

  function Built1(): Module {
    Building1().(components := [FOO_ROW, MACROS_ROW.(task := Some(7), state := Complete, nvr := Some("macros-1-1"))])
  }

  function Tagged1(): Module {
    Building1().(components := [FOO_ROW, MACROS_ROW.(task := Some(7), state := Complete, nvr := Some("macros-1-1"), tagged := true)])
  }

  function Building2(): Module {
    Tagged1().(batch := 2, components := [FOO_ROW.(task := Some(9), state := Building), Tagged1().components[1]])
  }

  lemma InitStep()
    ensures InitHandler(Submitted(), true) == Planned()
    ensures NoRpmNamedMacros(MMD)
  {
    assert Planning.SortByOrder([FOO]) == [FOO] by { assert [FOO][1..] == []; }
    assert [FOO][1..] == [];
    assert Planning.RecordEntries([], [FOO], [FOO_ROW], Some(2), Some(0)) == Success(Planning.Recorded([FOO_ROW], Some(2)));
    var none: seq<Component> := [];
    assert Planning.NewRow(FOO, 2, 0) == FOO_ROW && none + [FOO_ROW] == [FOO_ROW];
    assert Planning.RecordRpm(FOO, none, Some(2)) == Success([FOO_ROW]);
    assert Planning.RecordEntries([FOO], [FOO], [], Some(1), None) == Success(Planning.Recorded([FOO_ROW], Some(2)));
    assert Planning.RecordComponentBuilds(MMD, []) == Success(Planning.Recorded([FOO_ROW], Some(2)));
    assert FOO_ROW.package == "foo" && "foo"[0] != MACROS[0];
  }

  lemma WaitStep()
    ensures WaitHandler(Planned(), true, Answering(RUNNING)) == Outcome(Building1(), [Call.Submit(1), NewRepo(8)])
  {
    assert "foo"[0] != MACROS[0];
    assert [FOO_ROW][1..] == [];
    assert Planning.Find([FOO_ROW], MACROS) == None;
    assert WithMacros([FOO_ROW]) == [FOO_ROW, MACROS_ROW];
    assert [FOO_ROW, MACROS_ROW][1..] == [MACROS_ROW];
    assert Planning.Find([MACROS_ROW], MACROS) == Some(0);
    assert Planning.Find([FOO_ROW, MACROS_ROW], MACROS) == Some(1);
  }

  lemma BuildStep() returns (calls: seq<Call>)
    ensures BuildTaskFinalize(Building1(), 1, Complete, "macros-1-1", CFG, 0, Answering(BUILT)) == Outcome(Built1(), calls)
  {
    calls := BuildTaskFinalize(Building1(), 1, Complete, "macros-1-1", CFG, 0, Answering(BUILT)).calls;
    var marked := MarkBuilt(Building1(), 1, Complete, "macros-1-1");
    assert marked == Built1();
    assert marked.InBatch(1) && !marked.InBatch(0);
    assert !marked.AnyWaitingInBatch() && !marked.AnyBuildingInBatch() && !marked.AnyUnsuccessfulInBatch();
    assert marked.AnyCompletedInBatch();
  }

  lemma TagStep()
    ensures Tagged(Built1(), true, "macros-1-1", Answering(BUILT)) == Outcome(Tagged1(), [])
  {
    var cs := Built1().components;
    assert cs[1..] == [cs[1]];
    assert FindNvr([cs[1]], "macros-1-1") == Some(0);
    assert FindNvr(cs, "macros-1-1") == Some(1);
    var marked := MarkTag(Built1(), 1, true);
    assert marked == Tagged1();
    assert RepoGenerating(marked, Answering(BUILT));
  }

  lemma GateStep()
    ensures DecideRepo(Tagged1(), Answering(BUILT)) == TryNextBatch
  {
    var m := Tagged1();
    assert m.InBatch(1) && !m.InBatch(0);
    assert m.components[0].IsUnbuilt() && m.AnyUnbuilt();
    assert m.AnyCompletedInBatch() && !m.AllInBatchWaiting();
    PassedIsInRoot(m);
  }

  lemma PassedIsInRoot(m: Module)
    requires m == Tagged1()
    ensures CompletedArtifacts(m.components, 1) == Artifacts(m.components, 1) == [Some("macros-1-1")]
    ensures Answering(BUILT).ready([Some("macros-1-1")])
  {
    var cs := m.components;
    assert cs[1..] == [cs[1]];
    var last := [cs[1]];
    assert last[1..] == [];
    assert Artifacts(last, 1) == [Some("macros-1-1")] + Artifacts(last[1..], 1) == [Some("macros-1-1")];
    assert CompletedArtifacts(last, 1) == [Some("macros-1-1")] + CompletedArtifacts(last[1..], 1) == [Some("macros-1-1")];
    assert Artifacts(cs, 1) == Artifacts(last, 1) && CompletedArtifacts(cs, 1) == CompletedArtifacts(last, 1);
  }

  lemma NextBatchStep(depth: nat)
    ensures StartNext(Tagged1(), CFG, 0, Answering(BUILT), depth)
         == Success(Outcome(Building2(), [Advance([Some("macros-1-1")]), Call.Submit(0)]))
  {
    var m, b := Tagged1(), Answering(BUILT);
    var next := m.(batch := 2);
    PassedIsInRoot(m);
    assert m.components[0].IsUnbuilt() && m.AnyUnbuilt();
    assert !m.InBatch(0);
    assert Decide(m, b) == NextBatch;
    CandidatesOf(next);
    EnterFoo(next);
    EnterStep(m, CFG, 0, b, depth, EnterBatch(next, [0], true, CFG, 0, b));
    assert [Advance([Some("macros-1-1")])] + [Call.Submit(0)] == [Advance([Some("macros-1-1")]), Call.Submit(0)];
  }

  lemma CandidatesOf(m: Module)
    requires m == Tagged1().(batch := 2)
    ensures Candidates(m.components, 2) == [0]
  {
    assert Candidates(m.components, 2, 2) == [];
    assert Candidates(m.components, 2, 1) == [];
  }

  lemma EnterFoo(m: Module)
    requires m == Tagged1().(batch := 2)
    ensures EnterBatch(m, [0], true, CFG, 0, Answering(BUILT)) == Outcome(Building2(), [Call.Submit(0)])
  {
    var b := Answering(BUILT);
    var zero: seq<nat> := [0];
    assert zero[1..] == [];
    assert NotReused(zero, b) == [0];
    assert ReuseBatch(m.components, zero, b) == m.components;
    ContinueFoo(m);
  }

  lemma ContinueFoo(m: Module)
    requires m == Tagged1().(batch := 2)
    ensures Continue(m, [0], CFG, 0, Answering(BUILT)) == Outcome(Building2(), [Call.Submit(0)])
  {
    var b, cs := Answering(BUILT), m.components;
    var zero: seq<nat> := [0];
    assert zero[1..] == [];
    assert SortByWeight(cs, zero) == [0];
    assert Recover(cs, zero, b) == cs;
    assert cs[1..] == [cs[1]];
    var none: seq<Component> := [cs[1]][1..];
    assert none == [];
    assert CountBuilding([cs[1]], true) == 0;
    assert CountBuilding(cs, true) == 0;
    var started := cs[0 := cs[0].(state := Building)];
    assert Select(cs, zero, CFG, 0) == Selection(started, [0] + Select(started, zero[1..], CFG, 0).chosen);
    assert SubmitAll(m.(components := started), zero, b) == SubmitOne(m.(components := started), 0, b);
    assert SubmitCalls(zero) == [Call.Submit(0)] + SubmitCalls(zero[1..]);
  }

  // ---- runs, step by step ----

  /** The module builds, in these rows. */
  predicate Rows(s: State, rows: seq<Module>) {
    |s.records| == |rows| && forall id :: 0 <= id < |rows| ==> s.records[id].m == rows[id]
  }

  /** An allowed and fresh event, with its calls, takes the service from one state to the other. */
  ghost predicate Steps(s: State, h: Happening, s': State) {
    && s' == Step(s, h.e, CFG, h.koji)
    && Allowed(s, h.e, h.koji) && FreshEvent(s, h.e) && h.calls == CallsOf(s, h.e, CFG)
  }

  ghost predicate Leads(run: Run, n: nat, s: State) {
    IsFreshRun(run, CFG) && |run.events| == n && run.states[n] == s
  }

  lemma HappensStill(run: Run, longer: Run, t: nat)
    requires |run.states| == |run.events| + 1 && |longer.states| == |longer.events| + 1
    requires run.states <= longer.states && run.events <= longer.events && t < |run.events|
    requires Happens(run, t, CFG) && FreshEvent(run.states[t], run.events[t].e)
    ensures Happens(longer, t, CFG) && FreshEvent(longer.states[t], longer.events[t].e)
  {
    assert longer.states[t] == run.states[t] && longer.states[t + 1] == run.states[t + 1];
    assert longer.events[t] == run.events[t];
  }

  lemma LastHappens(longer: Run, n: nat, s: State, h: Happening, s': State)
    requires |longer.states| == |longer.events| + 1 == n + 2 && Steps(s, h, s')
    requires longer.states[n] == s && longer.states[n + 1] == s' && longer.events[n] == h
    ensures Happens(longer, n, CFG) && FreshEvent(longer.states[n], longer.events[n].e)
  {}

  ghost predicate HappensUpTo(run: Run, n: nat)
    requires |run.states| == |run.events| + 1 && n <= |run.events|
  {
    forall t :: 0 <= t < n ==> Happens(run, t, CFG) && FreshEvent(run.states[t], run.events[t].e)
  }

  lemma StillHappens(run: Run, longer: Run, n: nat)
    requires |run.states| == n + 1 && |run.events| == n && HappensUpTo(run, n)
    requires |longer.states| == |longer.events| + 1
    requires run.states <= longer.states && run.events <= longer.events
    ensures HappensUpTo(longer, n)
  {
    forall t | 0 <= t < n ensures Happens(longer, t, CFG) && FreshEvent(longer.states[t], longer.events[t].e) {
      HappensStill(run, longer, t);
    }
  }

  lemma HappensOneMore(run: Run, n: nat)
    requires |run.states| == |run.events| + 1 && n < |run.events| && HappensUpTo(run, n)
    requires Happens(run, n, CFG) && FreshEvent(run.states[n], run.events[n].e)
    ensures HappensUpTo(run, n + 1)
  {}

  lemma FreshRunIs(run: Run)
    ensures IsFreshRun(run, CFG) <==>
      |run.states| == |run.events| + 1 && run.states[0] == Start() && HappensUpTo(run, |run.events|)
  {}

  /** A run, extended by one happening. */
  lemma Extend(run: Run, n: nat, s: State, h: Happening, s': State) returns (longer: Run)
    requires Leads(run, n, s) && Steps(s, h, s')
    ensures Leads(longer, n + 1, s') && run.states <= longer.states && longer.events == run.events + [h]
  {
    longer := Run(run.states + [s'], run.events + [h]);
    FreshRunIs(run);
    StillHappens(run, longer, n);
    LastHappens(longer, n, s, h, s');
    HappensOneMore(longer, n);
    FreshRunIs(longer);
  }

  /** After `n` steps the run is in state `s`, with these rows and Koji in that state. */
  ghost predicate At(run: Run, n: nat, s: State, rows: seq<Module>, k: Koji) {
    Leads(run, n, s) && Rows(s, rows) && s.koji == k
  }

  predicate Grows(k: Koji, k': Koji) {
    && (forall t :: t in k.tasks ==> t in k'.tasks && (k.tasks[t] != Active ==> k'.tasks[t] == k.tasks[t]))
    && (forall id :: id in k.buildroot ==> k.buildroot[id] <= Buildroot(k', id))
  }

  lemma GrowsEvolves(s: State, k: Koji)
    requires Grows(s.koji, k)
    ensures KojiEvolves(s, k)
  {}

  /** What a message makes of a module build in row `m`. */
  ghost predicate Gives(m: Module, msg: Message, others: nat, m': Module, calls: seq<Call>) {
    forall r: Record :: r.m == m ==> OutcomeOf(r, msg, CFG, others) == Outcome(m', calls)
  }

  /** Of a message for one module build only its outcome matters. */
  lemma Handled(
    run: Run, n: nat, s: State, rows: seq<Module>, k: Koji, id: nat, msg: Message, k': Koji, m': Module, calls: seq<Call>)
    returns (longer: Run, s': State)
    requires At(run, n, s, rows, k) && id < |rows| && Grows(k, k')
    requires AllowedMessage(s, id, msg, k') && FreshMessage(rows[id], msg)
    requires Gives(rows[id], msg, Others(s.records, id), m', calls)
    ensures At(longer, n + 1, s', rows[id := m'], k')
    ensures run.states <= longer.states && longer.events == run.events + [Happening(Handle(id, msg), k', calls)]
  {
    GrowsEvolves(s, k');
    var h := Happening(Handle(id, msg), k', calls);
    s' := Step(s, h.e, CFG, k');
    longer := Extend(run, n, s, h, s');
  }

  /** The same for the only module build, in row `m`. */
  lemma HandledOnly(
    run: Run, n: nat, s: State, m: Module, k: Koji, msg: Message, k': Koji, m': Module, calls: seq<Call>)
    returns (longer: Run, s': State)
    requires At(run, n, s, [m], k) && Grows(k, k')
    requires AllowedMessage(s, 0, msg, k') && FreshMessage(m, msg)
    requires Gives(m, msg, 0, m', calls)
    ensures At(longer, n + 1, s', [m'], k')
    ensures run.states <= longer.states && longer.events == run.events + [Happening(Handle(0, msg), k', calls)]
  {
    assert s.records[..0] == [] && s.records[1..] == [];
    assert Others(s.records, 0) == 0;
    longer, s' := Handled(run, n, s, [m], k, 0, msg, k', m', calls);
    assert [m][0 := m'] == [m'];
  }

  lemma AnswersLikeKoji(s: State, id: nat, k: Koji, foo: TaskId, macros: TaskId)
    requires id < |s.records| && 8 in k.tasks && s.records[id].m.reusedModule == None
    ensures Answers(s, id, AnsweringFor(k, id, foo, macros), k)
    ensures var b := AnsweringFor(k, id, foo, macros);
      && AllowedMessage(s, id, WaitMessage(true, b), k) && AllowedMessage(s, id, RepoMessage(b), k)
      && (forall buildTag, nvr :: AllowedMessage(s, id, TagMessage(buildTag, nvr, b), k))
  {}

  // ---- the run ----

  lemma Submitting() returns (run: Run, s: State)
    ensures At(run, 1, s, [Submitted()], RUNNING)
  {
    InitStep();
    var h := Happening(SubmitModule(MMD, ChangedAndAfter, false, None), RUNNING, []);
    s := Step(Start(), h.e, CFG, h.koji);
    run := Extend(Run([Start()], []), 0, Start(), h, s);
  }

  lemma InitGives(others: nat)
    ensures Gives(Submitted(), InitMessage(true), others, Planned(), [])
  {
    InitStep();
  }

  lemma Initialising(run: Run, n: nat, s: State) returns (longer: Run, s': State)
    requires At(run, n, s, [Submitted()], RUNNING)
    ensures At(longer, n + 1, s', [Planned()], RUNNING)
  {
    InitGives(0);
    longer, s' := HandledOnly(run, n, s, Submitted(), RUNNING, InitMessage(true), RUNNING, Planned(), []);
  }

  lemma WaitGives(m: Module, b: Builder, others: nat, m': Module, calls: seq<Call>)
    requires WaitHandler(m, true, b) == Outcome(m', calls)
    ensures Gives(m, WaitMessage(true, b), others, m', calls)
  {}

  lemma BuildGives(
    m: Module, i: nat, task: TaskId, state: ComponentState, nvr: Nvr, b: Builder, others: nat, m': Module, calls: seq<Call>)
    requires i < |m.components| && BuildTaskFinalize(m, i, state, nvr, CFG, others, b) == Outcome(m', calls)
    ensures Gives(m, BuildMessage(i, task, state, nvr, b), others, m', calls)
  {}

  lemma TagGives(m: Module, buildTag: bool, nvr: Nvr, b: Builder, others: nat, m': Module, calls: seq<Call>)
    requires m.state == Lifecycle.Build && Tagged(m, buildTag, nvr, b) == Outcome(m', calls)
    ensures Gives(m, TagMessage(buildTag, nvr, b), others, m', calls)
  {}

  lemma RepoGives(m: Module, b: Builder, others: nat, m': Module, calls: seq<Call>)
    requires m.state == Lifecycle.Build && RepoDone(m, CFG, others, b) == Success(Outcome(m', calls))
    ensures Gives(m, RepoMessage(b), others, m', calls)
  {}

  lemma Waiting(run: Run, n: nat, s: State) returns (longer: Run, s': State)
    requires At(run, n, s, [Planned()], RUNNING)
    ensures At(longer, n + 1, s', [Building1()], RUNNING) && SubmitsAt(longer.events[n].calls, 0, 1)
  {
    var b, calls := Answering(RUNNING), [Call.Submit(1), NewRepo(8)];
    WaitStep();
    WaitGives(Planned(), b, 0, Building1(), calls);
    AnswersLikeKoji(s, 0, RUNNING, 9, 7);
    longer, s' := HandledOnly(run, n, s, Planned(), RUNNING, WaitMessage(true, b), RUNNING, Building1(), calls);
  }

  lemma MacrosBuilt(run: Run, n: nat, s: State) returns (longer: Run, s': State)
    requires At(run, n, s, [Building1()], RUNNING)
    ensures At(longer, n + 1, s', [Built1()], BUILT) && run.events <= longer.events
  {
    var b := Answering(BUILT);
    var calls := BuildStep();
    BuildGives(Building1(), 1, 7, Complete, "macros-1-1", b, 0, Built1(), calls);
    AnswersLikeKoji(s, 0, BUILT, 9, 7);
    longer, s' := HandledOnly(run, n, s, Building1(), RUNNING, BuildMessage(1, 7, Complete, "macros-1-1", b), BUILT,
                              Built1(), calls);
  }

  lemma MacrosTagged(run: Run, n: nat, s: State) returns (longer: Run, s': State)
    requires At(run, n, s, [Built1()], BUILT)
    ensures At(longer, n + 1, s', [Tagged1()], BUILT) && run.events <= longer.events
  {
    TagStep();
    TagGives(Built1(), true, "macros-1-1", Answering(BUILT), 0, Tagged1(), []);
    AnswersLikeKoji(s, 0, BUILT, 9, 7);
    longer, s' := HandledOnly(run, n, s, Built1(), BUILT, TagMessage(true, "macros-1-1", Answering(BUILT)), BUILT,
                              Tagged1(), []);
  }

  lemma RepoGoesOn(m: Module, b: Builder, cfg: Config, others: nat)
    requires DecideRepo(m, b) == TryNextBatch
    ensures RepoDone(m, cfg, others, b) == StartNext(m, cfg, others, b, cfg.depth)
  {}

  lemma NextBatchStarted(run: Run, n: nat, s: State) returns (longer: Run, s': State)
    requires At(run, n, s, [Tagged1()], BUILT)
    ensures At(longer, n + 1, s', [Building2()], BUILT) && run.events <= longer.events
    ensures SubmitsAt(longer.events[n].calls, 1, 0)
  {
    var b, calls := Answering(BUILT), [Advance([Some("macros-1-1")]), Call.Submit(0)];
    NextBatchGives(b, calls);
    AnswersLikeKoji(s, 0, BUILT, 9, 7);
    longer, s' := HandledOnly(run, n, s, Tagged1(), BUILT, RepoMessage(b), BUILT, Building2(), calls);
  }

  lemma NextBatchGives(b: Builder, calls: seq<Call>)
    requires b == Answering(BUILT) && calls == [Advance([Some("macros-1-1")]), Call.Submit(0)]
    ensures Gives(Tagged1(), RepoMessage(b), 0, Building2(), calls)
  {
    GateStep();
    NextBatchStep(CFG.depth);
    RepoGoesOn(Tagged1(), b, CFG, 0);
    RepoGives(Tagged1(), b, 0, Building2(), calls);
  }

  /**
   The assumptions can be met: there is a run without stale messages in which module-build-macros is
   submitted, built and tagged, and then the first RPM is submitted in batch 2.
   */
  lemma RunsExist() returns (run: Run, s: State)
    ensures At(run, 6, s, [Building2()], BUILT)
    ensures SubmitsAt(run.events[2].calls, 0, 1) && SubmitsAt(run.events[5].calls, 1, 0)
  {
    var r1, s1 := Submitting();
    var r2, s2 := Initialising(r1, 1, s1);
    var r3, s3 := Waiting(r2, 2, s2);
    var r4, s4 := MacrosBuilt(r3, 3, s3);
    var r5, s5 := MacrosTagged(r4, 4, s4);
    run, s := NextBatchStarted(r5, 5, s5);
    assert run.events[2] == r3.events[2];
  }
}
