/**
 Runs in which the service does what it should not: a module build that is done with an untagged component,
 two that fail because start_next_batch_build calls itself without end, and one that leaves two repo
 regenerations active.
 */
module Witnesses {
  import opened Wrappers
  import opened Records
  import opened Batches
  import opened Handlers
  import opened World
  import opened SkipRecursion
  import opened Example
  import Planning
  import PlanningSuccess
  import DoneGate
  import Repositories
  import Lookups = Reuse

  /** Task 9 has built foo. */
  const FOO_BUILT := Koji(map[7 := Closed("macros-1-1"), 8 := Active, 9 := Closed("foo-1-1")], map[0 := {"macros-1-1"}])

  function Built2(): Module {
    Building2().(components := [
      FOO_ROW.(task := Some(9), state := Complete, nvr := Some("foo-1-1")), Building2().components[1]])
  }

  lemma FooStep() returns (calls: seq<Call>)
    ensures BuildTaskFinalize(Building2(), 0, Complete, "foo-1-1", CFG, 0, Answering(FOO_BUILT)) == Outcome(Built2(), calls)
  {
    calls := BuildTaskFinalize(Building2(), 0, Complete, "foo-1-1", CFG, 0, Answering(FOO_BUILT)).calls;
    var marked := MarkBuilt(Building2(), 0, Complete, "foo-1-1");
    assert marked == Built2();
    assert marked.InBatch(0) && !marked.InBatch(1);
    assert !marked.AnyWaitingInBatch() && !marked.AnyBuildingInBatch() && !marked.AnyUnsuccessfulInBatch();
    assert marked.AnyCompletedInBatch();
  }

  lemma FooGives() returns (calls: seq<Call>)
    ensures Gives(Building2(), BuildMessage(0, 9, Complete, "foo-1-1", Answering(FOO_BUILT)), 0, Built2(), calls)
  {
    calls := FooStep();
    BuildGives(Building2(), 0, 9, Complete, "foo-1-1", Answering(FOO_BUILT), 0, Built2(), calls);
  }

  lemma FooBuilt(run: Run, n: nat, s: State) returns (longer: Run, s': State)
    requires At(run, n, s, [Building2()], BUILT)
    ensures At(longer, n + 1, s', [Built2()], FOO_BUILT)
  {
    var b := Answering(FOO_BUILT);
    var calls := FooGives();
    AnswersLikeKoji(s, 0, FOO_BUILT, 9, 7);
    longer, s' := HandledOnly(run, n, s, Building2(), BUILT, BuildMessage(0, 9, Complete, "foo-1-1", b), FOO_BUILT,
                              Built2(), calls);
  }

  // ---- done with an untagged component ----

  /** The producer cancels the build before the tag messages of batch 2 are handled. */
  function Stuck2(): Module {
    Built2().Transition(Lifecycle.Failed)
  }

  function Again(): Module {
    Stuck2().(batch := 0).Transition(Wait)
  }

  function Restarted(): Module {
    Again().(kojiTag := true, batch := 1).Transition(Lifecycle.Build).(newRepo := Some(8))
  }

  lemma AgainStep()
    ensures Resubmit(Stuck2()) == Again()
  {
    var t := Stuck2().trace;
    assert t == [Init, Wait, Lifecycle.Build, Lifecycle.Failed];
    assert t[..3] == [Init, Wait, Lifecycle.Build];
    assert PreviousNonFailed(t[..3]) == Some(Lifecycle.Build);
    assert ResetIncomplete(Stuck2().components) == Stuck2().components;
  }

  lemma RestartStep()
    ensures WaitHandler(Again(), true, Answering(FOO_BUILT)) == Outcome(Restarted(), [NewRepo(8)])
  {
    var cs := Again().components;
    assert "foo"[0] != MACROS[0];
    assert cs[1..] == [cs[1]];
    assert Planning.Find([cs[1]], MACROS) == Some(0);
    assert Planning.Find(cs, MACROS) == Some(1);
    var started := Again().(kojiTag := true, batch := 1);
    assert started.components[1 := cs[1]] == cs;
    assert SubmitMacros(started, Answering(FOO_BUILT)) == Success(Outcome(started, []));
  }

  lemma FinishGate()
    ensures DecideRepo(Restarted(), Answering(FOO_BUILT)) == Finish
  {
    var m := Restarted();
    assert m.InBatch(1) && !m.InBatch(0);
    assert m.AnyCompletedInBatch() && !m.AllInBatchWaiting();
  }

  lemma ResubmitGives(m: Module, others: nat)
    ensures Gives(m, ResubmitRequest, others, Resubmit(m), [])
  {}

  lemma CanceledAndResubmitted(run: Run, n: nat, s: State) returns (longer: Run, s': State)
    requires At(run, n, s, [Built2()], FOO_BUILT)
    ensures At(longer, n + 2, s', [Again()], FOO_BUILT)
  {
    assert Gives(Built2(), StuckTick, 0, Stuck2(), []);
    var r1, s1 := HandledOnly(run, n, s, Built2(), FOO_BUILT, StuckTick, FOO_BUILT, Stuck2(), []);
    AgainStep();
    ResubmitGives(Stuck2(), 0);
    longer, s' := HandledOnly(r1, n + 1, s1, Stuck2(), FOO_BUILT, ResubmitRequest, FOO_BUILT, Again(), []);
  }

  lemma RestartGives()
    ensures Gives(Again(), WaitMessage(true, Answering(FOO_BUILT)), 0, Restarted(), [NewRepo(8)])
  {
    RestartStep();
    WaitGives(Again(), Answering(FOO_BUILT), 0, Restarted(), [NewRepo(8)]);
  }

  lemma RestartedAgain(run: Run, n: nat, s: State) returns (longer: Run, s': State)
    requires At(run, n, s, [Again()], FOO_BUILT)
    ensures At(longer, n + 1, s', [Restarted()], FOO_BUILT)
  {
    var b := Answering(FOO_BUILT);
    RestartGives();
    AnswersLikeKoji(s, 0, FOO_BUILT, 9, 7);
    longer, s' := HandledOnly(run, n, s, Again(), FOO_BUILT, WaitMessage(true, b), FOO_BUILT, Restarted(), [NewRepo(8)]);
  }

  lemma FinishGives(m: Module, b: Builder, others: nat)
    requires m.state == Lifecycle.Build && DecideRepo(m, b) == Finish
    ensures Gives(m, RepoMessage(b), others, m.Transition(Lifecycle.Done), [])
  {
    DoneGate.FinishStep(m, b, CFG, others);
    RepoGives(m, b, others, m.Transition(Lifecycle.Done), []);
  }

  lemma FinishedUntagged(run: Run, n: nat, s: State) returns (longer: Run, s': State)
    requires At(run, n, s, [Restarted()], FOO_BUILT)
    ensures At(longer, n + 1, s', [Restarted().Transition(Lifecycle.Done)], FOO_BUILT)
    ensures longer.states[n] == s && longer.events[n].e == Handle(0, RepoMessage(Answering(FOO_BUILT)))
  {
    var b := Answering(FOO_BUILT);
    FinishGate();
    FinishGives(Restarted(), b, 0);
    AnswersLikeKoji(s, 0, FOO_BUILT, 9, 7);
    longer, s' := HandledOnly(run, n, s, Restarted(), FOO_BUILT, RepoMessage(b), FOO_BUILT,
                              Restarted().Transition(Lifecycle.Done), []);
  }

  /**
   A run in which a repo message takes a module build to done in batch 1 with a component of batch 2 that
   never was tagged: it was canceled before the tag messages of that batch, and resubmitted.
   */
  lemma DoneUntagged() returns (run: Run, s: State, b: Builder)
    ensures HandlesAt(run, CFG, 10, 0, RepoMessage(b)) && |run.events| == 11 && run.states[11] == s
    ensures run.states[10].records[0].m.state == Lifecycle.Build
    ensures |s.records| == 1 && s.records[0].m.state == Lifecycle.Done && !DoneGate.AllTagged(s.records[0].m.components)
  {
    var r6, s6 := RunsExist();
    var r7, s7 := FooBuilt(r6, 6, s6);
    var r9, s9 := CanceledAndResubmitted(r7, 7, s7);
    var r10, s10 := RestartedAgain(r9, 9, s9);
    run, s := FinishedUntagged(r10, 10, s10);
    b := Answering(FOO_BUILT);
    FooIsUntagged(s.records[0].m);
  }

  lemma FooIsUntagged(m: Module)
    requires m == Restarted().Transition(Lifecycle.Done)
    ensures m.state == Lifecycle.Done && !DoneGate.AllTagged(m.components)
  {
    assert !m.components[0].IsTagged();
  }

  // ---- recursion without end: first a module build to reuse from ----

  function Tagged2(inFinal: bool): Module {
    Built2().(components := [Built2().components[0].(tagged := true, taggedInFinal := inFinal), Built2().components[1]])
  }

  function Done2(): Module {
    Tagged2(true).Transition(Lifecycle.Done)
  }

  function Ready2(): Module {
    Done2().Transition(Ready)
  }

  lemma TagFoo(m: Module, inFinal: bool)
    requires m == if inFinal then Tagged2(false) else Built2()
    ensures Tagged(m, !inFinal, "foo-1-1", Answering(FOO_BUILT)) == Outcome(Tagged2(inFinal), [])
  {
    var marked := MarkTag(m, 0, !inFinal);
    assert FindNvr(m.components, "foo-1-1") == Some(0);
    assert marked == Tagged2(inFinal);
    assert RepoGenerating(marked, Answering(FOO_BUILT));
  }

  lemma TagFooGives(m: Module, inFinal: bool)
    requires m == if inFinal then Tagged2(false) else Built2()
    ensures Gives(m, TagMessage(!inFinal, "foo-1-1", Answering(FOO_BUILT)), 0, Tagged2(inFinal), [])
  {
    TagFoo(m, inFinal);
    TagGives(m, !inFinal, "foo-1-1", Answering(FOO_BUILT), 0, Tagged2(inFinal), []);
  }

  lemma FooTagged(run: Run, n: nat, s: State, m: Module, inFinal: bool) returns (longer: Run, s': State)
    requires m == if inFinal then Tagged2(false) else Built2()
    requires At(run, n, s, [m], FOO_BUILT)
    ensures At(longer, n + 1, s', [Tagged2(inFinal)], FOO_BUILT)
  {
    var b := Answering(FOO_BUILT);
    TagFooGives(m, inFinal);
    AnswersLikeKoji(s, 0, FOO_BUILT, 9, 7);
    longer, s' := HandledOnly(run, n, s, m, FOO_BUILT, TagMessage(!inFinal, "foo-1-1", b), FOO_BUILT, Tagged2(inFinal), []);
  }

  /** Two components, both complete and tagged, one of them in the current batch. */
  lemma BothFinish(m: Module, b: Builder)
    requires |m.components| == 2 && m.components[0].batch == m.batch > 0 && m.components[1].batch < m.batch
    requires forall i :: 0 <= i < 2 ==> m.components[i].IsCompleted() && m.components[i].IsTagged()
    ensures DecideRepo(m, b) == Finish
  {
    assert m.InBatch(0) && !m.InBatch(1);
    assert m.AnyCompletedInBatch() && !m.AllInBatchWaiting();
  }

  lemma Finished2(run: Run, n: nat, s: State) returns (longer: Run, s': State)
    requires At(run, n, s, [Tagged2(true)], FOO_BUILT)
    ensures At(longer, n + 1, s', [Done2()], FOO_BUILT)
  {
    var b := Answering(FOO_BUILT);
    BothFinish(Tagged2(true), b);
    FinishGives(Tagged2(true), b, 0);
    AnswersLikeKoji(s, 0, FOO_BUILT, 9, 7);
    longer, s' := HandledOnly(run, n, s, Tagged2(true), FOO_BUILT, RepoMessage(b), FOO_BUILT, Done2(), []);
  }

  lemma DoneOnce() returns (run: Run, s: State)
    ensures At(run, 10, s, [Done2()], FOO_BUILT)
  {
    var r6, s6 := RunsExist();
    var r7, s7 := FooBuilt(r6, 6, s6);
    var r8, s8 := FooTagged(r7, 7, s7, Built2(), false);
    var r9, s9 := FooTagged(r8, 8, s8, Tagged2(false), true);
    run, s := Finished2(r9, 9, s9);
  }

  // ---- then a second build of the same modulemd ----

  /** Task 10 builds module-build-macros of the second build, and fails; later foo is tagged for it. */
  const SECOND := Koji(FOO_BUILT.tasks[10 := Active], FOO_BUILT.buildroot)
  const NO_MACROS := Koji(FOO_BUILT.tasks[10 := TaskFailed], FOO_BUILT.buildroot)
  const REUSED := Koji(FOO_BUILT.tasks[10 := TaskFailed], map[0 := {"macros-1-1"}, 1 := {"foo-1-1"}])

  lemma TimeLine()
    ensures Grows(FOO_BUILT, SECOND) && Grows(SECOND, SECOND) && Grows(SECOND, NO_MACROS) && Grows(NO_MACROS, REUSED)
    ensures Grows(REUSED, REUSED)
    ensures 8 in SECOND.tasks && 8 in NO_MACROS.tasks && 8 in REUSED.tasks
  {}

  /** Of a message for the second module build, the first in row `first`. */
  lemma HandledSecond(
    run: Run, n: nat, s: State, first: Module, m: Module, k: Koji, msg: Message, k': Koji, m': Module, calls: seq<Call>)
    returns (longer: Run, s': State)
    requires At(run, n, s, [first, m], k) && Grows(k, k')
    requires AllowedMessage(s, 1, msg, k') && FreshMessage(m, msg)
    requires Gives(m, msg, Others(s.records, 1), m', calls)
    ensures At(longer, n + 1, s', [first, m'], k')
    ensures run.states <= longer.states && longer.events == run.events + [Happening(Handle(1, msg), k', calls)]
  {
    longer, s' := Handled(run, n, s, [first, m], k, 1, msg, k', m', calls);
    assert [first, m][1 := m'] == [first, m'];
  }

  function Starting1(): Module {
    Planned().(kojiTag := true, batch := 1,
               components := [FOO_ROW, MACROS_ROW.(task := Some(10), state := Building)])
    .Transition(Lifecycle.Build).(newRepo := Some(8))
  }

  function NoMacros(): Module {
    Starting1().(components := [FOO_ROW, MACROS_ROW.(task := Some(10), state := FailedBuild, nvr := Some("macros-1-2"))])
    .Transition(Lifecycle.Failed)
  }

  function Retried(): Module {
    NoMacros().(batch := 0, components := [FOO_ROW, MACROS_ROW.(task := Some(10), nvr := Some("macros-1-2"))])
    .Transition(Wait)
  }

  /** Everything is reused but module-build-macros, which stays unbuilt in batch 1. */
  function Forgotten(inBuild: bool, inFinal: bool): Module {
    Retried().(reusedModule := Some(0), batch := 2, components := [
      Reuse(FOO_ROW, Ready2().components[0], true).(tagged := inBuild, taggedInFinal := inFinal),
      Retried().components[1]])
    .Transition(Lifecycle.Build)
  }

  function Answering1(k: Koji): Builder {
    AnsweringFor(k, 1, 11, 10)
  }

  function Offering(): Builder {
    Answering1(REUSED).(previous := Some(0), reusable := i => if i == 0 then Some(Ready2().components[0]) else None)
  }

  lemma SubmittedAgain(run: Run, n: nat, s: State) returns (longer: Run, s': State)
    requires At(run, n, s, [Done2()], FOO_BUILT)
    ensures At(longer, n + 1, s', [Done2(), Submitted()], FOO_BUILT)
  {
    InitStep();
    GrowsEvolves(s, FOO_BUILT);
    var h := Happening(SubmitModule(MMD, ChangedAndAfter, false, None), FOO_BUILT, []);
    s' := Step(s, h.e, CFG, h.koji);
    longer := Extend(run, n, s, h, s');
  }

  lemma PlannedAgain(run: Run, n: nat, s: State) returns (longer: Run, s': State)
    requires At(run, n, s, [Done2(), Submitted()], FOO_BUILT)
    ensures At(longer, n + 1, s', [Done2(), Planned()], FOO_BUILT)
  {
    InitGives(Others(s.records, 1));
    longer, s' := HandledSecond(run, n, s, Done2(), Submitted(), FOO_BUILT, InitMessage(true), FOO_BUILT, Planned(), []);
  }

  lemma StartStep()
    ensures WaitHandler(Planned(), true, Answering1(SECOND)) == Outcome(Starting1(), [Call.Submit(1), NewRepo(8)])
  {
    FindMacros();
    assert [FOO_ROW][1..] == [];
    assert Planning.Find([FOO_ROW], MACROS) == None;
    assert WithMacros([FOO_ROW]) == [FOO_ROW, MACROS_ROW];
  }

  lemma FindMacros()
    ensures Planning.Find([FOO_ROW, MACROS_ROW], MACROS) == Some(1) && FOO_ROW.package != MACROS
  {
    assert "foo"[0] != MACROS[0];
    assert [FOO_ROW, MACROS_ROW][1..] == [MACROS_ROW];
    assert Planning.Find([MACROS_ROW], MACROS) == Some(0);
  }

  lemma StartGives(others: nat)
    ensures Gives(Planned(), WaitMessage(true, Answering1(SECOND)), others, Starting1(), [Call.Submit(1), NewRepo(8)])
  {
    StartStep();
    WaitGives(Planned(), Answering1(SECOND), others, Starting1(), [Call.Submit(1), NewRepo(8)]);
  }

  lemma StartedAgain(run: Run, n: nat, s: State) returns (longer: Run, s': State)
    requires At(run, n, s, [Done2(), Planned()], FOO_BUILT)
    ensures At(longer, n + 1, s', [Done2(), Starting1()], SECOND)
  {
    var b, calls := Answering1(SECOND), [Call.Submit(1), NewRepo(8)];
    StartGives(Others(s.records, 1));
    TimeLine();
    AnswersLikeKoji(s, 1, SECOND, 11, 10);
    longer, s' := HandledSecond(run, n, s, Done2(), Planned(), FOO_BUILT, WaitMessage(true, b), SECOND, Starting1(), calls);
  }

  /** The first build becomes ready only now: at the `wait` of the second one there was nothing to reuse. */
  lemma MadeReady(run: Run, n: nat, s: State) returns (longer: Run, s': State)
    requires At(run, n, s, [Done2(), Starting1()], SECOND)
    ensures At(longer, n + 1, s', [Ready2(), Starting1()], SECOND)
  {
    var rows := [Done2(), Starting1()];
    assert Gives(Done2(), DoneMessage(true), Others(s.records, 0), Ready2(), []);
    assert Lifecycle.Done in Done2().trace;
    TimeLine();
    longer, s' := Handled(run, n, s, rows, SECOND, 0, DoneMessage(true), SECOND, Ready2(), []);
    assert rows[0 := Ready2()] == [Ready2(), Starting1()];
  }

  lemma FailStep(b: Builder, others: nat)
    ensures BuildTaskFinalize(Starting1(), 1, FailedBuild, "macros-1-2", CFG, others, b) == Outcome(NoMacros(), [])
  {
    assert MarkBuilt(Starting1(), 1, FailedBuild, "macros-1-2").Transition(Lifecycle.Failed) == NoMacros();
  }

  lemma FailGives(b: Builder, others: nat)
    ensures Gives(Starting1(), BuildMessage(1, 10, FailedBuild, "macros-1-2", b), others, NoMacros(), [])
  {
    FailStep(b, others);
    BuildGives(Starting1(), 1, 10, FailedBuild, "macros-1-2", b, others, NoMacros(), []);
  }

  lemma MacrosFail(run: Run, n: nat, s: State) returns (longer: Run, s': State)
    requires At(run, n, s, [Ready2(), Starting1()], SECOND)
    ensures At(longer, n + 1, s', [Ready2(), NoMacros()], NO_MACROS)
  {
    var b := Answering1(NO_MACROS);
    FailGives(b, Others(s.records, 1));
    TimeLine();
    AnswersLikeKoji(s, 1, NO_MACROS, 11, 10);
    longer, s' := HandledSecond(run, n, s, Ready2(), Starting1(), SECOND,
                                BuildMessage(1, 10, FailedBuild, "macros-1-2", b), NO_MACROS, NoMacros(), []);
  }

  lemma RetryStep()
    ensures Resubmit(NoMacros()) == Retried()
  {
    var t := NoMacros().trace;
    assert t == [Init, Wait, Lifecycle.Build, Lifecycle.Failed];
    assert t[..3] == [Init, Wait, Lifecycle.Build];
    assert PreviousNonFailed(t[..3]) == Some(Lifecycle.Build);
    assert ResetIncomplete(NoMacros().components) == Retried().components;
  }

  lemma RetriedAgain(run: Run, n: nat, s: State) returns (longer: Run, s': State)
    requires At(run, n, s, [Ready2(), NoMacros()], NO_MACROS)
    ensures At(longer, n + 1, s', [Ready2(), Retried()], NO_MACROS)
  {
    RetryStep();
    ResubmitGives(NoMacros(), Others(s.records, 1));
    longer, s' := HandledSecond(run, n, s, Ready2(), NoMacros(), NO_MACROS, ResubmitRequest, NO_MACROS, Retried(), []);
  }

  lemma ReuseStep() returns (calls: seq<Call>)
    ensures WaitHandler(Retried(), true, Offering()) == Outcome(Forgotten(false, false), calls)
  {
    var cs := Retried().components;
    assert "foo"[0] != MACROS[0];
    assert !AnyNotReusable(cs, Offering());
    assert ReuseEvery(cs, Offering()) == Forgotten(false, false).components;
    assert cs[1..] == [cs[1]];
    assert LastReusedBatch([cs[1]], 2) == 2;
    assert LastReusedBatch(cs, 0) == 2;
    calls := WaitHandler(Retried(), true, Offering()).calls;
  }

  /** Rows of the second build at a look-up: foo as planned, and module-build-macros. */
  predicate LooksForFoo(m: Module) {
    && m.mmd == MMD && m.strategy == ChangedAndAfter && |m.components| == 2 && m.components[1].IsMacros()
    && m.components[0].package == "foo" && m.components[0].ref == Some("f") && m.components[0].batch == 2
  }

  lemma FooFound(cs: seq<Component>)
    requires |cs| == 2 && cs[0].package == "foo" && cs[0].ref == Some("f") && cs[0].batch == 2 && cs[1].IsMacros()
    ensures Planning.Find(cs, "foo") == Some(0) && Lookups.Comparable(cs, Some(0)) && Lookups.One(cs, "foo")
  {
    NotMacros(cs[1]);
    assert "f" != "" by { assert |"f"| == 1; }
    assert cs[0].package == "foo" && forall j :: 0 <= j < |cs| && cs[j].package == "foo" ==> j == 0;
  }

  lemma NotMacros(c: Component)
    requires c.IsMacros()
    ensures c.package != "foo"
  {
    assert "foo"[0] != MACROS[0];
  }

  lemma FooOffered(m: Module)
    requires LooksForFoo(m)
    ensures Lookups.Offer(m, Ready2(), 0) == Some(Ready2().components[0]) && Lookups.Offer(m, Ready2(), 1) == None
  {
    assert "foo"[0] != MACROS[0];
    FooFound(m.components);
    FooFound(Ready2().components);
    var cur, prev := Lookups.SideOf(m), Lookups.SideOf(Ready2());
    assert Lookups.EarlierBatches(cur, prev, 2) == Success(Lookups.Earlier([], []));
    assert Lookups.ComparedBefore(cur, prev, m.components[0], Ready2().components[0]) == Success(true);
    assert "foo" in cur.arches && cur.arches == prev.arches;
    assert Lookups.SameArches(cur, prev, "foo") == Success(true);
  }

  lemma OfferAnswers(s: State, m: Module)
    requires Rows(s, [Ready2(), m]) && LooksForFoo(m) && (m.reusedModule == None || m.reusedModule == Some(0))
    ensures Answers(s, 1, Offering(), REUSED)
  {
    FooOffered(m);
    LooksUpFirst(s, m, Ready2(), Offering());
  }

  lemma LooksUpFirst(s: State, m: Module, first: Module, b: Builder)
    requires |s.records| == 2 && s.records[0].m == first && first.state == Ready && |m.components| == 2
    requires b.previous == Some(0) && (m.reusedModule == None || m.reusedModule == Some(0))
    requires b.reusable(0) == Lookups.Offer(m, first, 0) && b.reusable(1) == Lookups.Offer(m, first, 1)
    ensures LooksUp(s, m, b)
  {
    forall i | 0 <= i < |m.components| ensures b.reusable(i) == Lookups.Offer(m, first, i) { assert i == 0 || i == 1; }
  }

  lemma ReuseGives(others: nat) returns (calls: seq<Call>)
    ensures Gives(Retried(), WaitMessage(true, Offering()), others, Forgotten(false, false), calls)
  {
    calls := ReuseStep();
    WaitGives(Retried(), Offering(), others, Forgotten(false, false), calls);
  }

  lemma AllReusedAgain(run: Run, n: nat, s: State) returns (longer: Run, s': State)
    requires At(run, n, s, [Ready2(), Retried()], NO_MACROS)
    ensures At(longer, n + 1, s', [Ready2(), Forgotten(false, false)], REUSED)
  {
    var calls := ReuseGives(Others(s.records, 1));
    OfferAnswers(s, Retried());
    TimeLine();
    longer, s' := HandledSecond(run, n, s, Ready2(), Retried(), NO_MACROS, WaitMessage(true, Offering()), REUSED,
                                Forgotten(false, false), calls);
  }

  lemma TagReused(inFinal: bool)
    ensures Tagged(Forgotten(inFinal, false), !inFinal, "foo-1-1", Offering()) == Outcome(Forgotten(true, inFinal), [])
  {
    var m := Forgotten(inFinal, false);
    var marked := MarkTag(m, 0, !inFinal);
    assert FindNvr(m.components, "foo-1-1") == Some(0);
    assert marked == Forgotten(true, inFinal);
    assert RepoGenerating(marked, Offering());
  }

  lemma TagReusedGives(inFinal: bool, others: nat)
    ensures Gives(Forgotten(inFinal, false), TagMessage(!inFinal, "foo-1-1", Offering()), others,
                  Forgotten(true, inFinal), [])
  {
    TagReused(inFinal);
    TagGives(Forgotten(inFinal, false), !inFinal, "foo-1-1", Offering(), others, Forgotten(true, inFinal), []);
  }

  lemma ReusedTagged(run: Run, n: nat, s: State, inFinal: bool) returns (longer: Run, s': State)
    requires At(run, n, s, [Ready2(), Forgotten(inFinal, false)], REUSED)
    ensures At(longer, n + 1, s', [Ready2(), Forgotten(true, inFinal)], REUSED)
  {
    var b := Offering();
    TagReusedGives(inFinal, Others(s.records, 1));
    TimeLine();
    OfferAnswers(s, Forgotten(inFinal, false));
    longer, s' := HandledSecond(run, n, s, Ready2(), Forgotten(inFinal, false), REUSED,
                                TagMessage(!inFinal, "foo-1-1", b), REUSED, Forgotten(true, inFinal), []);
  }

  /** What the repo message finds: unbuilt is module-build-macros alone, below the current batch, and every check passes. */
  lemma ForgottenRunsAway()
    ensures Runaway(Forgotten(true, true), Offering())
  {
    var m, b := Forgotten(true, true), Offering();
    assert m.components[1].IsUnbuilt() && m.AnyUnbuilt();
    ForgottenArtifacts(m.components);
    forall k: nat | 2 <= k ensures b.ready(Artifacts(m.components, k)) {
      if k > 2 { NoArtifactsPastLast(m.components, k); }
    }
  }

  /** Two components: the one of the current batch complete and tagged, the other one waiting further below. */
  lemma LowerOneKeepsItGoing(m: Module, b: Builder)
    requires |m.components| == 2 && m.components[0].batch == m.batch && m.components[1].batch < m.batch
    requires m.components[0].IsCompleted() && m.components[0].IsTagged() && m.components[1].IsWaitingForBuild()
    requires b.ready(CompletedArtifacts(m.components, m.batch))
    ensures DecideRepo(m, b) == TryNextBatch
  {
    assert m.InBatch(0) && !m.InBatch(1);
    assert m.AnyUnbuilt() && m.AnyCompletedInBatch() && !m.AllInBatchWaiting();
  }

  lemma ForgottenPassesTheGate()
    ensures DecideRepo(Forgotten(true, true), Offering()) == TryNextBatch
  {
    var m := Forgotten(true, true);
    ForgottenArtifacts(m.components);
    LowerOneKeepsItGoing(m, Offering());
  }

  lemma ForgottenArtifacts(cs: seq<Component>)
    requires cs == Forgotten(true, true).components
    ensures Artifacts(cs, 2) == [Some("foo-1-1")] && CompletedArtifacts(cs, 2) == [Some("foo-1-1")]
  {
    assert cs[0].batch == 2 && cs[0].IsCompleted() && cs[0].nvr == Some("foo-1-1") && cs[1].batch == 1;
    assert cs[1..] == [cs[1]];
    var last := [cs[1]];
    assert last[1..] == [];
    assert Artifacts(last[1..], 2) == [] && CompletedArtifacts(last[1..], 2) == [];
    assert Artifacts(last, 2) == [] && CompletedArtifacts(last, 2) == [];
  }

  lemma RepoOutcome(r: Record, b: Builder, others: nat)
    requires r.m.state == Lifecycle.Build
    ensures OutcomeOf(r, RepoMessage(b), CFG, others) == Settle(r, RepoDone(r.m, CFG, others, b))
  {}

  lemma RaisedIsRolledBack(r: Record, result: Result<Outcome, PyError>)
    requires result.Failure?
    ensures Settle(r, result) == Outcome(r.m.Transition(Lifecycle.Failed), [])
  {}

  lemma RepoRaisesGives(m: Module, b: Builder, others: nat, result: Result<Outcome, PyError>)
    requires m.state == Lifecycle.Build && RepoDone(m, CFG, others, b) == result && result.Failure?
    ensures Gives(m, RepoMessage(b), others, m.Transition(Lifecycle.Failed), [])
  {
    forall r: Record | r.m == m
      ensures OutcomeOf(r, RepoMessage(b), CFG, others) == Outcome(m.Transition(Lifecycle.Failed), [])
    {
      RepoOutcome(r, b, others);
      RaisedIsRolledBack(r, result);
    }
  }

  lemma RunawayRaises(m: Module, b: Builder, others: nat)
    requires DecideRepo(m, b) == TryNextBatch && Runaway(m, b)
    ensures RepoDone(m, CFG, others, b) == Failure(RecursionLimit)
  {
    RunawayNeverReturns(m, CFG, others, b, CFG.depth);
    RepoGoesOn(m, b, CFG, others);
  }

  lemma RunawayGives(m: Module, b: Builder, others: nat)
    requires m.state == Lifecycle.Build && DecideRepo(m, b) == TryNextBatch && Runaway(m, b)
    ensures Gives(m, RepoMessage(b), others, m.Transition(Lifecycle.Failed), [])
  {
    RunawayRaises(m, b, others);
    RepoRaisesGives(m, b, others, Failure(RecursionLimit));
  }

  lemma ForgottenGives(m: Module, others: nat)
    requires m == Forgotten(true, true)
    ensures Gives(m, RepoMessage(Offering()), others, m.Transition(Lifecycle.Failed), [])
  {
    ForgottenRunsAway();
    ForgottenPassesTheGate();
    RunawayGives(m, Offering(), others);
  }

  lemma RunsAwayAgain(run: Run, n: nat, s: State) returns (longer: Run, s': State)
    requires At(run, n, s, [Ready2(), Forgotten(true, true)], REUSED)
    ensures At(longer, n + 1, s', [Ready2(), Forgotten(true, true).Transition(Lifecycle.Failed)], REUSED)
    ensures longer.states[n] == s && longer.events[n].e == Handle(1, RepoMessage(Offering()))
  {
    var m, b := Forgotten(true, true), Offering();
    ForgottenGives(m, Others(s.records, 1));
    TimeLine();
    OfferAnswers(s, m);
    longer, s' := HandledSecond(run, n, s, Ready2(), m, REUSED, RepoMessage(b), REUSED, m.Transition(Lifecycle.Failed), []);
  }

  lemma SecondStarted() returns (run: Run, s: State)
    ensures At(run, 14, s, [Ready2(), Starting1()], SECOND)
  {
    var r10, s10 := DoneOnce();
    var r11, s11 := SubmittedAgain(r10, 10, s10);
    var r12, s12 := PlannedAgain(r11, 11, s11);
    var r13, s13 := StartedAgain(r12, 12, s12);
    run, s := MadeReady(r13, 13, s13);
  }

  lemma MacrosForgotten() returns (run: Run, s: State)
    ensures At(run, 17, s, [Ready2(), Forgotten(false, false)], REUSED)
  {
    var r14, s14 := SecondStarted();
    var r15, s15 := MacrosFail(r14, 14, s14);
    var r16, s16 := RetriedAgain(r15, 15, s15);
    run, s := AllReusedAgain(r16, 16, s16);
  }

  /**
   A run that reaches the runaway input: module-build-macros of a second build failed once, and on
   resubmission everything else was reused from the first one. The repo message then finds no stack deep
   enough, and though nothing is wrong with any component but module-build-macros, the build fails.
   */
  lemma RunawayReached() returns (run: Run, s: State, b: Builder)
    ensures HandlesAt(run, CFG, 19, 1, RepoMessage(b)) && |run.events| == 20 && run.states[20] == s
    ensures Runaway(run.states[19].records[1].m, b)
    ensures |s.records| == 2 && s.records[1].m == run.states[19].records[1].m.Transition(Lifecycle.Failed)
  {
    var r17, s17 := MacrosForgotten();
    var r18, s18 := ReusedTagged(r17, 17, s17, false);
    var r19, s19 := ReusedTagged(r18, 18, s18, true);
    run, s := RunsAwayAgain(r19, 19, s19);
    b := Offering();
    ForgottenRunsAway();
  }

  // ---- recursion without end: an RPM without a batch number ----

  const NOTHING := Included(0, ModuleMd([]))
  const FOO_INCLUDED := Included(0, ModuleMd([FOO]))

  /** Two included modulemds of one buildorder, the first of them empty. */
  const EMPTY_FIRST := ModuleMd([NOTHING, FOO_INCLUDED])

  const UNNUMBERED_ROW := FOO_ROW.(batch := 0)

  function Submitted0(): Module {
    NewModule(EMPTY_FIRST, ChangedAndAfter, false, None)
  }

  function Planned0(): Module {
    Submitted0().(components := [UNNUMBERED_ROW]).Transition(Wait)
  }

  function Building0(macros: Component): Module {
    Planned0().(kojiTag := true, batch := 1, components := [UNNUMBERED_ROW, macros])
    .Transition(Lifecycle.Build).(newRepo := Some(8))
  }

  const RUNNING_MACROS := MACROS_ROW.(task := Some(7), state := Building)
  const BUILT_MACROS := RUNNING_MACROS.(state := Complete, nvr := Some("macros-1-1"))
  const TAGGED_MACROS := BUILT_MACROS.(tagged := true)

  lemma PlanEmptyFirst()
    ensures Planning.RecordComponentBuilds(EMPTY_FIRST, []) == Success(Planning.Recorded([UNNUMBERED_ROW], None))
  {
    var main: seq<Entry> := [NOTHING, FOO_INCLUDED];
    var none: seq<Component> := [];
    PlanningSuccess.SortsToItself(NOTHING, NOTHING, FOO_INCLUDED);
    PlanningSuccess.SortsAlone(FOO);
    assert main[1..] == [FOO_INCLUDED] && [FOO_INCLUDED][1..] == [] && [FOO][1..] == [];
    assert none + [UNNUMBERED_ROW] == [UNNUMBERED_ROW] && Planning.NewRow(FOO, 0, 0) == UNNUMBERED_ROW;
    assert Planning.RecordRpm(FOO, none, None) == Success([UNNUMBERED_ROW]);
    assert Planning.RecordEntries([FOO], main, none, None, Some(0)) == Success(Planning.Recorded([UNNUMBERED_ROW], None));
    assert Planning.RecordModule(FOO_INCLUDED.mmd, Some(main), none, None, Some(0))
        == Success(Planning.Recorded([UNNUMBERED_ROW], None));
    assert Planning.RecordModule(NOTHING.mmd, Some(main), none, Some(2), Some(0)) == Success(Planning.Recorded(none, None));
    assert Planning.RecordEntries([FOO_INCLUDED], main, none, None, Some(0))
        == Success(Planning.Recorded([UNNUMBERED_ROW], None));
    assert Planning.Bump(NOTHING, Some(1), None) == Success(Some(2)) && main[0] == NOTHING;
    assert Planning.RecordEntries(main, main, none, Some(1), None) == Success(Planning.Recorded([UNNUMBERED_ROW], None));
    assert Planning.SortByOrder(main) == main;
  }

  lemma NoMacrosIncluded()
    ensures NoRpmNamedMacros(EMPTY_FIRST)
  {
    PlanEmptyFirst();
    assert UNNUMBERED_ROW.package == "foo" && "foo"[0] != MACROS[0];
  }

  lemma Submitting0() returns (run: Run, s: State)
    ensures At(run, 1, s, [Submitted0()], RUNNING)
  {
    NoMacrosIncluded();
    var h := Happening(SubmitModule(EMPTY_FIRST, ChangedAndAfter, false, None), RUNNING, []);
    s := Step(Start(), h.e, CFG, h.koji);
    run := Extend(Run([Start()], []), 0, Start(), h, s);
  }

  lemma Init0Gives()
    ensures Gives(Submitted0(), InitMessage(true), 0, Planned0(), [])
  {
    PlanEmptyFirst();
  }

  lemma Initialising0(run: Run, n: nat, s: State) returns (longer: Run, s': State)
    requires At(run, n, s, [Submitted0()], RUNNING)
    ensures At(longer, n + 1, s', [Planned0()], RUNNING)
  {
    Init0Gives();
    longer, s' := HandledOnly(run, n, s, Submitted0(), RUNNING, InitMessage(true), RUNNING, Planned0(), []);
  }

  lemma Wait0Step()
    ensures WaitHandler(Planned0(), true, Answering(RUNNING))
         == Outcome(Building0(RUNNING_MACROS), [Call.Submit(1), NewRepo(8)])
  {
    assert "foo"[0] != MACROS[0];
    assert [UNNUMBERED_ROW][1..] == [];
    assert Planning.Find([UNNUMBERED_ROW], MACROS) == None;
    assert WithMacros([UNNUMBERED_ROW]) == [UNNUMBERED_ROW, MACROS_ROW];
    assert [UNNUMBERED_ROW, MACROS_ROW][1..] == [MACROS_ROW];
    assert Planning.Find([MACROS_ROW], MACROS) == Some(0);
    assert Planning.Find([UNNUMBERED_ROW, MACROS_ROW], MACROS) == Some(1);
  }

  lemma Waiting0(run: Run, n: nat, s: State) returns (longer: Run, s': State)
    requires At(run, n, s, [Planned0()], RUNNING)
    ensures At(longer, n + 1, s', [Building0(RUNNING_MACROS)], RUNNING)
  {
    var b, calls := Answering(RUNNING), [Call.Submit(1), NewRepo(8)];
    Wait0Step();
    WaitGives(Planned0(), b, 0, Building0(RUNNING_MACROS), calls);
    AnswersLikeKoji(s, 0, RUNNING, 9, 7);
    longer, s' := HandledOnly(run, n, s, Planned0(), RUNNING, WaitMessage(true, b), RUNNING,
                              Building0(RUNNING_MACROS), calls);
  }

  lemma Built0Step() returns (calls: seq<Call>)
    ensures BuildTaskFinalize(Building0(RUNNING_MACROS), 1, Complete, "macros-1-1", CFG, 0, Answering(BUILT))
         == Outcome(Building0(BUILT_MACROS), calls)
  {
    calls := BuildTaskFinalize(Building0(RUNNING_MACROS), 1, Complete, "macros-1-1", CFG, 0, Answering(BUILT)).calls;
    var marked := MarkBuilt(Building0(RUNNING_MACROS), 1, Complete, "macros-1-1");
    assert marked == Building0(BUILT_MACROS);
    assert marked.InBatch(1) && !marked.InBatch(0);
    assert !marked.AnyWaitingInBatch() && !marked.AnyBuildingInBatch() && !marked.AnyUnsuccessfulInBatch();
    assert marked.AnyCompletedInBatch();
  }

  lemma MacrosBuilt0(run: Run, n: nat, s: State) returns (longer: Run, s': State)
    requires At(run, n, s, [Building0(RUNNING_MACROS)], RUNNING)
    ensures At(longer, n + 1, s', [Building0(BUILT_MACROS)], BUILT)
  {
    var b := Answering(BUILT);
    var calls := Built0Step();
    BuildGives(Building0(RUNNING_MACROS), 1, 7, Complete, "macros-1-1", b, 0, Building0(BUILT_MACROS), calls);
    AnswersLikeKoji(s, 0, BUILT, 9, 7);
    longer, s' := HandledOnly(run, n, s, Building0(RUNNING_MACROS), RUNNING,
                              BuildMessage(1, 7, Complete, "macros-1-1", b), BUILT, Building0(BUILT_MACROS), calls);
  }

  lemma Tag0Gives()
    ensures Gives(Building0(BUILT_MACROS), TagMessage(true, "macros-1-1", Answering(BUILT)), 0, Building0(TAGGED_MACROS), [])
  {
    var m := Building0(BUILT_MACROS);
    assert m.components[1..] == [BUILT_MACROS];
    assert FindNvr([BUILT_MACROS], "macros-1-1") == Some(0);
    assert FindNvr(m.components, "macros-1-1") == Some(1);
    var marked := MarkTag(m, 1, true);
    assert marked == Building0(TAGGED_MACROS) && RepoGenerating(marked, Answering(BUILT));
    TagGives(m, true, "macros-1-1", Answering(BUILT), 0, marked, []);
  }

  lemma MacrosTagged0(run: Run, n: nat, s: State) returns (longer: Run, s': State)
    requires At(run, n, s, [Building0(BUILT_MACROS)], BUILT)
    ensures At(longer, n + 1, s', [Building0(TAGGED_MACROS)], BUILT)
  {
    Tag0Gives();
    AnswersLikeKoji(s, 0, BUILT, 9, 7);
    longer, s' := HandledOnly(run, n, s, Building0(BUILT_MACROS), BUILT, TagMessage(true, "macros-1-1", Answering(BUILT)),
                              BUILT, Building0(TAGGED_MACROS), []);
  }

  lemma UnnumberedArtifacts(cs: seq<Component>)
    requires cs == Building0(TAGGED_MACROS).components
    ensures Artifacts(cs, 1) == [Some("macros-1-1")] && CompletedArtifacts(cs, 1) == [Some("macros-1-1")]
  {
    assert cs[0].batch == 0 && cs[1].batch == 1 && cs[1].IsCompleted() && cs[1].nvr == Some("macros-1-1");
    assert cs[1..] == [cs[1]];
    var last := [cs[1]];
    assert last[1..] == [];
    assert Artifacts(last[1..], 1) == [] && CompletedArtifacts(last[1..], 1) == [];
    assert Artifacts(last, 1) == [Some("macros-1-1")] && CompletedArtifacts(last, 1) == [Some("macros-1-1")];
  }

  lemma UnnumberedRunsAway()
    ensures Runaway(Building0(TAGGED_MACROS), Answering(BUILT))
  {
    var m, b := Building0(TAGGED_MACROS), Answering(BUILT);
    assert m.components[0].IsUnbuilt() && m.AnyUnbuilt();
    UnnumberedArtifacts(m.components);
    forall k: nat | 1 <= k ensures b.ready(Artifacts(m.components, k)) {
      if k > 1 { NoArtifactsPastLast(m.components, k); }
    }
  }

  lemma UnnumberedPassesTheGate()
    ensures DecideRepo(Building0(TAGGED_MACROS), Answering(BUILT)) == TryNextBatch
  {
    var m := Building0(TAGGED_MACROS);
    UnnumberedArtifacts(m.components);
    assert m.InBatch(1) && !m.InBatch(0);
    assert m.components[0].IsUnbuilt() && m.AnyUnbuilt() && m.AnyCompletedInBatch() && !m.AllInBatchWaiting();
  }

  lemma Unnumbered0Gives(m: Module)
    requires m == Building0(TAGGED_MACROS)
    ensures Gives(m, RepoMessage(Answering(BUILT)), 0, m.Transition(Lifecycle.Failed), [])
  {
    UnnumberedRunsAway();
    UnnumberedPassesTheGate();
    RunawayGives(m, Answering(BUILT), 0);
  }

  lemma RunsAway0(run: Run, n: nat, s: State) returns (longer: Run, s': State)
    requires At(run, n, s, [Building0(TAGGED_MACROS)], BUILT)
    ensures At(longer, n + 1, s', [Building0(TAGGED_MACROS).Transition(Lifecycle.Failed)], BUILT)
    ensures longer.states[n] == s && longer.events[n].e == Handle(0, RepoMessage(Answering(BUILT)))
  {
    var m := Building0(TAGGED_MACROS);
    Unnumbered0Gives(m);
    AnswersLikeKoji(s, 0, BUILT, 9, 7);
    longer, s' := HandledOnly(run, n, s, m, BUILT, RepoMessage(Answering(BUILT)), BUILT, m.Transition(Lifecycle.Failed), []);
  }

  /**
   A run without resubmission that reaches a runaway input with module-build-macros built: the RPM of the
   second included modulemd was recorded in batch 0, since the first one is empty, and no batch ever
   submits it. The repo message fails the build at the recursion limit.
   */
  lemma UnnumberedRunawayReached() returns (run: Run, s: State, b: Builder)
    ensures HandlesAt(run, CFG, 5, 0, RepoMessage(b)) && |run.events| == 6 && run.states[6] == s
    ensures var m := run.states[5].records[0].m;
      && m.mmd == EMPTY_FIRST && Runaway(m, b)
      && (forall i :: 0 <= i < |m.components| && m.components[i].IsMacros() ==> m.components[i].IsCompleted())
      && |s.records| == 1 && s.records[0].m == m.Transition(Lifecycle.Failed)
  {
    var r1, s1 := Submitting0();
    var r2, s2 := Initialising0(r1, 1, s1);
    var r3, s3 := Waiting0(r2, 2, s2);
    var r4, s4 := MacrosBuilt0(r3, 3, s3);
    var r5, s5 := MacrosTagged0(r4, 4, s4);
    run, s := RunsAway0(r5, 5, s5);
    b := Answering(BUILT);
    UnnumberedRunsAway();
    assert "foo"[0] != MACROS[0];
  }

  // ---- two regenerations at once ----

  /** Task 11 regenerates the repo once more, task 12 builds module-build-macros once more. */
  const TWICE := Koji(RUNNING.tasks[11 := Active][12 := Active], RUNNING.buildroot)

  function AskingAgain(): Builder {
    AnsweringFor(TWICE, 0, 9, 12).(newRepoTask := 11)
  }

  function WaitedTwice(): Module {
    Building1().(components := [FOO_ROW, MACROS_ROW.(task := Some(12), state := Building)])
    .Transition(Lifecycle.Build).(newRepo := Some(11))
  }

  lemma SecondWait()
    ensures WaitHandler(Building1(), true, AskingAgain()) == Outcome(WaitedTwice(), [Call.Submit(1), NewRepo(11)])
  {
    var cs, b := Building1().components, AskingAgain();
    var again := MACROS_ROW.(task := Some(12), state := Building);
    assert "foo"[0] != MACROS[0];
    assert cs[1..] == [cs[1]];
    assert Planning.Find([cs[1]], MACROS) == Some(0);
    assert Planning.Find(cs, MACROS) == Some(1);
    assert MacrosAfter(cs[1], b.orphan(1), b.submit(1)) == Success(again);
    assert cs[1 := again] == [FOO_ROW, again];
    assert SubmitMacros(Building1(), b) == Success(Outcome(Building1().(components := [FOO_ROW, again]), [Call.Submit(1)]));
  }

  /** A run, extended by one happening that need not be fresh. */
  lemma ExtendStale(run: Run, n: nat, s: State, h: Happening, s': State) returns (longer: Run)
    requires Leads(run, n, s) && s' == Step(s, h.e, CFG, h.koji)
    requires Allowed(s, h.e, h.koji) && h.calls == CallsOf(s, h.e, CFG)
    ensures IsRun(longer, CFG) && longer.states == run.states + [s'] && longer.events == run.events + [h]
  {
    longer := Run(run.states + [s'], run.events + [h]);
    assert longer.states[n] == s && longer.states[n + 1] == s' && longer.events[n] == h;
    forall t | 0 <= t < |longer.events| ensures Happens(longer, t, CFG) {
      if t < n {
        assert Happens(run, t, CFG) && FreshEvent(run.states[t], run.events[t].e);
        HappensStill(run, longer, t);
      }
    }
  }

  lemma BothRequested(run: Run)
    requires |run.events| == 4
    requires run.events[2].e.Handle? && run.events[2].e.id == 0 && run.events[2].calls == [Call.Submit(1), NewRepo(8)]
    requires run.events[3].e.Handle? && run.events[3].e.id == 0 && run.events[3].calls == [Call.Submit(1), NewRepo(11)]
    ensures 8 in Repositories.EverRequested(run, 0, 4) && 11 in Repositories.EverRequested(run, 0, 4)
  {
    Repositories.LastIsRequested(run.events[2].calls);
    Repositories.LastIsRequested(run.events[3].calls);
    assert 8 in Repositories.RequestedAt(run, 0, 2) && 11 in Repositories.RequestedAt(run, 0, 3);
    assert 8 in Repositories.EverRequested(run, 0, 3);
  }

  lemma FirstWait() returns (run: Run, s: State)
    ensures At(run, 3, s, [Building1()], RUNNING)
    ensures run.events[2].e == Handle(0, WaitMessage(true, Answering(RUNNING)))
    ensures run.events[2].calls == [Call.Submit(1), NewRepo(8)]
  {
    var r1, s1 := Submitting();
    var r2, s2 := Initialising(r1, 1, s1);
    WaitStep();
    WaitGives(Planned(), Answering(RUNNING), 0, Building1(), [Call.Submit(1), NewRepo(8)]);
    AnswersLikeKoji(s2, 0, RUNNING, 9, 7);
    run, s := HandledOnly(r2, 2, s2, Planned(), RUNNING, WaitMessage(true, Answering(RUNNING)), RUNNING, Building1(),
                          [Call.Submit(1), NewRepo(8)]);
  }

  lemma AskingAgainIsAllowed(s: State)
    requires Rows(s, [Building1()]) && s.koji == RUNNING
    ensures Allowed(s, Handle(0, WaitMessage(true, AskingAgain())), TWICE)
  {
    GrowsEvolves(s, TWICE);
    assert Answers(s, 0, AskingAgain(), TWICE);
  }

  lemma AskingAgainCalls(s: State)
    requires Rows(s, [Building1()])
    ensures CallsOf(s, Handle(0, WaitMessage(true, AskingAgain())), CFG) == [Call.Submit(1), NewRepo(11)]
  {
    SecondWait();
  }

  /** What a second `wait` does, however late it comes. */
  lemma WaitsAgain(s: State) returns (h: Happening)
    requires Rows(s, [Building1()]) && s.koji == RUNNING
    ensures h == Happening(Handle(0, WaitMessage(true, AskingAgain())), TWICE, [Call.Submit(1), NewRepo(11)])
    ensures h.calls == CallsOf(s, h.e, CFG) && Allowed(s, h.e, h.koji)
  {
    h := Happening(Handle(0, WaitMessage(true, AskingAgain())), TWICE, [Call.Submit(1), NewRepo(11)]);
    AskingAgainIsAllowed(s);
    AskingAgainCalls(s);
  }

  lemma FourEvents(first: Run, run: Run, h: Happening, s: State)
    requires |first.states| == 4 && |first.events| == 3
    requires run.states == first.states + [s] && run.events == first.events + [h]
    ensures |run.events| == 4 && run.events[2] == first.events[2] && run.events[3] == h && run.states[4] == s
  {}

  lemma BothActive()
    ensures IsActive(TWICE, 8) && IsActive(TWICE, 11)
  {}

  lemma StepKoji(s: State, e: Event, k: Koji)
    ensures Step(s, e, CFG, k).koji == k
  {}

  /** A run in which a repeated `wait` message leaves two regenerations active, of which one is recorded. */
  lemma TwoRegenerations() returns (run: Run)
    ensures IsRun(run, CFG) && |run.events| == 4
    ensures var ever, k := Repositories.EverRequested(run, 0, 4), run.states[4].koji;
      8 in ever && 11 in ever && IsActive(k, 8) && IsActive(k, 11)
  {
    var r3, s3 := FirstWait();
    var h := WaitsAgain(s3);
    var s4 := Step(s3, h.e, CFG, h.koji);
    run := ExtendStale(r3, 3, s3, h, s4);
    FourEvents(r3, run, h, s4);
    BothRequested(run);
    StepKoji(s3, h.e, h.koji);
    BothActive();
  }
}
