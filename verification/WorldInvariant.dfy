/** What holds of every module build in every reachable state: the batch invariant of all runs. */
module WorldInvariant {
  import opened Wrappers
  import opened Records
  import opened Batches
  import opened Handlers
  import opened World
  import opened SkipRecursion
  import opened BatchInvariant
  import opened HandlerSteps
  import Planning
  import Numbering
  import PlanningSuccess
  import Lookups = Reuse

  predicate TraceEnds(m: Module) {
    m.trace != [] && m.trace[|m.trace| - 1] == m.state
  }

  /** Once the init handler has succeeded; a resubmission then never goes back to init. */
  predicate LeftInit(m: Module) {
    PreviousNonFailed(m.trace) != Some(Init)
  }

  /** The components are those planned for the modulemd, with module-build-macros behind them once it was added. */
  predicate Planned(m: Module) {
    m.components != [] ==>
      var r := Planning.RecordComponentBuilds(m.mmd, []);
      && r.Success? && |r.value.rows| <= |m.components| <= |r.value.rows| + 1
      && (forall i :: 0 <= i < |r.value.rows| ==>
           m.components[i].package == r.value.rows[i].package && m.components[i].batch == r.value.rows[i].batch
           && m.components[i].ref == r.value.rows[i].ref)
      && (|m.components| == |r.value.rows| + 1 ==> m.components[|r.value.rows|].IsMacros())
  }

  /** Every NVR below the current batch has passed the buildroot check, unless nothing is left to build. */
  predicate Passed(m: Module, passed: set<Nvr>) {
    forall i :: 0 <= i < |m.components| && m.components[i].batch < m.batch ==>
      RestComplete(m.components) || (m.components[i].nvr.Some? && m.components[i].nvr.value in passed)
  }

  /** Everything is built for good: such a module build may be reused from, whatever becomes of it. */
  predicate Reusable(m: Module) {
    RestComplete(m.components) && LeftInit(m)
  }

  /** No RPM of the modulemd comes after an included modulemd without components. */
  predicate Numbered(m: Module) {
    PlanningSuccess.NoRpmAfterEmpty(m.mmd)
  }

  predicate RecordInv(r: Record, k: Koji, root: set<Nvr>) {
    && BaseInv(r.m, k)
    && (Numbered(r.m) ==> BatchInv(r.m) && Passed(r.m, r.h.passed))
    && TraceEnds(r.m)
    && (!LeftInit(r.m) ==> r.m.components == [] && r.m.batch == 0)
    && NoRpmNamedMacros(r.m.mmd) && Planned(r.m)
    && (Live(r.m) ==> r.h.passed <= root || Reusable(r.m))
    && (Lifecycle.Done in r.m.trace ==> Reusable(r.m))
  }

  predicate StateInv(s: State) {
    forall id :: 0 <= id < |s.records| ==>
      && RecordInv(s.records[id], s.koji, Buildroot(s.koji, id))
      && (s.records[id].m.reusedModule.Some? ==>
           var j := s.records[id].m.reusedModule.value; j < |s.records| && Reusable(s.records[j].m))
  }

  // ---- traces ----

  lemma {:induction false} TraceKeepsLeftInit(t: seq<Lifecycle>, t': seq<Lifecycle>)
    requires |t| <= |t'| && t'[..|t|] == t && PreviousNonFailed(t) != Some(Init)
    requires forall j :: |t| <= j < |t'| ==> t'[j] != Init
    ensures PreviousNonFailed(t') != Some(Init)
    decreases |t'|
  {
    if |t'| > |t| {
      assert t'[..|t'| - 1][..|t|] == t;
      TraceKeepsLeftInit(t, t'[..|t'| - 1]);
    } else {
      assert t' == t;
    }
  }

  lemma LastOfTrace(m: Module)
    requires TraceEnds(m) && m.state != Lifecycle.Failed
    ensures PreviousNonFailed(m.trace) == Some(m.state)
  {}

  // ---- handlers that evolve the row ----

  lemma EvolvesKeepsPassed(r: Record, out: Outcome, k: Koji, root: set<Nvr>)
    requires BelowBuilt(r.m.components, r.m.batch) && Passed(r.m, r.h.passed) && Evolves(r.m, out, k, root)
    ensures Passed(out.m, Remember(r.h, out.calls).passed)
  {
    var cs, ds := r.m.components, out.m.components;
    if RestComplete(cs) { RestCompleteStays(cs, ds, out.m.batch, k); }
    forall i | 0 <= i < |ds| && ds[i].batch < out.m.batch && !RestComplete(ds)
      ensures ds[i].nvr.Some? && ds[i].nvr.value in Remember(r.h, out.calls).passed
    {
      assert Progress(cs[i], ds[i], out.m.batch, k);
    }
  }

  lemma ProgressKeepsPlanned(m: Module, m': Module, k: Koji)
    requires Planned(m) && AllProgress(m.components, m'.components, m'.batch, k) && m'.mmd == m.mmd
    ensures Planned(m')
  {
    forall i | 0 <= i < |m.components|
      ensures m'.components[i].package == m.components[i].package && m'.components[i].batch == m.components[i].batch
      ensures m'.components[i].ref == m.components[i].ref
    {
      assert Progress(m.components[i], m'.components[i], m'.batch, k);
    }
  }

  lemma EvolvesKeepsLeftInit(m: Module, out: Outcome, k: Koji, root: set<Nvr>)
    requires TraceEnds(m) && Evolves(m, out, k, root)
    ensures TraceEnds(out.m) && (LeftInit(m) ==> LeftInit(out.m))
  {
    if |out.m.trace| == |m.trace| { assert out.m.trace == m.trace; }
    if LeftInit(m) { TraceKeepsLeftInit(m.trace, out.m.trace); }
  }

  lemma NumberedEvolves(r: Record, out: Outcome, k: Koji, k': Koji, root': set<Nvr>)
    requires BaseInv(r.m, k) && BatchInv(r.m) && Passed(r.m, r.h.passed) && Evolves(r.m, out, k', root')
    ensures BatchInv(out.m) && Passed(out.m, Remember(r.h, out.calls).passed)
  {
    ProgressKeepsInv(r.m, out.m, k');
    EvolvesKeepsPassed(r, out, k', root');
  }

  lemma EvolvesKeepsInv(r: Record, out: Outcome, k: Koji, k': Koji, root: set<Nvr>, root': set<Nvr>)
    requires RecordInv(r, k, root) && Evolves(r.m, out, k', root')
    requires Live(r.m) ==> root <= root'
    ensures RecordInv(Record(out.m, Remember(r.h, out.calls)), k', root')
    ensures (Reusable(r.m) ==> Reusable(out.m)) && (LeftInit(r.m) ==> LeftInit(out.m))
  {
    ProgressKeepsBase(r.m, out.m, k, k');
    if Numbered(r.m) { NumberedEvolves(r, out, k, k', root'); }
    ProgressKeepsPlanned(r.m, out.m, k');
    EvolvesKeepsLeftInit(r.m, out, k', root');
    if RestComplete(r.m.components) { RestCompleteStays(r.m.components, out.m.components, out.m.batch, k'); }
  }

  lemma TimePasses(r: Record, s: State, k: Koji, root: set<Nvr>, root': set<Nvr>)
    requires RecordInv(r, s.koji, root) && KojiEvolves(s, k) && (Live(r.m) ==> root <= root')
    ensures RecordInv(r, k, root')
  {
    BackedLater(r.m.components, s, k);
  }

  // ---- init ----

  /** Freshly planned rows are in no batch yet, hold no task, and are numbered if the modulemd is. */
  lemma PlannedRowsKeepInv(r: Record, rows: seq<Component>, k: Koji, root: set<Nvr>)
    requires RecordInv(r, k, root) && r.m.state == Init && r.m.components == [] && r.m.batch == 0
    requires Numbering.PlannedRows(r.m.mmd, rows)
    ensures Carried(r, Record(r.m.(components := rows).Transition(Wait), r.h), k, root)
  {
    LastOfTrace(r.m);
    Numbering.PlannedBatches(r.m.mmd, rows);
    PlanningSuccess.NumberedIff(r.m.mmd, rows);
  }

  lemma FailedInitKeepsInv(r: Record, k: Koji, root: set<Nvr>)
    requires RecordInv(r, k, root)
    ensures Carried(r, Record(r.m.Transition(Lifecycle.Failed), r.h), k, root)
  {
    TraceKeepsLeftInitOrNot(r.m);
  }

  lemma TraceKeepsLeftInitOrNot(m: Module)
    ensures LeftInit(m.Transition(Lifecycle.Failed)) <==> LeftInit(m)
  {
    var t := m.Transition(Lifecycle.Failed).trace;
    assert t[..|t| - 1] == m.trace;
  }

  lemma InitKeepsInv(r: Record, valid: bool, k: Koji, root: set<Nvr>)
    requires RecordInv(r, k, root)
    ensures Carried(r, Record(InitHandler(r.m, valid), r.h), k, root)
  {
    if r.m.state == Init {
      LastOfTrace(r.m);
      assert r.m.components == [] && r.m.batch == 0;
      var planned := Planning.RecordComponentBuilds(r.m.mmd, []);
      if valid && planned.Success? {
        PlannedRowsKeepInv(r, planned.value.rows, k, root);
      } else {
        FailedInitKeepsInv(r, k, root);
      }
    }
  }

  // ---- resubmission ----

  lemma ResubmitProgresses(m: Module, k: Koji)
    requires AllBacked(m.components, k)
    ensures AllProgress(m.components, Resubmit(m).components, Resubmit(m).batch, k)
  {
    if m.state == Lifecycle.Failed {
      ResetProgresses(m.components, Resubmit(m).batch, k);
    } else {
      ProgressRefl(m.components, m.batch, k);
    }
  }

  lemma ResetProgresses(cs: seq<Component>, b: nat, k: Koji)
    requires AllBacked(cs, k)
    ensures AllProgress(cs, ResetIncomplete(cs), b, k)
  {
    var ds := ResetIncomplete(cs);
    forall i | 0 <= i < |cs| ensures Progress(cs[i], ds[i], b, k) { assert Backed(cs[i], k); }
  }

  lemma ResubmitTrace(m: Module)
    requires TraceEnds(m) && m.state == Lifecycle.Failed
    ensures var m' := Resubmit(m);
      && TraceEnds(m') && (LeftInit(m) ==> LeftInit(m') && m'.batch == 0) && (!LeftInit(m) ==> m'.batch == m.batch)
      && (Lifecycle.Done in m'.trace ==> Lifecycle.Done in m.trace)
      && (m'.state == Init || m'.state == Wait) && m'.mmd == m.mmd
  {
    if LeftInit(m) { TraceKeepsLeftInit(m.trace, Resubmit(m).trace); }
  }

  lemma ResubmitKeepsInv(r: Record, h: History, k: Koji, root: set<Nvr>)
    requires RecordInv(r, k, root) && r.m.state == Lifecycle.Failed && h.passed == {}
    ensures Carried(r, Record(Resubmit(r.m), h), k, root)
  {
    var m, m' := r.m, Resubmit(r.m);
    ResubmitProgresses(m, k);
    ResubmitTrace(m);
    RewoundKeepsInv(r, m', h, k, root);
  }

  /** A row on which progress was made and that is back at the start of a build, or never left it. */
  lemma RewoundKeepsInv(r: Record, m': Module, h: History, k: Koji, root: set<Nvr>)
    requires RecordInv(r, k, root) && h.passed == {}
    requires AllProgress(r.m.components, m'.components, m'.batch, k) && m'.mmd == r.m.mmd
    requires TraceEnds(m') && (LeftInit(r.m) ==> LeftInit(m') && m'.batch == 0) && (!LeftInit(r.m) ==> m'.batch == r.m.batch)
    requires (Lifecycle.Done in m'.trace ==> Lifecycle.Done in r.m.trace) && (m'.state == Init || m'.state == Wait)
    ensures Carried(r, Record(m', h), k, root)
  {
    assert m'.batch == 0;
    ProgressKeepsBase(r.m, m', k, k);
    if Numbered(r.m) { ProgressKeepsInv(r.m, m', k); }
    ProgressKeepsPlanned(r.m, m', k);
    if RestComplete(r.m.components) { RestCompleteStays(r.m.components, m'.components, m'.batch, k); }
  }

  // ---- wait ----

  lemma DepsMissingEvolves(m: Module, b: Builder, k: Koji, root: set<Nvr>)
    requires AllBacked(m.components, k)
    ensures Evolves(m, WaitHandler(m, false, b), k, root)
  {
    ProgressRefl(m.components, m.batch, k);
  }

  /** What the invariant says of the module build whose components are offered for reuse. */
  predicate GoodSource(b: Builder, cs: seq<Component>, source: seq<Component>, k: Koji) {
    && RestComplete(source) && AllBacked(source, k)
    && forall i :: 0 <= i < |cs| && b.reusable(i).Some? ==> b.reusable(i).value in source && !b.reusable(i).value.IsMacros()
  }

  lemma ReuseEveryFacts(cs: seq<Component>, b: Builder, source: seq<Component>, k: Koji)
    requires !AnyNotReusable(cs, b) && GoodSource(b, cs, source, k) && AllBacked(cs, k)
    ensures var ds := ReuseEvery(cs, b);
      && RestComplete(ds) && AllBacked(ds, k)
      && (forall i :: 0 <= i < |cs| ==>
           ds[i].package == cs[i].package && ds[i].batch == cs[i].batch && ds[i].ref == cs[i].ref)
  {
    var ds := ReuseEvery(cs, b);
    forall i | 0 <= i < |cs| ensures Backed(ds[i], k) && (ds[i].IsMacros() || ds[i].IsCompleted()) {
      assert Backed(cs[i], k);
      if !cs[i].IsMacros() {
        var j :| 0 <= j < |source| && source[j] == b.reusable(i).value;
        assert Backed(source[j], k);
      }
    }
  }

  /** When all the rest is complete, nothing about batches can go wrong. */
  lemma RestCompleteSuffices(m: Module, k: Koji)
    requires MacrosPlaced(m.components) && AllBacked(m.components, k) && RestComplete(m.components)
    ensures BaseInv(m, k) && (AllNumbered(m.components) ==> BatchInv(m))
    ensures forall passed :: Passed(m, passed)
  {}

  lemma AllReusedKeepsInv(r: Record, m': Module, h: History, b: Builder, source: seq<Component>, k: Koji, root: set<Nvr>)
    requires RecordInv(r, k, root) && !AnyNotReusable(r.m.components, b)
    requires GoodSource(b, r.m.components, source, k) && h.passed == {}
    requires m'.components == ReuseEvery(r.m.components, b) && m'.mmd == r.m.mmd
    requires m'.state == Lifecycle.Build && m'.trace == r.m.trace + [Lifecycle.Build]
    ensures RecordInv(Record(m', h), k, root) && Reusable(m')
  {
    ReuseEveryFacts(r.m.components, b, source, k);
    RestCompleteSuffices(m', k);
    LastOfTrace(m');
  }

  lemma PlannedWithoutMacros(m: Module)
    requires Planned(m) && m.components != []
    ensures HasMacros(m.components) || |m.components| == |Planning.RecordComponentBuilds(m.mmd, []).value.rows|
  {
    var n := |Planning.RecordComponentBuilds(m.mmd, []).value.rows|;
    if |m.components| == n + 1 { assert m.components[n].IsMacros(); }
  }

  /** The row of module-build-macros that `wait` adds disturbs nothing: nothing was built yet, or all the rest is. */
  lemma MacrosAddedInOrder(m: Module, ds: seq<Component>)
    requires BatchInv(m) && !HasMacros(m.components)
    requires ds == m.components + [MacrosRow(|m.components|)]
    ensures AllNumbered(ds) && BelowBuilt(ds, 1) && TasksInOrder(ds)
  {
    var cs := m.components;
    forall i | 0 <= i < |ds| ensures i < |cs| ==> ds[i] == cs[i] {}
    forall i | 0 <= i < |ds| && ds[i].task.Some? ensures BelowBuilt(ds, ds[i].batch) {
      assert cs[i].task.Some?;
      assert RestComplete(cs);
    }
  }

  lemma MacrosAddedPlanned(m: Module, m': Module)
    requires Planned(m) && m.components != [] && !HasMacros(m.components)
    requires m' == m.(batch := 1, components := m.components + [MacrosRow(|m.components|)])
    ensures Planned(m') && HasMacros(m'.components)
  {
    PlannedWithoutMacros(m);
    assert m'.components[|m.components|].IsMacros();
  }

  lemma MacrosAddedBacked(cs: seq<Component>, ds: seq<Component>, k: Koji)
    requires MacrosPlaced(cs) && AllBacked(cs, k) && ds == cs + [MacrosRow(|cs|)]
    ensures MacrosPlaced(ds) && AllBacked(ds, k) && (RestComplete(cs) ==> RestComplete(ds))
  {
    forall i | 0 <= i < |ds| ensures i < |cs| ==> ds[i] == cs[i] {}
  }

  lemma WithMacrosKeeps(m: Module, k: Koji)
    requires MacrosPlaced(m.components) && AllBacked(m.components, k) && Planned(m) && m.components != []
    ensures var m' := m.(batch := 1, components := WithMacros(m.components));
      && Planned(m') && m.components <= m'.components
      && MacrosPlaced(m'.components) && HasMacros(m'.components) && AllBacked(m'.components, k)
      && (RestComplete(m.components) ==> RestComplete(m'.components))
      && (BatchInv(m) ==> BatchInv(m'))
  {
    var cs, ds := m.components, WithMacros(m.components);
    if Planning.Find(cs, MACROS) == None {
      assert !HasMacros(cs);
      MacrosAddedBacked(cs, ds, k);
      if BatchInv(m) { MacrosAddedInOrder(m, ds); }
      MacrosAddedPlanned(m, m.(batch := 1, components := ds));
    } else {
      assert cs[Planning.Find(cs, MACROS).value].IsMacros();
    }
  }

  lemma MacrosAfterProgresses(c: Component, found: Option<Orphan>, answer: SubmitAnswer, k: Koji)
    requires Backed(c, k) && KojiAnswer(answer) && MacrosAfter(c, found, answer).Success?
    requires found.Some? ==> found.value.task in k.tasks && k.tasks[found.value.task] == Closed(found.value.nvr)
    ensures Progress(c, MacrosAfter(c, found, answer).value, c.batch, k)
  {}

  lemma SubmitMacrosProgresses(m: Module, b: Builder, k: Koji)
    requires Planning.Find(m.components, MACROS).Some? && SubmitMacros(m, b).Success?
    requires MacrosPlaced(m.components) && AllBacked(m.components, k) && Sound(b, k)
    ensures var r := SubmitMacros(m, b).value;
      && AllProgress(m.components, r.m.components, 1, k)
      && r.m == m.(components := r.m.components)
  {
    var i := MacrosIndex(m.components);
    ProgressRefl(m.components, 1, k);
    MacrosAfterProgresses(m.components[i], b.orphan(i), b.submit(i), k);
  }

  lemma StartedBatches(m: Module, m': Module, k: Koji)
    requires BaseInv(m, k) && Planned(m) && m.components != []
    requires AllProgress(WithMacros(m.components), m'.components, 1, k) && m'.batch == 1 && m'.mmd == m.mmd
    requires m'.state == Lifecycle.Build || m'.state == Lifecycle.Failed
    ensures BaseInv(m', k) && Planned(m')
    ensures BatchInv(m) ==> BatchInv(m')
    ensures RestComplete(m.components) ==> RestComplete(m'.components)
  {
    var base := m.(batch := 1, components := WithMacros(m.components), state := Lifecycle.Build);
    WithMacrosKeeps(m, k);
    ProgressKeepsBase(base, m', k, k);
    if BatchInv(m) { ProgressKeepsInv(base, m', k); }
    ProgressKeepsPlanned(base, m', k);
    MacrosKeepRest(m.components, base.components, m'.components, k);
  }

  lemma StartedTrace(m: Module, m': Module)
    requires LeftInit(m) && m'.trace == m.trace + [m'.state]
    requires m'.state == Lifecycle.Build || m'.state == Lifecycle.Failed
    ensures TraceEnds(m') && LeftInit(m')
    ensures Lifecycle.Done in m'.trace ==> Lifecycle.Done in m.trace
  {
    TraceKeepsLeftInit(m.trace, m'.trace);
  }

  /** The case of `wait` in which something is left to build. */
  lemma StartedKeepsInv(r: Record, m': Module, h: History, k: Koji, root: set<Nvr>)
    requires RecordInv(r, k, root) && r.m.components != [] && h.passed == {}
    requires AllProgress(WithMacros(r.m.components), m'.components, 1, k) && m'.batch == 1 && m'.mmd == r.m.mmd
    requires m'.state == Lifecycle.Build || m'.state == Lifecycle.Failed
    requires m'.trace == r.m.trace + [m'.state]
    ensures RecordInv(Record(m', h), k, root) && LeftInit(m')
    ensures Reusable(r.m) ==> Reusable(m')
  {
    StartedBatches(r.m, m', k);
    StartedTrace(r.m, m');
    if BatchInv(m') { assert Passed(m', h.passed); }
  }

  lemma MacrosKeepRest(cs: seq<Component>, ds: seq<Component>, es: seq<Component>, k: Koji)
    requires AllProgress(ds, es, 1, k) && (RestComplete(cs) ==> RestComplete(ds))
    ensures RestComplete(cs) ==> RestComplete(es)
  {
    if RestComplete(ds) { RestCompleteStays(ds, es, 1, k); }
  }

  lemma NoComponentsKeepsInv(r: Record, m': Module, h: History, k: Koji, root: set<Nvr>)
    requires RecordInv(r, k, root) && r.m.components == [] && h.passed == {}
    requires m' == r.m.(kojiTag := true).Transition(Lifecycle.Build)
    ensures RecordInv(Record(m', h), k, root) && Reusable(m')
  {
    LastOfTrace(m');
  }

  lemma WaitKeepsInv(r: Record, h: History, b: Builder, source: seq<Component>, k: Koji, root: set<Nvr>)
    requires RecordInv(r, k, root) && Sound(b, k) && h.passed == {}
    requires b.previous.Some? ==> GoodSource(b, r.m.components, source, k)
    ensures RecordInv(Record(WaitHandler(r.m, true, b).m, h), k, root) && LeftInit(WaitHandler(r.m, true, b).m)
    ensures Reusable(r.m) ==> Reusable(WaitHandler(r.m, true, b).m)
  {
    var m, out := r.m, WaitHandler(r.m, true, b);
    var tagged := m.(kojiTag := true);
    if m.components == [] {
      NoComponentsKeepsInv(r, out.m, h, k, root);
    } else if ReuseAll(tagged, b).reused {
      AllReusedKeepsInv(r, out.m, h, b, source, k, root);
    } else {
      WaitStarts(m, b, k);
      StartedKeepsInv(r, out.m, h, k, root);
    }
  }

  lemma BuildStarts(m: Module, b: Builder, k: Koji)
    requires BaseInv(m, k) && Planned(m) && Sound(b, k) && m.components != []
    ensures var m' := StartBuild(m, b).m;
      && AllProgress(WithMacros(m.components), m'.components, 1, k) && m'.batch == 1 && m'.mmd == m.mmd
      && (m'.state == Lifecycle.Build || m'.state == Lifecycle.Failed)
      && m'.trace == m.trace + [m'.state]
  {
    WithMacrosKeeps(m, k);
    var started := m.(batch := 1, components := WithMacros(m.components));
    if SubmitMacros(started, b).Success? {
      SubmitMacrosProgresses(started, b, k);
    } else {
      ProgressRefl(started.components, 1, k);
    }
  }

  lemma WaitStarts(m: Module, b: Builder, k: Koji)
    requires BaseInv(m, k) && Planned(m) && Sound(b, k) && m.components != [] && !ReuseAll(m.(kojiTag := true), b).reused
    ensures var m' := WaitHandler(m, true, b).m;
      && AllProgress(WithMacros(m.components), m'.components, 1, k) && m'.batch == 1 && m'.mmd == m.mmd
      && (m'.state == Lifecycle.Build || m'.state == Lifecycle.Failed)
      && m'.trace == m.trace + [m'.state]
  {
    var left := ReuseAll(m.(kojiTag := true), b).outcome.m;
    assert left == m.(kojiTag := true, reusedModule := left.reusedModule);
    assert WaitHandler(m, true, b) == StartBuild(left, b);
    BuildStarts(left, b, k);
  }

  lemma WaitPassesNothing(m: Module, depsFound: bool, b: Builder)
    ensures PassedNvrs(WaitHandler(m, depsFound, b).calls) == {}
  {
    NothingPassed(WaitHandler(m, depsFound, b).calls);
  }

  // ---- the module build that components are reused from ----

  function BuilderOf(msg: Message): Option<Builder> {
    match msg
    case WaitMessage(_, b) => Some(b)
    case BuildMessage(_, _, _, _, b) => Some(b)
    case TagMessage(_, _, b) => Some(b)
    case RepoMessage(b) => Some(b)
    case PausedTick(_, b) => Some(b)
    case RetriggerTick(_, b) => Some(b)
    case _ => None
  }

  lemma SettleSpares(r: Record, cfg: Config, others: nat, b: Builder)
    ensures Spares(r.m, Settle(r, StartNext(r.m, cfg, others, b, cfg.depth)).m, b)
  {
    var next := StartNext(r.m, cfg, others, b, cfg.depth);
    if next.Success? { StartNextSpares(r.m, cfg, others, b, cfg.depth, next.value); }
  }

  lemma MarkedSpares(m: Module, marked: Module, i: nat, out: Outcome)
    requires marked == m.(components := marked.components)
    requires out.m == marked || out.m == marked.Transition(Lifecycle.Failed) || Kept(marked, out.m)
    requires |marked.components| == |m.components|
    ensures SameBuild(m, out.m)
    ensures out.m.newRepo == m.newRepo && (out.m.state == m.state || out.m.state == Lifecycle.Failed)
  {}

  lemma FinalizeSpares(m: Module, i: nat, state: ComponentState, nvr: Nvr, cfg: Config, others: nat, b: Builder)
    requires i < |m.components|
    ensures var m' := BuildTaskFinalize(m, i, state, nvr, cfg, others, b).m;
      SameBuild(m, m') && m'.reusedModule == m.reusedModule && m'.newRepo == m.newRepo
      && (m'.state == m.state || m'.state == Lifecycle.Failed)
  {
    var marked, out := MarkBuilt(m, i, state, nvr), BuildTaskFinalize(m, i, state, nvr, cfg, others, b);
    if DecideFinalize(marked, marked.components[i]) == BuildOn {
      ContinueKeepsBatch(marked, Candidates(marked.components, marked.batch), cfg, others, b);
    }
    MarkedSpares(m, marked, i, out);
  }

  lemma WaitSource(m: Module, depsFound: bool, b: Builder)
    ensures SourceKept(m, WaitHandler(m, depsFound, b).m, b)
  {
    var left := ReuseAll(m.(kojiTag := true), b).outcome.m;
    StartSource(left, b);
  }

  lemma StartSource(m: Module, b: Builder)
    ensures var m' := StartBuild(m, b).m; SameBuild(m, m') && m'.reusedModule == m.reusedModule
  {}

  /** The messages on which a batch may go on. */
  lemma BatchSource(r: Record, msg: Message, cfg: Config, others: nat)
    requires msg.BuildMessage? || msg.RepoMessage? || msg.PausedTick?
    ensures SourceKept(r.m, OutcomeOf(r, msg, cfg, others).m, msg.b)
  {
    match msg
    case BuildMessage(i, _, state, nvr, b) =>
      if i < |r.m.components| { FinalizeSpares(r.m, i, state, nvr, cfg, others, b); }
    case RepoMessage(b) => RepoSpares(r, cfg, others, b);
    case PausedTick(missed, b) => PausedSpares(r, missed, cfg, others, b);
  }

  lemma RepoSpares(r: Record, cfg: Config, others: nat, b: Builder)
    ensures SourceKept(r.m, Settle(r, RepoDone(r.m, cfg, others, b)).m, b)
  {
    if DecideRepo(r.m, b) == TryNextBatch { SettleSpares(r, cfg, others, b); }
  }

  lemma PausedSpares(r: Record, missed: bool, cfg: Config, others: nat, b: Builder)
    ensures var m' := Abandon(r, ProcessPaused(r.m, missed, cfg, others, b)).m;
      SourceKept(r.m, m', b) && (m'.state == r.m.state || m'.state == Lifecycle.Failed)
  {
    SettleSpares(r, cfg, others, b);
  }

  lemma InitSource(m: Module, valid: bool)
    ensures var m' := InitHandler(m, valid); SameBuild(m, m') && m'.reusedModule == m.reusedModule
  {
    var planned := Planning.RecordComponentBuilds(m.mmd, m.components);
    if planned.Success? { Numbering.RecordModuleAddsFresh(m.mmd, None, m.components, Some(1), None, 1); }
  }

  lemma TagSource(m: Module, buildTag: bool, nvr: Nvr, b: Builder)
    ensures var m' := Tagged(m, buildTag, nvr, b).m; SameBuild(m, m') && m'.reusedModule == m.reusedModule
  {}

  lemma QuietSource(r: Record, msg: Message, cfg: Config, others: nat)
    requires !msg.WaitMessage? && !msg.BuildMessage? && !msg.RepoMessage? && !msg.PausedTick?
    ensures var m' := OutcomeOf(r, msg, cfg, others).m; SameBuild(r.m, m') && m'.reusedModule == r.m.reusedModule
  {
    match msg
    case InitMessage(valid) => InitSource(r.m, valid);
    case TagMessage(buildTag, nvr, b) => TagSource(r.m, buildTag, nvr, b);
    case _ =>
  }

  lemma OutcomeSource(r: Record, msg: Message, cfg: Config, others: nat)
    ensures var m' := OutcomeOf(r, msg, cfg, others).m;
      && SameBuild(r.m, m')
      && (m'.reusedModule == r.m.reusedModule || (BuilderOf(msg).Some? && SourceKept(r.m, m', BuilderOf(msg).value)))
  {
    if msg.WaitMessage? {
      WaitSource(r.m, msg.depsFound, msg.b);
    } else if msg.BuildMessage? || msg.RepoMessage? || msg.PausedTick? {
      BatchSource(r, msg, cfg, others);
    } else {
      QuietSource(r, msg, cfg, others);
    }
  }

  // ---- one step ----

  /** Messages whose handlers make progress on the row; the others are init, wait, resubmission and a stale done. */
  predicate IsPlain(m: Module, msg: Message) {
    && !msg.InitMessage? && !(msg.WaitMessage? && msg.depsFound)
    && (msg.DoneMessage? ==> m.state == Lifecycle.Done)
    && !(msg.ResubmitRequest? && m.state == Lifecycle.Failed)
  }

  /** The messages about tasks, tags, repos and paused builds. */
  lemma BusyEvolves(s: State, id: nat, msg: Message, cfg: Config, others: nat, k: Koji)
    requires id < |s.records| && KojiEvolves(s, k) && AllowedMessage(s, id, msg, k)
    requires msg.BuildMessage? || msg.TagMessage? || msg.RepoMessage? || msg.PausedTick?
    requires var m := s.records[id].m;
      AllBacked(m.components, s.koji) && AllBacked(m.components, k)
    ensures Evolves(s.records[id].m, OutcomeOf(s.records[id], msg, cfg, others), k, Buildroot(k, id))
  {
    var r, m, root := s.records[id], s.records[id].m, Buildroot(k, id);
    match msg
    case BuildMessage(i, task, state, nvr, b) =>
      if i < |m.components| {
        BuildEvolves(m, i, task, state, nvr, cfg, others, b, s, k, root);
      } else {
        StayEvolves(m, m, [], k, root);
      }
    case TagMessage(buildTag, nvr, b) =>
      if m.state == Lifecycle.Build { TagEvolves(m, buildTag, nvr, b, k, root); } else { StayEvolves(m, m, [], k, root); }
    case RepoMessage(b) =>
      if m.state == Lifecycle.Build { RepoEvolves(r, cfg, others, b, k, root); } else { StayEvolves(m, m, [], k, root); }
    case PausedTick(missed, b) => PausedEvolves(r, missed, cfg, others, b, k, root);
  }

  lemma IdleEvolves(r: Record, msg: Message, cfg: Config, others: nat, k: Koji, root: set<Nvr>)
    requires !msg.BuildMessage? && !msg.TagMessage? && !msg.RepoMessage? && !msg.PausedTick? && IsPlain(r.m, msg)
    requires AllBacked(r.m.components, k)
    ensures Evolves(r.m, OutcomeOf(r, msg, cfg, others), k, root)
  {
    match msg
    case FailedMessage(reasonGiven) => FailedEvolves(r.m, reasonGiven, k, root);
    case WaitMessage(_, b) => DepsMissingEvolves(r.m, b, k, root);
    case CleanupTick => CleanupEvolves(r.m, k, root);
    case _ =>
      var out := OutcomeOf(r, msg, cfg, others);
      StayEvolves(r.m, out.m, out.calls, k, root);
  }

  lemma MessageEvolves(s: State, id: nat, msg: Message, cfg: Config, others: nat, k: Koji)
    requires id < |s.records| && KojiEvolves(s, k) && AllowedMessage(s, id, msg, k)
    requires RecordInv(s.records[id], s.koji, Buildroot(s.koji, id)) && IsPlain(s.records[id].m, msg)
    ensures Evolves(s.records[id].m, OutcomeOf(s.records[id], msg, cfg, others), k, Buildroot(k, id))
  {
    BackedLater(s.records[id].m.components, s, k);
    if msg.BuildMessage? || msg.TagMessage? || msg.RepoMessage? || msg.PausedTick? {
      BusyEvolves(s, id, msg, cfg, others, k);
    } else {
      IdleEvolves(s.records[id], msg, cfg, others, k, Buildroot(k, id));
    }
  }

  /** What is offered is the row of the same package in the other module build. */
  lemma OfferIsCounterpart(m: Module, prev: Module, i: nat)
    requires i < |m.components| && Lookups.Offer(m, prev, i).Some?
    ensures var p := Lookups.Offer(m, prev, i).value;
      p in prev.components && p.package == m.components[i].package && !p.IsMacros()
  {
    Lookups.OfferedIsCounterpart(Lookups.SideOf(m), Lookups.SideOf(prev), m.strategy, m.components[i].package);
  }

  /** The module build that `wait` would reuse from is as the invariant says. */
  lemma SourceIsGood(s: State, id: nat, b: Builder, k: Koji) returns (source: seq<Component>)
    requires id < |s.records| && StateInv(s) && KojiEvolves(s, k) && Answers(s, id, b, k)
    ensures b.previous.Some? ==>
      && b.previous.value < |s.records| && Reusable(s.records[b.previous.value].m)
      && GoodSource(b, s.records[id].m.components, source, k)
  {
    source := [];
    if b.previous.Some? {
      var m, p := s.records[id].m, s.records[b.previous.value];
      source := p.m.components;
      BackedLater(source, s, k);
      if p.m.state == Ready { LastOfTrace(p.m); }
      forall i | 0 <= i < |m.components| && b.reusable(i).Some?
        ensures b.reusable(i).value in source && !b.reusable(i).value.IsMacros()
      {
        OfferIsCounterpart(m, p.m, i);
      }
    }
  }

  /** A late or repeated `done` makes a build ready from any state; it was complete when it was done, and still is. */
  lemma StaleDoneKeepsInv(r: Record, gating: bool, k: Koji, root: set<Nvr>)
    requires RecordInv(r, k, root) && Lifecycle.Done in r.m.trace
    ensures Carried(r, Record(DoneHandler(r.m, gating), r.h), k, root)
  {
    var m' := DoneHandler(r.m, gating);
    if m' != r.m { LastOfTrace(m'); }
  }

  /** What a step must establish of the row it changes. */
  predicate Carried(r: Record, r': Record, k: Koji, root: set<Nvr>) {
    && RecordInv(r', k, root)
    && (Reusable(r.m) ==> Reusable(r'.m)) && (LeftInit(r.m) ==> LeftInit(r'.m))
  }

  lemma PlainIsCarried(s: State, id: nat, msg: Message, cfg: Config, others: nat, k: Koji)
    requires id < |s.records| && StateInv(s) && KojiEvolves(s, k) && AllowedMessage(s, id, msg, k)
    requires IsPlain(s.records[id].m, msg)
    ensures Carried(s.records[id], StepRecord(s.records[id], msg, cfg, others), k, Buildroot(k, id))
  {
    var r := s.records[id];
    MessageEvolves(s, id, msg, cfg, others, k);
    EvolvesKeepsInv(r, OutcomeOf(r, msg, cfg, others), s.koji, k, Buildroot(s.koji, id), Buildroot(k, id));
  }

  lemma WaitIsCarried(s: State, id: nat, b: Builder, cfg: Config, others: nat, k: Koji)
    requires id < |s.records| && StateInv(s) && KojiEvolves(s, k) && Answers(s, id, b, k)
    requires RecordInv(s.records[id], k, Buildroot(k, id))
    ensures Carried(s.records[id], StepRecord(s.records[id], WaitMessage(true, b), cfg, others), k, Buildroot(k, id))
  {
    var r := s.records[id];
    var source := SourceIsGood(s, id, b, k);
    WaitPassesNothing(r.m, true, b);
    WaitKeepsInv(r, StepRecord(r, WaitMessage(true, b), cfg, others).h, b, source, k, Buildroot(k, id));
  }

  lemma NoCallsForget(h: History)
    ensures Remember(h, []) == h
  {}

  lemma InitIsCarried(r: Record, valid: bool, cfg: Config, others: nat, k: Koji, root: set<Nvr>)
    requires RecordInv(r, k, root)
    ensures Carried(r, StepRecord(r, InitMessage(valid), cfg, others), k, root)
  {
    NoCallsForget(r.h);
    InitKeepsInv(r, valid, k, root);
  }

  lemma StaleDoneIsCarried(r: Record, gating: bool, cfg: Config, others: nat, k: Koji, root: set<Nvr>)
    requires RecordInv(r, k, root) && Lifecycle.Done in r.m.trace
    ensures Carried(r, StepRecord(r, DoneMessage(gating), cfg, others), k, root)
  {
    NoCallsForget(r.h);
    StaleDoneKeepsInv(r, gating, k, root);
  }

  lemma ResubmitIsCarried(r: Record, cfg: Config, others: nat, k: Koji, root: set<Nvr>)
    requires RecordInv(r, k, root) && r.m.state == Lifecycle.Failed
    ensures Carried(r, StepRecord(r, ResubmitRequest, cfg, others), k, root)
  {
    ResubmitKeepsInv(r, StepRecord(r, ResubmitRequest, cfg, others).h, k, root);
  }

  lemma SpecialIsCarried(s: State, id: nat, msg: Message, cfg: Config, others: nat, k: Koji)
    requires id < |s.records| && StateInv(s) && KojiEvolves(s, k) && AllowedMessage(s, id, msg, k)
    requires RecordInv(s.records[id], k, Buildroot(k, id)) && !IsPlain(s.records[id].m, msg)
    ensures Carried(s.records[id], StepRecord(s.records[id], msg, cfg, others), k, Buildroot(k, id))
  {
    var r, root := s.records[id], Buildroot(k, id);
    match msg
    case InitMessage(valid) => InitIsCarried(r, valid, cfg, others, k, root);
    case DoneMessage(gating) => StaleDoneIsCarried(r, gating, cfg, others, k, root);
    case ResubmitRequest => ResubmitIsCarried(r, cfg, others, k, root);
    case WaitMessage(_, b) => WaitIsCarried(s, id, b, cfg, others, k);
  }

  lemma StepKeepsRecord(s: State, id: nat, msg: Message, cfg: Config, others: nat, k: Koji)
    requires id < |s.records| && StateInv(s) && KojiEvolves(s, k) && AllowedMessage(s, id, msg, k)
    ensures Carried(s.records[id], StepRecord(s.records[id], msg, cfg, others), k, Buildroot(k, id))
  {
    if IsPlain(s.records[id].m, msg) {
      PlainIsCarried(s, id, msg, cfg, others, k);
    } else {
      OthersKeepInv(s, k, id);
      SpecialIsCarried(s, id, msg, cfg, others, k);
    }
  }

  lemma StepKeepsSource(s: State, id: nat, msg: Message, cfg: Config, others: nat, k: Koji)
    requires id < |s.records| && StateInv(s) && KojiEvolves(s, k) && AllowedMessage(s, id, msg, k)
    ensures var j := StepRecord(s.records[id], msg, cfg, others).m.reusedModule;
      j.Some? ==> j.value < |s.records| && Reusable(s.records[j.value].m)
  {
    OutcomeSource(s.records[id], msg, cfg, others);
    if BuilderOf(msg).Some? {
      var source := SourceIsGood(s, id, BuilderOf(msg).value, k);
    }
  }

  lemma OthersKeepInv(s: State, k: Koji, id: nat)
    requires id < |s.records| && StateInv(s) && KojiEvolves(s, k)
    ensures RecordInv(s.records[id], k, Buildroot(k, id))
  {
    TimePasses(s.records[id], s, k, Buildroot(s.koji, id), Buildroot(k, id));
  }

  /** One step of the service, whatever the message, keeps the invariant of every module build. */
  lemma StepKeepsInv(s: State, e: Event, cfg: Config, k: Koji)
    requires StateInv(s) && Allowed(s, e, k)
    ensures StateInv(Step(s, e, cfg, k))
  {
    forall j | 0 <= j < |s.records| ensures RecordInv(s.records[j], k, Buildroot(k, j)) { OthersKeepInv(s, k, j); }
    match e
    case KojiMoves =>
    case SubmitModule(mmd, strategy, scratch, previous) => SubmitKeepsInv(s, e, cfg, k);
    case Handle(id, msg) =>
      if id < |s.records| { HandleKeepsInv(s, id, msg, cfg, Others(s.records, id), k); }
  }

  lemma HandleKeepsInv(s: State, id: nat, msg: Message, cfg: Config, others: nat, k: Koji)
    requires id < |s.records| && StateInv(s) && KojiEvolves(s, k) && AllowedMessage(s, id, msg, k)
    requires forall j :: 0 <= j < |s.records| ==> RecordInv(s.records[j], k, Buildroot(k, j))
    ensures StateInv(State(s.records[id := StepRecord(s.records[id], msg, cfg, others)], k))
  {
    var r := StepRecord(s.records[id], msg, cfg, others);
    StepKeepsRecord(s, id, msg, cfg, others, k);
    StepKeepsSource(s, id, msg, cfg, others, k);
    ReplacingKeepsInv(s, id, r, k);
  }

  lemma ReplacingKeepsInv(s: State, id: nat, r: Record, k: Koji)
    requires id < |s.records| && StateInv(s)
    requires forall j :: 0 <= j < |s.records| ==> RecordInv(s.records[j], k, Buildroot(k, j))
    requires RecordInv(r, k, Buildroot(k, id)) && (Reusable(s.records[id].m) ==> Reusable(r.m))
    requires r.m.reusedModule.Some? ==>
      r.m.reusedModule.value < |s.records| && Reusable(s.records[r.m.reusedModule.value].m)
    ensures StateInv(State(s.records[id := r], k))
  {
    var s' := State(s.records[id := r], k);
    forall j | 0 <= j < |s.records| && Reusable(s.records[j].m) ensures Reusable(s'.records[j].m) {}
  }

  lemma NewModuleInv(m: Module, k: Koji, root: set<Nvr>)
    requires m.state == Init && m.trace == [Init] && m.components == [] && m.batch == 0 && NoRpmNamedMacros(m.mmd)
    ensures RecordInv(Record(m, History({}, {}, 0)), k, root)
  {
    LastOfTrace(m);
  }

  lemma AppendingKeepsInv(s: State, r: Record, k: Koji)
    requires StateInv(s) && RecordInv(r, k, Buildroot(k, |s.records|))
    requires forall j :: 0 <= j < |s.records| ==> RecordInv(s.records[j], k, Buildroot(k, j))
    requires r.m.reusedModule.Some? ==>
      r.m.reusedModule.value < |s.records| && Reusable(s.records[r.m.reusedModule.value].m)
    ensures StateInv(State(s.records + [r], k))
  {
    var records := s.records + [r];
    forall j | 0 <= j < |s.records| ensures records[j] == s.records[j] {}
  }

  lemma SubmitKeepsInv(s: State, e: Event, cfg: Config, k: Koji)
    requires StateInv(s) && Allowed(s, e, k) && e.SubmitModule?
    requires forall j :: 0 <= j < |s.records| ==> RecordInv(s.records[j], k, Buildroot(k, j))
    ensures StateInv(Step(s, e, cfg, k))
  {
    var m := NewModule(e.mmd, e.strategy, e.scratch, e.reusedModule);
    NewModuleInv(m, k, Buildroot(k, |s.records|));
    if e.reusedModule.Some? { LastOfTrace(s.records[e.reusedModule.value].m); }
    AppendingKeepsInv(s, Record(m, History({}, {}, 0)), k);
  }

  lemma {:induction false} RunsKeepInv(run: Run, cfg: Config, t: nat)
    requires IsRun(run, cfg) && t < |run.states|
    ensures StateInv(run.states[t])
  {
    if t > 0 {
      RunsKeepInv(run, cfg, t - 1);
      assert Happens(run, t - 1, cfg);
      StepKeepsInv(run.states[t - 1], run.events[t - 1].e, cfg, run.events[t - 1].koji);
    }
  }

  /** What is known of step `t` of a run. */
  lemma StepOfRun(run: Run, cfg: Config, t: nat)
    requires IsRun(run, cfg) && t < |run.events|
    ensures StateInv(run.states[t]) && Allowed(run.states[t], run.events[t].e, run.events[t].koji)
    ensures run.states[t + 1] == Step(run.states[t], run.events[t].e, cfg, run.events[t].koji)
  {
    RunsKeepInv(run, cfg, t);
    assert Happens(run, t, cfg);
  }

  /** Built, or module-build-macros of a module build in which everything else is built. */
  predicate BuiltOrExempt(cs: seq<Component>, i: nat)
    requires i < |cs|
  {
    cs[i].IsCompleted() || (cs[i].IsMacros() && forall j :: 0 <= j < |cs| && !cs[j].IsMacros() ==> cs[j].IsCompleted())
  }

  /** `d` got a task at some time, and belongs to a later batch than `c`. */
  predicate StartedAfter(d: Component, c: Component) {
    d.task.Some? && c.batch < d.batch
  }

  /**
   The batch invariant over all runs: whatever the order of events, with stale and repeated messages,
   failures, cancels, resubmissions, recovery and reuse, a module build that is done or ready is complete;
   and if no RPM of its modulemd comes after an included modulemd without components, every component below
   the current batch is complete, and a component that ever got a task has only complete components in
   smaller batches.
   */
  lemma BatchInvariantOfRuns(run: Run, cfg: Config, t: nat, id: nat, i: nat)
    requires IsRun(run, cfg) && t < |run.states| && id < |run.states[t].records|
    requires i < |run.states[t].records[id].m.components|
    ensures var m := run.states[t].records[id].m;
      && (m.state == Lifecycle.Done || m.state == Ready ==> BuiltOrExempt(m.components, i))
      && (PlanningSuccess.NoRpmAfterEmpty(m.mmd) ==>
           && (m.components[i].batch < m.batch ==> BuiltOrExempt(m.components, i))
           && (forall j :: 0 <= j < |m.components| && StartedAfter(m.components[j], m.components[i]) ==>
                BuiltOrExempt(m.components, i)))
  {
    RunsKeepInv(run, cfg, t);
    var m := run.states[t].records[id].m;
    assert RecordInv(run.states[t].records[id], run.states[t].koji, Buildroot(run.states[t].koji, id));
    if Numbered(m) {
      forall j | 0 <= j < |m.components| && StartedAfter(m.components[j], m.components[i])
        ensures BuiltOrExempt(m.components, i)
      {
        assert BelowBuilt(m.components, m.components[j].batch);
      }
    }
  }
}
