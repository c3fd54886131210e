/** The life cycle of a module build, read off its state trace. */
module LifeCycle {
  import opened Wrappers
  import opened Records
  import opened Handlers
  import opened World
  import opened BatchInvariant
  import opened HandlerSteps
  import opened WorldInvariant

  /** Every change in the trace is one the service means to make. */
  predicate EdgesOnly(trace: seq<Lifecycle>) {
    forall j :: 0 <= j < |trace| - 1 ==> Edge(trace[j], trace[j + 1])
  }

  lemma LifeStepKeepsEdges(m: Module, m': Module)
    requires TraceEnds(m) && LifeStep(m, m')
    ensures EdgesOnly(m'.trace) <==> EdgesOnly(m.trace)
  {
    var t, t' := m.trace, m'.trace;
    assert forall j :: 0 <= j < |t| ==> t'[j] == t[j];
    if EdgesOnly(t) {
      forall j | 0 <= j < |t'| - 1 ensures Edge(t'[j], t'[j + 1]) {}
    }
    if EdgesOnly(t') {
      forall j | 0 <= j < |t| - 1 ensures Edge(t[j], t[j + 1]) { assert Edge(t'[j], t'[j + 1]); }
    }
  }

  /** What keeps `wait` from starting the build: module-build-macros is needed, is not found, and cannot be submitted. */
  predicate CannotStart(m: Module, b: Builder) {
    && m.components != [] && (b.previous == None || AnyNotReusable(m.components, b))
    && var i := MacrosIndex(WithMacros(m.components));
       !WithMacros(m.components)[i].IsCompleted() && b.orphan(i) == None && b.submit(i) == Raised
  }

  lemma StartOutcome(m: Module, b: Builder)
    requires m.components != [] && !ReuseAll(m.(kojiTag := true), b).reused
    ensures var m' := WaitHandler(m, true, b).m;
      m'.state == (if CannotStart(m, b) then Lifecycle.Failed else Lifecycle.Build) && m'.trace == m.trace + [m'.state]
  {
    var started := ReuseAll(m.(kojiTag := true), b).outcome.m.(batch := 1, components := WithMacros(m.components));
    assert SubmitMacros(started, b).Failure? <==> CannotStart(m, b);
  }

  /** `wait` appends exactly one state: failed if it cannot start the build, else build. */
  lemma WaitOutcome(m: Module, b: Builder)
    ensures var m' := WaitHandler(m, true, b).m;
      m'.state == (if CannotStart(m, b) then Lifecycle.Failed else Lifecycle.Build) && m'.trace == m.trace + [m'.state]
  {
    var tagged := m.(kojiTag := true);
    assert ReuseAll(tagged, b).reused <==> b.previous.Some? && !AnyNotReusable(m.components, b);
    if m.components != [] && !ReuseAll(tagged, b).reused { StartOutcome(m, b); }
  }

  /** Handling `wait` in a state other than the one it announces breaks the life cycle exactly when it starts the build. */
  lemma WaitIsLifeStepIff(m: Module, b: Builder)
    ensures LifeStep(m, WaitHandler(m, true, b).m) <==> m.state == Wait || CannotStart(m, b)
  {
    WaitOutcome(m, b);
  }

  /** A `done` that makes the build ready fits the life cycle exactly when the build is done. */
  lemma DoneIsLifeStepIff(m: Module, gating: bool)
    ensures LifeStep(m, DoneHandler(m, gating)) <==> m.state == Lifecycle.Done || m.scratch || !gating
  {}

  /** The messages that keep to the life cycle: fresh ones, and stale ones that do not start or finish the build. */
  predicate Fits(m: Module, msg: Message) {
    match msg
    case WaitMessage(depsFound, b) => depsFound ==> m.state == Wait || CannotStart(m, b)
    case DoneMessage(gating) => m.state == Lifecycle.Done || m.scratch || !gating
    case _ => true
  }

  predicate EventFits(s: State, e: Event) {
    e.Handle? && e.id < |s.records| ==> Fits(s.records[e.id].m, e.msg)
  }

  lemma FreshFits(s: State, e: Event)
    requires FreshEvent(s, e)
    ensures EventFits(s, e)
  {}

  lemma EvolvesIsLifeStep(m: Module, out: Outcome, k: Koji, root: set<Nvr>)
    requires Evolves(m, out, k, root)
    ensures LifeStep(m, out.m)
  {}

  lemma InitIsLifeStep(m: Module, valid: bool)
    ensures LifeStep(m, InitHandler(m, valid))
  {}

  lemma ResubmitIsLifeStep(m: Module)
    ensures LifeStep(m, Resubmit(m))
  {}

  lemma SpecialIsLifeStep(r: Record, msg: Message, cfg: Config, others: nat)
    requires !IsPlain(r.m, msg) && Fits(r.m, msg)
    ensures LifeStep(r.m, OutcomeOf(r, msg, cfg, others).m)
  {
    match msg
    case InitMessage(valid) => InitIsLifeStep(r.m, valid);
    case WaitMessage(_, b) => WaitIsLifeStepIff(r.m, b);
    case DoneMessage(gating) => DoneIsLifeStepIff(r.m, gating);
    case ResubmitRequest => ResubmitIsLifeStep(r.m);
  }

  /** A message that fits makes at most one change of the life cycle, and then at most fails the build. */
  lemma FittingIsLifeStep(s: State, id: nat, msg: Message, cfg: Config, others: nat, k: Koji)
    requires id < |s.records| && StateInv(s) && KojiEvolves(s, k) && AllowedMessage(s, id, msg, k)
    requires Fits(s.records[id].m, msg)
    ensures LifeStep(s.records[id].m, OutcomeOf(s.records[id], msg, cfg, others).m)
  {
    var r := s.records[id];
    if IsPlain(r.m, msg) {
      MessageEvolves(s, id, msg, cfg, others, k);
      EvolvesIsLifeStep(r.m, OutcomeOf(r, msg, cfg, others), k, Buildroot(k, id));
    } else {
      SpecialIsLifeStep(r, msg, cfg, others);
    }
  }

  lemma WrongEdgeStays(m: Module, t: seq<Lifecycle>, x: Lifecycle)
    requires TraceEnds(m) && t == m.trace + [x] && !Edge(m.state, x)
    ensures !EdgesOnly(t)
  {
    assert t[|m.trace| - 1] == m.state && t[|m.trace|] == x;
  }

  /** One that does not leaves a change in the trace that is none. */
  lemma UnfitBreaks(r: Record, msg: Message, cfg: Config, others: nat)
    requires TraceEnds(r.m) && !Fits(r.m, msg)
    ensures !EdgesOnly(OutcomeOf(r, msg, cfg, others).m.trace)
  {
    if msg.WaitMessage? {
      WaitOutcome(r.m, msg.b);
      WrongEdgeStays(r.m, WaitHandler(r.m, true, msg.b).m.trace, Lifecycle.Build);
    } else {
      WrongEdgeStays(r.m, DoneHandler(r.m, msg.gating).trace, Ready);
    }
  }

  lemma MessageEdgesIff(s: State, id: nat, msg: Message, cfg: Config, others: nat, k: Koji)
    requires id < |s.records| && StateInv(s) && KojiEvolves(s, k) && AllowedMessage(s, id, msg, k)
    ensures EdgesOnly(OutcomeOf(s.records[id], msg, cfg, others).m.trace) <==>
      EdgesOnly(s.records[id].m.trace) && Fits(s.records[id].m, msg)
  {
    if Fits(s.records[id].m, msg) {
      FittingIsLifeStep(s, id, msg, cfg, others, k);
      LifeStepKeepsEdges(s.records[id].m, OutcomeOf(s.records[id], msg, cfg, others).m);
    } else {
      UnfitBreaks(s.records[id], msg, cfg, others);
    }
  }

  predicate AllEdges(s: State) {
    forall id :: 0 <= id < |s.records| ==> EdgesOnly(s.records[id].m.trace)
  }

  lemma EventEdgesIff(s: State, e: Event, cfg: Config, k: Koji)
    requires StateInv(s) && Allowed(s, e, k)
    ensures AllEdges(Step(s, e, cfg, k)) <==> AllEdges(s) && EventFits(s, e)
  {
    var s' := Step(s, e, cfg, k);
    match e
    case Handle(id, msg) =>
      if id < |s.records| {
        MessageEdgesIff(s, id, msg, cfg, Others(s.records, id), k);
        ReplacedEdges(s, id, s'.records[id]);
      }
    case SubmitModule(_, _, _, _) => AppendedEdges(s, s'.records[|s.records|]);
    case _ =>
  }

  lemma ReplacedEdges(s: State, id: nat, r: Record)
    requires id < |s.records| && (EdgesOnly(r.m.trace) ==> EdgesOnly(s.records[id].m.trace))
    ensures AllEdges(s.(records := s.records[id := r])) <==> AllEdges(s) && EdgesOnly(r.m.trace)
  {
    var records := s.records[id := r];
    forall n | 0 <= n < |records| && n != id ensures records[n] == s.records[n] {}
    assert records[id] == r;
  }

  lemma AppendedEdges(s: State, r: Record)
    requires r.m.trace == [Init]
    ensures AllEdges(s.(records := s.records + [r])) <==> AllEdges(s)
  {
    var records := s.records + [r];
    forall n | 0 <= n < |s.records| ensures records[n] == s.records[n] {}
  }

  /** Every message handled before time `t` fitted the build it was handled for. */
  predicate AllFit(run: Run, t: nat)
    requires t <= |run.events| && t <= |run.states|
  {
    forall u :: 0 <= u < t ==> EventFits(run.states[u], run.events[u].e)
  }

  lemma InvEndsTraces(s: State)
    requires StateInv(s)
    ensures forall id :: 0 <= id < |s.records| ==> TraceEnds(s.records[id].m)
  {
    forall id | 0 <= id < |s.records| ensures TraceEnds(s.records[id].m) {
      assert RecordInv(s.records[id], s.koji, Buildroot(s.koji, id));
    }
  }

  lemma StepEdgesIff(run: Run, cfg: Config, t: nat)
    requires IsRun(run, cfg) && t < |run.events|
    ensures AllEdges(run.states[t + 1]) <==> AllEdges(run.states[t]) && EventFits(run.states[t], run.events[t].e)
  {
    StepOfRun(run, cfg, t);
    EventEdgesIff(run.states[t], run.events[t].e, cfg, run.events[t].koji);
  }

  lemma {:induction false} EdgesIffAllFit(run: Run, cfg: Config, t: nat)
    requires IsRun(run, cfg) && t < |run.states|
    ensures AllEdges(run.states[t]) <==> AllFit(run, t)
  {
    if t > 0 {
      EdgesIffAllFit(run, cfg, t - 1);
      StepEdgesIff(run, cfg, t - 1);
      assert AllFit(run, t) <==> AllFit(run, t - 1) && EventFits(run.states[t - 1], run.events[t - 1].e);
    }
  }

  /**
   In every run the traces hold nothing but edges of the life cycle (init, wait, build, done, ready, from
   anywhere to failed, from failed to garbage by cleanup or to init or wait by resubmission) if and only
   if every message handled so far fitted; and each trace ends in the state of its module build.
   */
  lemma TracesFollowEdgesIff(run: Run, cfg: Config, t: nat)
    requires IsRun(run, cfg) && t < |run.states|
    ensures AllEdges(run.states[t]) <==> forall u :: 0 <= u < t ==> EventFits(run.states[u], run.events[u].e)
    ensures forall id :: 0 <= id < |run.states[t].records| ==> TraceEnds(run.states[t].records[id].m)
  {
    EdgesIffAllFit(run, cfg, t);
    RunsKeepInv(run, cfg, t);
    InvEndsTraces(run.states[t]);
  }

  /** In particular without stale `wait` and `done` messages; `failed` messages may be stale. */
  lemma FreshTracesFollowEdges(run: Run, cfg: Config, t: nat)
    requires IsFreshRun(run, cfg) && t < |run.states|
    ensures AllEdges(run.states[t])
  {
    TracesFollowEdgesIff(run, cfg, t);
    forall u | 0 <= u < t ensures EventFits(run.states[u], run.events[u].e) {
      FreshFits(run.states[u], run.events[u].e);
    }
  }

  lemma BuildStaysFailed(r: Record, msg: Message, cfg: Config, others: nat)
    requires r.m.state == Lifecycle.Failed && msg.BuildMessage?
    ensures OutcomeOf(r, msg, cfg, others).m.state == Lifecycle.Failed
  {
    if msg.index < |r.m.components| {
      FinalizeSpares(r.m, msg.index, msg.state, msg.nvr, cfg, others, msg.b);
    }
  }

  /** The messages that leave a failed build failed, whatever else they find. */
  lemma QuietStaysFailed(r: Record, msg: Message, cfg: Config, others: nat)
    requires r.m.state == Lifecycle.Failed
    requires !msg.BuildMessage? && !msg.WaitMessage? && !msg.DoneMessage? && !msg.CleanupTick? && !msg.ResubmitRequest?
    ensures OutcomeOf(r, msg, cfg, others).m.state == Lifecycle.Failed
  {}

  lemma MayLeaveFailed(r: Record, msg: Message, cfg: Config, others: nat)
    requires r.m.state == Lifecycle.Failed
    requires msg.WaitMessage? || msg.DoneMessage? || msg.CleanupTick? || msg.ResubmitRequest?
    ensures var t := OutcomeOf(r, msg, cfg, others).m.state;
      && (msg.CleanupTick? ==> t == Garbage)
      && (msg.ResubmitRequest? ==> t == Init || t == Wait)
      && (msg.WaitMessage? ==> t == if Fits(r.m, msg) then Lifecycle.Failed else Lifecycle.Build)
      && (msg.DoneMessage? ==> t == if Fits(r.m, msg) then Lifecycle.Failed else Ready)
  {
    if msg.WaitMessage? { WaitOutcome(r.m, msg.b); }
  }

  /** Failed is left by resubmission, for init or wait, by cleanup, for garbage, and by a message that does not fit. */
  lemma FailedIsLeftBy(r: Record, msg: Message, cfg: Config, others: nat)
    requires r.m.state == Lifecycle.Failed
    ensures var t := OutcomeOf(r, msg, cfg, others).m.state;
      && (t == Garbage <==> msg.CleanupTick?)
      && (t == Init || t == Wait <==> msg.ResubmitRequest?)
      && (t != Lifecycle.Failed <==> msg.CleanupTick? || msg.ResubmitRequest? || !Fits(r.m, msg))
  {
    if msg.WaitMessage? || msg.DoneMessage? || msg.CleanupTick? || msg.ResubmitRequest? {
      MayLeaveFailed(r, msg, cfg, others);
    } else if msg.BuildMessage? {
      BuildStaysFailed(r, msg, cfg, others);
    } else {
      QuietStaysFailed(r, msg, cfg, others);
    }
  }

  // ---- init is never entered again ----

  /** Init is only ever preceded by init and failed. */
  predicate NeverBack(trace: seq<Lifecycle>) {
    forall i, j :: 0 <= i < j < |trace| && trace[j] == Init ==> trace[i] == Init || trace[i] == Lifecycle.Failed
  }

  lemma {:induction false} OnlyInitAndFailed(trace: seq<Lifecycle>)
    requires NeverBack(trace) && PreviousNonFailed(trace) == Some(Init)
    ensures forall i :: 0 <= i < |trace| ==> trace[i] == Init || trace[i] == Lifecycle.Failed
    decreases |trace|
  {
    if trace[|trace| - 1] == Lifecycle.Failed {
      var shorter := trace[..|trace| - 1];
      OnlyInitAndFailed(shorter);
      assert forall i :: 0 <= i < |shorter| ==> trace[i] == shorter[i];
    }
  }

  /** A step appends init only where the last state that is not failed is init. */
  predicate InitOnlyFromInit(t: seq<Lifecycle>, t': seq<Lifecycle>) {
    && |t| <= |t'| && t'[..|t|] == t
    && (forall j :: |t| <= j < |t'| && t'[j] == Init ==> |t'| == |t| + 1 && PreviousNonFailed(t) == Some(Init))
  }

  lemma InitOnlyFromInitKeeps(t: seq<Lifecycle>, t': seq<Lifecycle>)
    requires NeverBack(t) && InitOnlyFromInit(t, t')
    ensures NeverBack(t')
  {
    forall i, j | 0 <= i < j < |t'| && t'[j] == Init ensures t'[i] == Init || t'[i] == Lifecycle.Failed {
      assert i < |t|;
      assert t'[i] == t[i];
      if j < |t| {
        assert t'[j] == t[j];
      } else {
        OnlyInitAndFailed(t);
      }
    }
  }

  lemma EvolvesEntersInit(m: Module, out: Outcome, k: Koji, root: set<Nvr>)
    requires Evolves(m, out, k, root)
    ensures InitOnlyFromInit(m.trace, out.m.trace)
  {}

  /** At most one state is appended, and init only where the last state that is not failed is init. */
  predicate AppendsOne(t: seq<Lifecycle>, t': seq<Lifecycle>, x: Lifecycle) {
    t' == t || (t' == t + [x] && (x == Init ==> PreviousNonFailed(t) == Some(Init)))
  }

  lemma AppendedEntersInit(t: seq<Lifecycle>, t': seq<Lifecycle>, x: Lifecycle)
    requires AppendsOne(t, t', x)
    ensures InitOnlyFromInit(t, t')
  {}

  lemma InitAppendsOne(m: Module, valid: bool)
    ensures var m' := InitHandler(m, valid); AppendsOne(m.trace, m'.trace, m'.state)
  {}

  lemma DoneAppendsOne(m: Module, gating: bool)
    ensures var m' := DoneHandler(m, gating); AppendsOne(m.trace, m'.trace, m'.state)
  {}

  lemma ResubmitAppendsOne(m: Module)
    ensures var m' := Resubmit(m); AppendsOne(m.trace, m'.trace, m'.state)
  {}

  lemma SpecialAppendsOne(r: Record, msg: Message, cfg: Config, others: nat)
    requires !IsPlain(r.m, msg)
    ensures var m' := OutcomeOf(r, msg, cfg, others).m; AppendsOne(r.m.trace, m'.trace, m'.state)
  {
    match msg
    case InitMessage(valid) => InitAppendsOne(r.m, valid);
    case WaitMessage(_, b) => WaitOutcome(r.m, b);
    case DoneMessage(gating) => DoneAppendsOne(r.m, gating);
    case ResubmitRequest => ResubmitAppendsOne(r.m);
  }

  lemma MessageEntersInit(s: State, id: nat, msg: Message, cfg: Config, others: nat, k: Koji)
    requires id < |s.records| && StateInv(s) && KojiEvolves(s, k) && AllowedMessage(s, id, msg, k)
    ensures InitOnlyFromInit(s.records[id].m.trace, OutcomeOf(s.records[id], msg, cfg, others).m.trace)
  {
    var r, out := s.records[id], OutcomeOf(s.records[id], msg, cfg, others);
    if IsPlain(r.m, msg) {
      MessageEvolves(s, id, msg, cfg, others, k);
      EvolvesEntersInit(r.m, out, k, Buildroot(k, id));
    } else {
      SpecialAppendsOne(r, msg, cfg, others);
      AppendedEntersInit(r.m.trace, out.m.trace, out.m.state);
    }
  }

  predicate NeverBackAnywhere(s: State) {
    forall id :: 0 <= id < |s.records| ==> NeverBack(s.records[id].m.trace)
  }

  lemma EventKeepsNeverBack(s: State, e: Event, cfg: Config, k: Koji)
    requires StateInv(s) && Allowed(s, e, k) && NeverBackAnywhere(s)
    ensures NeverBackAnywhere(Step(s, e, cfg, k))
  {
    match e
    case Handle(id, msg) =>
      if id < |s.records| {
        MessageEntersInit(s, id, msg, cfg, Others(s.records, id), k);
        InitOnlyFromInitKeeps(s.records[id].m.trace,
                              OutcomeOf(s.records[id], msg, cfg, Others(s.records, id)).m.trace);
      }
    case _ =>
  }

  /**
   In every run, with stale messages or not, a module build that was once in a state other than init and
   failed is never in init again, through any number of resubmissions.
   */
  lemma {:induction false} NeverBackToInit(run: Run, cfg: Config, t: nat)
    requires IsRun(run, cfg) && t < |run.states|
    ensures NeverBackAnywhere(run.states[t])
  {
    if t > 0 {
      NeverBackToInit(run, cfg, t - 1);
      StepOfRun(run, cfg, t - 1);
      EventKeepsNeverBack(run.states[t - 1], run.events[t - 1].e, cfg, run.events[t - 1].koji);
    }
  }
}
