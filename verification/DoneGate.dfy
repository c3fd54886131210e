/** When a module build reaches done: everything is built, and when everything is tagged. */
module DoneGate {
  import opened Wrappers
  import opened Records
  import opened Batches
  import opened Handlers
  import opened World
  import opened SkipRecursion
  import opened BatchInvariant
  import opened HandlerSteps
  import opened WorldInvariant
  import Planning
  import Numbering
  import Reuse

  predicate AllComplete(cs: seq<Component>) {
    forall i :: 0 <= i < |cs| ==> cs[i].IsCompleted()
  }

  predicate AllTagged(cs: seq<Component>) {
    forall i :: 0 <= i < |cs| ==> cs[i].IsTagged()
  }

  predicate TaggedAbove(m: Module) {
    forall i :: 0 <= i < |m.components| && m.components[i].batch > m.batch ==> m.components[i].IsTagged()
  }

  /** The gate looks at tags up to the current batch only: exactly what lies above it may be untagged. */
  lemma FinishTaggedIff(m: Module, b: Builder)
    requires DecideRepo(m, b) == Finish
    ensures AllTagged(m.components) <==> TaggedAbove(m)
  {
    FinishIsComplete(m, b);
    if m.components != [] {
      assert m.AnyCompletedInBatch();
      assert !m.AnyUntaggedSoFar();
    }
  }

  lemma FinishStep(m: Module, b: Builder, cfg: Config, others: nat)
    requires DecideRepo(m, b) == Finish
    ensures RepoDone(m, cfg, others, b) == Success(Outcome(m.Transition(Lifecycle.Done), []))
  {}

  // ---- in a run with one build round ----

  /** Nothing above the current batch was ever given a task; before the first `wait`, nothing is placed at all. */
  predicate OneRound(r: Record) {
    && (r.h.rounds <= 1 ==>
         forall i :: 0 <= i < |r.m.components| && r.m.components[i].batch > r.m.batch ==> r.m.components[i].task == None)
    && (r.h.rounds == 0 ==> r.m.batch == 0 && !HasMacros(r.m.components))
  }

  lemma EvolvesKeepsOneRound(r: Record, out: Outcome, k: Koji, root: set<Nvr>)
    requires OneRound(r) && Evolves(r.m, out, k, root)
    ensures OneRound(Record(out.m, Remember(r.h, out.calls)))
  {
    var cs, ds := r.m.components, out.m.components;
    assert forall i :: 0 <= i < |cs| ==> Progress(cs[i], ds[i], out.m.batch, k);
    forall i | r.h.rounds <= 1 && 0 <= i < |ds| && ds[i].batch > out.m.batch ensures ds[i].task == None {
      assert Progress(cs[i], ds[i], out.m.batch, k);
    }
  }

  lemma InitKeepsOneRound(r: Record, valid: bool)
    requires OneRound(r) && TraceEnds(r.m) && NoRpmNamedMacros(r.m.mmd)
    requires !LeftInit(r.m) ==> r.m.components == [] && r.m.batch == 0
    ensures OneRound(Record(InitHandler(r.m, valid), r.h))
  {
    if r.m.state == Init {
      LastOfTrace(r.m);
      if Planning.RecordComponentBuilds(r.m.mmd, []).Success? {
        Numbering.RecordModuleAddsFresh(r.m.mmd, None, [], Some(1), None, 2);
      }
    }
  }

  /** The first `wait` starts the first round. */
  lemma FirstWaitKeepsOneRound(r: Record, h: History, b: Builder, k: Koji)
    requires OneRound(r) && r.h.rounds == 0 && BaseInv(r.m, k) && Planned(r.m) && Sound(b, k)
    ensures OneRound(Record(WaitHandler(r.m, true, b).m, h.(rounds := 1)))
  {
    var m := r.m;
    if m.components != [] {
      if ReuseAll(m.(kojiTag := true), b).reused {
        Reuse.LastReusedIsMaximum(m.components, m.batch);
      } else {
        WaitStarts(m, b, k);
        StartedOneRound(m, WaitHandler(m, true, b).m, k);
      }
    }
  }

  lemma StartedOneRound(m: Module, m': Module, k: Koji)
    requires forall i :: 0 <= i < |m.components| && m.components[i].batch > m.batch ==> m.components[i].task == None
    requires m.batch == 0 && AllProgress(WithMacros(m.components), m'.components, 1, k) && m'.batch == 1
    ensures forall i :: 0 <= i < |m'.components| && m'.components[i].batch > 1 ==> m'.components[i].task == None
  {
    forall i | 0 <= i < |m'.components| && m'.components[i].batch > 1 ensures m'.components[i].task == None {
      assert Progress(WithMacros(m.components)[i], m'.components[i], 1, k);
    }
  }

  lemma WaitKeepsOneRound(r: Record, b: Builder, cfg: Config, others: nat, k: Koji)
    requires OneRound(r) && BaseInv(r.m, k) && Planned(r.m) && Sound(b, k)
    ensures OneRound(StepRecord(r, WaitMessage(true, b), cfg, others))
  {
    if r.h.rounds == 0 {
      FirstWaitKeepsOneRound(r, StepRecord(r, WaitMessage(true, b), cfg, others).h, b, k);
    }
  }

  lemma ResubmitKeepsOneRound(r: Record, cfg: Config, others: nat)
    requires OneRound(r) && r.m.state == Lifecycle.Failed
    ensures OneRound(StepRecord(r, ResubmitRequest, cfg, others))
  {}

  lemma SpecialKeepsOneRound(s: State, id: nat, msg: Message, cfg: Config, others: nat, k: Koji)
    requires id < |s.records| && AllowedMessage(s, id, msg, k) && !IsPlain(s.records[id].m, msg)
    requires RecordInv(s.records[id], k, Buildroot(k, id)) && OneRound(s.records[id])
    ensures OneRound(StepRecord(s.records[id], msg, cfg, others))
  {
    var r := s.records[id];
    match msg
    case InitMessage(valid) => InitKeepsOneRound(r, valid);
    case ResubmitRequest => ResubmitKeepsOneRound(r, cfg, others);
    case DoneMessage(_) =>
    case WaitMessage(_, b) => WaitKeepsOneRound(r, b, cfg, others, k);
  }

  lemma StepKeepsOneRound(s: State, id: nat, msg: Message, cfg: Config, others: nat, k: Koji)
    requires id < |s.records| && StateInv(s) && KojiEvolves(s, k) && AllowedMessage(s, id, msg, k)
    requires OneRound(s.records[id])
    ensures OneRound(StepRecord(s.records[id], msg, cfg, others))
  {
    var r := s.records[id];
    if IsPlain(r.m, msg) {
      MessageEvolves(s, id, msg, cfg, others, k);
      EvolvesKeepsOneRound(r, OutcomeOf(r, msg, cfg, others), k, Buildroot(k, id));
    } else {
      OthersKeepInv(s, k, id);
      SpecialKeepsOneRound(s, id, msg, cfg, others, k);
    }
  }

  predicate AllOneRound(s: State) {
    forall id :: 0 <= id < |s.records| ==> OneRound(s.records[id])
  }

  lemma NewRecordOneRound(s: State, e: Event, cfg: Config, k: Koji)
    requires AllOneRound(s) && e.SubmitModule?
    ensures AllOneRound(Step(s, e, cfg, k))
  {
    var records := Step(s, e, cfg, k).records;
    assert forall id :: 0 <= id < |s.records| ==> records[id] == s.records[id];
  }

  lemma EventKeepsOneRound(s: State, e: Event, cfg: Config, k: Koji)
    requires StateInv(s) && Allowed(s, e, k) && AllOneRound(s)
    ensures AllOneRound(Step(s, e, cfg, k))
  {
    match e
    case Handle(id, msg) =>
      if id < |s.records| { StepKeepsOneRound(s, id, msg, cfg, Others(s.records, id), k); }
    case SubmitModule(_, _, _, _) => NewRecordOneRound(s, e, cfg, k);
    case KojiMoves =>
  }

  lemma {:induction false} RunsKeepOneRound(run: Run, cfg: Config, t: nat)
    requires IsRun(run, cfg) && t < |run.states|
    ensures AllOneRound(run.states[t])
  {
    if t > 0 {
      RunsKeepOneRound(run, cfg, t - 1);
      StepOfRun(run, cfg, t - 1);
      EventKeepsOneRound(run.states[t - 1], run.events[t - 1].e, cfg, run.events[t - 1].koji);
    }
  }

  // ---- who leads to done ----

  lemma RepoFinishes(r: Record, b: Builder, cfg: Config, others: nat)
    requires r.m.state == Lifecycle.Build && Settle(r, RepoDone(r.m, cfg, others, b)).m.state == Lifecycle.Done
    ensures DecideRepo(r.m, b) == Finish && Settle(r, RepoDone(r.m, cfg, others, b)).m == r.m.Transition(Lifecycle.Done)
  {
    if DecideRepo(r.m, b) == TryNextBatch { SettleSpares(r, cfg, others, b); }
  }

  lemma BusyNeverFinishes(r: Record, msg: Message, cfg: Config, others: nat)
    requires r.m.state != Lifecycle.Done && (msg.BuildMessage? || msg.PausedTick?)
    ensures OutcomeOf(r, msg, cfg, others).m.state != Lifecycle.Done
  {
    match msg
    case BuildMessage(i, _, state, nvr, b) =>
      if i < |r.m.components| { FinalizeSpares(r.m, i, state, nvr, cfg, others, b); }
    case PausedTick(missed, b) => PausedSpares(r, missed, cfg, others, b);
  }

  lemma WaitNeverFinishes(m: Module, depsFound: bool, b: Builder)
    ensures WaitHandler(m, depsFound, b).m.state != Lifecycle.Done
  {}

  lemma QuietNeverFinishes(r: Record, msg: Message, cfg: Config, others: nat)
    requires r.m.state != Lifecycle.Done
    requires !msg.BuildMessage? && !msg.PausedTick? && !msg.RepoMessage? && !msg.WaitMessage?
    ensures OutcomeOf(r, msg, cfg, others).m.state != Lifecycle.Done
  {}

  /** Only the repository handler leads to done, at its last gate. */
  lemma OnlyRepoDoneFinishes(r: Record, msg: Message, cfg: Config, others: nat)
    requires r.m.state != Lifecycle.Done && OutcomeOf(r, msg, cfg, others).m.state == Lifecycle.Done
    ensures msg.RepoMessage? && r.m.state == Lifecycle.Build && DecideRepo(r.m, msg.b) == Finish
    ensures OutcomeOf(r, msg, cfg, others).m == r.m.Transition(Lifecycle.Done)
  {
    if msg.BuildMessage? || msg.PausedTick? {
      BusyNeverFinishes(r, msg, cfg, others);
    } else if msg.WaitMessage? {
      WaitNeverFinishes(r.m, msg.depsFound, msg.b);
    } else if !msg.RepoMessage? {
      QuietNeverFinishes(r, msg, cfg, others);
    } else if r.m.state == Lifecycle.Build {
      RepoFinishes(r, msg.b, cfg, others);
    }
  }

  /**
   In every run, a step that takes a module build to done finds every component complete; and every
   component tagged in the build tag and, unless it is build-time only, in the final tag, if there was
   one build round, that is, neither a resubmission nor a repeated `wait`.
   */
  lemma DoneIsCompleteAndTagged(run: Run, cfg: Config, t: nat, id: nat, msg: Message)
    requires HandlesAt(run, cfg, t, id, msg)
    requires run.states[t].records[id].m.state != Lifecycle.Done
    requires id < |run.states[t + 1].records| && run.states[t + 1].records[id].m.state == Lifecycle.Done
    ensures var m' := run.states[t + 1].records[id].m;
      && AllComplete(m'.components)
      && (run.states[t].records[id].h.rounds <= 1 ==> AllTagged(m'.components))
  {
    var s := run.states[t];
    var r := s.records[id];
    assert Happens(run, t, cfg);
    OnlyRepoDoneFinishes(r, msg, cfg, Others(s.records, id));
    FinishIsComplete(r.m, msg.b);
    if r.h.rounds <= 1 {
      RunsKeepInv(run, cfg, t);
      RunsKeepOneRound(run, cfg, t);
      UntouchedIsIncomplete(r, s.koji);
      FinishTaggedIff(r.m, msg.b);
    }
  }

  lemma UntouchedIsIncomplete(r: Record, k: Koji)
    requires OneRound(r) && r.h.rounds <= 1 && AllBacked(r.m.components, k)
    ensures forall i :: 0 <= i < |r.m.components| && r.m.components[i].batch > r.m.batch ==> !r.m.components[i].IsCompleted()
  {
    forall i | 0 <= i < |r.m.components| && r.m.components[i].batch > r.m.batch
      ensures !r.m.components[i].IsCompleted()
    {
      assert Backed(r.m.components[i], k);
    }
  }
}
