/** Every handler, on the row of one module build, keeps the batch invariant. */
module HandlerSteps {
  import opened Wrappers
  import opened Records
  import opened Batches
  import opened Handlers
  import opened World
  import opened BatchInvariant
  import Planning
  import Numbering

  /** The state changes a handler makes when it sees the record in the state its message announces. */
  predicate Edge(s: Lifecycle, t: Lifecycle) {
    || t == Lifecycle.Failed
    || (s == Init && t == Wait)
    || (s == Wait && t == Lifecycle.Build)
    || (s == Lifecycle.Build && t == Lifecycle.Done)
    || (s == Lifecycle.Done && t == Ready)
    || (s == Lifecycle.Failed && (t == Garbage || t == Init || t == Wait))
  }

  /** The trace grew by one edge followed by failures, or not at all, and ends in the state. */
  predicate LifeStep(m: Module, m': Module) {
    && |m.trace| <= |m'.trace| && m'.trace[..|m.trace|] == m.trace
    && (|m'.trace| == |m.trace| ==> m'.state == m.state)
    && (|m'.trace| > |m.trace| ==>
         Edge(m.state, m'.trace[|m.trace|]) && m'.state == m'.trace[|m'.trace| - 1])
    && (forall j :: |m.trace| < j < |m'.trace| ==> m'.trace[j] == Lifecycle.Failed)
  }

  lemma FailsOnlyIsLifeStep(m: Module, m': Module)
    requires FailsOnly(m, m')
    ensures LifeStep(m, m')
  {}

  /** What every handler but wait, init and resubmission does to the row of a module build. */
  predicate Evolves(m: Module, out: Outcome, k: Koji, root: set<Nvr>) {
    && out.m.mmd == m.mmd
    && AllProgress(m.components, out.m.components, out.m.batch, k)
    && StaysBuilt(m.components, m.batch, out.m.batch)
    && m.batch <= out.m.batch && (out.m.batch >= 1 ==> m.batch >= 1)
    && LifeStep(m, out.m)
    && (out.m.state == Lifecycle.Done || out.m.state == Ready ==>
         m.state == Lifecycle.Done || m.state == Ready || RestComplete(out.m.components))
    && (|out.m.trace| > |m.trace| ==> out.m.trace[|m.trace|] != Init)
    && (|out.m.trace| > |m.trace| && out.m.trace[|m.trace|] == Lifecycle.Done ==> RestComplete(out.m.components))
    && (Live(out.m) ==> Live(m))
    && (forall c :: c in out.calls && c.Submit? ==> Submits(m, out.m, c.index))
    && AdvancesFirst(out.calls)
    && PassedNvrs(out.calls) <= root
    && (forall i :: 0 <= i < |m.components| && m.batch <= m.components[i].batch < out.m.batch ==>
         m.components[i].nvr.Some? && m.components[i].nvr.value in PassedNvrs(out.calls))
  }

  lemma AdvancedEvolves(m: Module, out: Outcome, k: Koji, root: set<Nvr>)
    requires Advanced(m, out, k, root)
    ensures Evolves(m, out, k, root)
  {
    FailsOnlyIsLifeStep(m, out.m);
  }

  /** A change of components within the current batch, then at most one edge of the life cycle. */
  lemma SameBatchEvolves(m: Module, m': Module, calls: seq<Call>, k: Koji, root: set<Nvr>)
    requires AllProgress(m.components, m'.components, m.batch, k)
    requires m' == m.(components := m'.components, state := m'.state, trace := m'.trace, newRepo := m'.newRepo)
    requires (m'.state == m.state && m'.trace == m.trace)
          || (Edge(m.state, m'.state) && m'.trace == m.trace + [m'.state])
    requires m'.state == Lifecycle.Done ==> m.state == Lifecycle.Done || RestComplete(m'.components)
    requires m'.state == Ready ==> m.state == Ready || m.state == Lifecycle.Done
    requires m'.state == Wait || m'.state == Init ==> m.state == m'.state
    requires forall c :: c in calls ==> !c.Submit? && !c.Advance?
    ensures Evolves(m, Outcome(m', calls), k, root)
  {
    NothingPassed(calls);
  }

  lemma {:induction false} NothingPassed(calls: seq<Call>)
    requires forall c :: c in calls ==> !c.Advance?
    ensures PassedNvrs(calls) == {} && AdvancesFirst(calls)
  {
    if calls != [] {
      assert calls[0] in calls;
      NothingPassed(calls[1..]);
      assert forall q :: 0 <= q < |calls| ==> calls[q] in calls;
    }
  }

  // ---- the handlers one by one ----

  lemma FailedEvolves(m: Module, reasonGiven: bool, k: Koji, root: set<Nvr>)
    requires AllBacked(m.components, k)
    ensures Evolves(m, FailedHandler(m, reasonGiven), k, root)
  {
    var out := FailedHandler(m, reasonGiven);
    forall i | 0 <= i < |m.components| ensures Progress(m.components[i], out.m.components[i], m.batch, k) {
      assert Backed(m.components[i], k);
    }
    CancelOnly(m.components);
    SameBatchEvolves(m, out.m, out.calls, k, root);
  }

  lemma {:induction false} CancelOnly(cs: seq<Component>)
    ensures forall c :: c in CancelCalls(cs) ==> c.Cancel?
  {
    if cs != [] { CancelOnly(cs[1..]); }
  }

  /** build_task_finalize: a truthful message never takes back a complete component. */
  lemma MarkingProgresses(m: Module, i: nat, task: TaskId, state: ComponentState, nvr: Nvr, s: State, k: Koji)
    requires AllBacked(m.components, s.koji) && KojiEvolves(s, k) && Truthful(k, task, state, nvr)
    requires i < |m.components| && m.components[i].task == Some(task)
    ensures AllProgress(m.components, MarkBuilt(m, i, state, nvr).components, m.batch, k)
  {
    BackedLater(m.components, s, k);
    var ds := MarkBuilt(m, i, state, nvr).components;
    forall j | 0 <= j < |ds| ensures Progress(m.components[j], ds[j], m.batch, k) {
      assert Backed(m.components[j], k);
    }
  }

  /** Everything build_task_finalize may do but submitting more of the batch. */
  lemma MarkedEvolves(m: Module, marked: Module, out: Outcome, k: Koji, root: set<Nvr>)
    requires marked == m.(components := marked.components)
    requires AllProgress(m.components, marked.components, m.batch, k)
    requires out.m == marked || out.m == marked.Transition(Lifecycle.Failed)
    requires forall c :: c in out.calls ==> !c.Submit? && !c.Advance?
    ensures Evolves(m, out, k, root)
  {
    SameBatchEvolves(m, out.m, out.calls, k, root);
  }

  lemma FinalizeMarks(m: Module, i: nat, state: ComponentState, nvr: Nvr, cfg: Config, others: nat, b: Builder)
    requires i < |m.components|
    requires var marked := MarkBuilt(m, i, state, nvr); DecideFinalize(marked, marked.components[i]) != BuildOn
    ensures var marked, out := MarkBuilt(m, i, state, nvr), BuildTaskFinalize(m, i, state, nvr, cfg, others, b);
      && (out.m == marked || out.m == marked.Transition(Lifecycle.Failed))
      && (forall c :: c in out.calls ==> !c.Submit? && !c.Advance?)
  {}

  lemma BuildEvolves(
    m: Module, i: nat, task: TaskId, state: ComponentState, nvr: Nvr, cfg: Config, others: nat, b: Builder,
    s: State, k: Koji, root: set<Nvr>)
    requires AllBacked(m.components, s.koji) && KojiEvolves(s, k) && Truthful(k, task, state, nvr)
    requires i < |m.components| && m.components[i].task == Some(task)
    requires Sound(b, k)
    ensures Evolves(m, BuildTaskFinalize(m, i, state, nvr, cfg, others, b), k, root)
  {
    var marked := MarkBuilt(m, i, state, nvr);
    MarkingProgresses(m, i, task, state, nvr, s, k);
    var out := BuildTaskFinalize(m, i, state, nvr, cfg, others, b);
    if DecideFinalize(marked, marked.components[i]) == BuildOn {
      BackedAfter(m.components, marked.components, m.batch, k);
      CandidatesAreSeeds(marked);
      ContinueProgress(marked, Candidates(marked.components, m.batch), cfg, others, b, k);
      FinalizeContinues(m, marked, out, k, root);
    } else {
      FinalizeMarks(m, i, state, nvr, cfg, others, b);
      MarkedEvolves(m, marked, out, k, root);
    }
  }

  lemma FinalizeContinues(m: Module, marked: Module, out: Outcome, k: Koji, root: set<Nvr>)
    requires marked == m.(components := marked.components)
    requires AllProgress(m.components, marked.components, m.batch, k)
    requires Continued(marked, Candidates(marked.components, m.batch), out, k)
    ensures Evolves(m, out, k, root)
  {
    ProgressTwice(m.components, marked.components, out.m.components, m.batch, k);
    FailsOnlyIsLifeStep(marked, out.m);
    assert LifeStep(m, out.m);
    OnlySubmitsPassNothing(out.calls);
    forall c | c in out.calls && c.Submit?
      ensures Submits(m, out.m, c.index)
    {
      assert c.index in Candidates(marked.components, m.batch);
      assert Progress(m.components[c.index], marked.components[c.index], m.batch, k);
    }
  }

  lemma MarkTagProgresses(m: Module, i: nat, buildTag: bool, k: Koji)
    requires i < |m.components| && AllBacked(m.components, k)
    ensures AllProgress(m.components, MarkTag(m, i, buildTag).components, m.batch, k)
  {
    var ds := MarkTag(m, i, buildTag).components;
    forall j | 0 <= j < |ds| ensures Progress(m.components[j], ds[j], m.batch, k) {
      assert Backed(m.components[j], k);
    }
  }

  lemma TaggedRow(m: Module, buildTag: bool, nvr: Nvr, b: Builder, i: nat)
    requires FindNvr(m.components, nvr) == Some(i)
    ensures var marked, out := MarkTag(m, i, buildTag), Tagged(m, buildTag, nvr, b);
      && (out.m == marked || out.m == marked.Transition(Lifecycle.Failed) || out.m == marked.(newRepo := out.m.newRepo))
      && (forall c :: c in out.calls ==> c.NewRepo?)
  {}

  lemma TagEvolves(m: Module, buildTag: bool, nvr: Nvr, b: Builder, k: Koji, root: set<Nvr>)
    requires AllBacked(m.components, k)
    ensures Evolves(m, Tagged(m, buildTag, nvr, b), k, root)
  {
    var out := Tagged(m, buildTag, nvr, b);
    var found := FindNvr(m.components, nvr);
    if found == None {
      StayEvolves(m, m, [], k, root);
    } else {
      MarkTagProgresses(m, found.value, buildTag, k);
      TaggedRow(m, buildTag, nvr, b, found.value);
      SameBatchEvolves(m, out.m, out.calls, k, root);
    }
  }

  lemma CleanupEvolves(m: Module, k: Koji, root: set<Nvr>)
    requires AllBacked(m.components, k)
    ensures Evolves(m, Outcome(CleanupStale(m), []), k, root)
  {
    var m' := CleanupStale(m);
    forall i | 0 <= i < |m.components| ensures Progress(m.components[i], m'.components[i], m.batch, k) {
      assert Backed(m.components[i], k);
    }
    SameBatchEvolves(m, m', [], k, root);
  }

  lemma StayEvolves(m: Module, m': Module, calls: seq<Call>, k: Koji, root: set<Nvr>)
    requires AllBacked(m.components, k)
    requires m' == m || m' == m.Transition(Lifecycle.Failed) || m' == m.(newRepo := m'.newRepo)
          || (m.state == Lifecycle.Done && m' == m.Transition(Ready))
          || (m.state == Lifecycle.Build && RestComplete(m.components) && m' == m.Transition(Lifecycle.Done))
    requires forall c :: c in calls ==> c.NewRepo?
    ensures Evolves(m, Outcome(m', calls), k, root)
  {
    ProgressRefl(m.components, m.batch, k);
    SameBatchEvolves(m, m', calls, k, root);
  }

  lemma RepoEvolves(r: Record, cfg: Config, others: nat, b: Builder, k: Koji, root: set<Nvr>)
    requires AllBacked(r.m.components, k) && Sound(b, k)
    requires Readies(b, root)
    requires r.m.state == Lifecycle.Build
    ensures Evolves(r.m, Settle(r, RepoDone(r.m, cfg, others, b)), k, root)
  {
    var m := r.m;
    if DecideRepo(m, b) == TryNextBatch {
      NextBatchEvolves(r, cfg, others, b, k, root);
    } else {
      if DecideRepo(m, b) == Finish { FinishIsComplete(m, b); }
      StayEvolves(m, Settle(r, RepoDone(m, cfg, others, b)).m, [], k, root);
    }
  }

  lemma NextBatchEvolves(r: Record, cfg: Config, others: nat, b: Builder, k: Koji, root: set<Nvr>)
    requires AllBacked(r.m.components, k) && Sound(b, k)
    requires Readies(b, root)
    ensures Evolves(r.m, Settle(r, StartNext(r.m, cfg, others, b, cfg.depth)), k, root)
  {
    var next := StartNext(r.m, cfg, others, b, cfg.depth);
    if next.Success? {
      StartNextAdvances(r.m, cfg, others, b, cfg.depth, k, root, next.value);
      AdvancedEvolves(r.m, next.value, k, root);
    } else {
      StayEvolves(r.m, r.m.Transition(Lifecycle.Failed), [], k, root);
    }
  }

  /** repos.done finishes a module build only with every component complete. */
  lemma FinishIsComplete(m: Module, b: Builder)
    requires DecideRepo(m, b) == Finish
    ensures forall i :: 0 <= i < |m.components| ==> m.components[i].IsCompleted()
  {
    forall i | 0 <= i < |m.components| ensures m.components[i].IsCompleted() {
      assert !m.components[i].IsUnsuccessful() && !m.components[i].IsUnbuilt();
    }
  }

  lemma PausedEvolves(r: Record, missed: bool, cfg: Config, others: nat, b: Builder, k: Koji, root: set<Nvr>)
    requires AllBacked(r.m.components, k) && Sound(b, k)
    requires Readies(b, root)
    ensures Evolves(r.m, Abandon(r, ProcessPaused(r.m, missed, cfg, others, b)), k, root)
  {
    NextBatchEvolves(r, cfg, others, b, k, root);
    StayEvolves(r.m, r.m, [], k, root);
  }
}
