/**
 The batch invariant of one module build, and why continuing or advancing a batch keeps it.
 */
module BatchInvariant {
  import opened Wrappers
  import opened Records
  import opened Batches
  import opened SelectionTheorems
  import opened World
  import opened SkipRecursion

  /** Everything but module-build-macros is built. */
  predicate RestComplete(cs: seq<Component>) {
    forall i :: 0 <= i < |cs| && !cs[i].IsMacros() ==> cs[i].IsCompleted()
  }

  predicate HasMacros(cs: seq<Component>) {
    exists i :: 0 <= i < |cs| && cs[i].IsMacros()
  }

  predicate AnyTask(cs: seq<Component>) {
    exists i :: 0 <= i < |cs| && cs[i].task.Some?
  }

  /** Every component of a batch below `b` is complete; the macros are exempt once all the rest is. */
  predicate BelowBuilt(cs: seq<Component>, b: nat) {
    forall i :: 0 <= i < |cs| && cs[i].batch < b ==> cs[i].IsCompleted() || (cs[i].IsMacros() && RestComplete(cs))
  }

  /** A complete component carries the task that built it, closed in Koji with the component's NVR. */
  predicate Backed(c: Component, k: Koji) {
    c.IsCompleted() ==>
      c.task.Some? && c.nvr.Some? && c.task.value in k.tasks && k.tasks[c.task.value] == Closed(c.nvr.value)
  }

  predicate AllBacked(cs: seq<Component>, k: Koji) {
    forall i :: 0 <= i < |cs| ==> Backed(cs[i], k)
  }

  predicate MacrosPlaced(cs: seq<Component>) {
    forall i :: 0 <= i < |cs| && cs[i].IsMacros() ==> cs[i].batch == 1
  }

  /** Every component has a batch number. */
  predicate AllNumbered(cs: seq<Component>) {
    forall i :: 0 <= i < |cs| ==> cs[i].batch >= 1
  }

  /** A component that ever got a task has only complete components in smaller batches. */
  predicate TasksInOrder(cs: seq<Component>) {
    forall i :: 0 <= i < |cs| && cs[i].task.Some? ==> BelowBuilt(cs, cs[i].batch)
  }

  /** What holds whatever modulemd was planned. */
  predicate BaseInv(m: Module, k: Koji) {
    && MacrosPlaced(m.components)
    && (m.state == Lifecycle.Done || m.state == Ready ==> RestComplete(m.components))
    && AllBacked(m.components, k)
    && (m.batch >= 1 ==> HasMacros(m.components) || RestComplete(m.components))
  }

  /** What holds beside it when planning gave every component a batch number. */
  predicate BatchInv(m: Module) {
    && AllNumbered(m.components)
    && BelowBuilt(m.components, m.batch)
    && TasksInOrder(m.components)
    && (AnyTask(m.components) ==> HasMacros(m.components) || RestComplete(m.components))
  }

  // ---- the way components may change ----

  /** What one handler may do to a component when the module is in batch `b` afterwards. */
  predicate Progress(c: Component, d: Component, b: nat, k: Koji) {
    && d.package == c.package && d.batch == c.batch && d.ref == c.ref && d.buildTimeOnly == c.buildTimeOnly
    && (c.IsCompleted() ==> d.IsCompleted() && d.task == c.task && d.nvr == c.nvr)
    && (d.task != c.task ==> c.batch == b)
    && Backed(d, k)
  }

  predicate AllProgress(cs: seq<Component>, ds: seq<Component>, b: nat, k: Koji) {
    |cs| == |ds| && forall i :: 0 <= i < |cs| ==> Progress(cs[i], ds[i], b, k)
  }

  lemma ProgressTwice(cs: seq<Component>, ds: seq<Component>, es: seq<Component>, b: nat, k: Koji)
    requires AllProgress(cs, ds, b, k) && AllProgress(ds, es, b, k)
    ensures AllProgress(cs, es, b, k)
  {
    forall i | 0 <= i < |cs| ensures Progress(cs[i], es[i], b, k) {
      assert Progress(cs[i], ds[i], b, k) && Progress(ds[i], es[i], b, k);
    }
  }

  lemma ProgressRefl(cs: seq<Component>, b: nat, k: Koji)
    requires AllBacked(cs, k)
    ensures AllProgress(cs, cs, b, k)
  {
    forall i | 0 <= i < |cs| ensures Progress(cs[i], cs[i], b, k) { assert Backed(cs[i], k); }
  }

  lemma RestCompleteStays(cs: seq<Component>, ds: seq<Component>, b: nat, k: Koji)
    requires AllProgress(cs, ds, b, k) && RestComplete(cs)
    ensures RestComplete(ds)
  {
    forall i | 0 <= i < |ds| && !ds[i].IsMacros() ensures ds[i].IsCompleted() {
      assert Progress(cs[i], ds[i], b, k);
    }
  }

  lemma BelowBuiltStays(cs: seq<Component>, ds: seq<Component>, b: nat, k: Koji, at: nat)
    requires AllProgress(cs, ds, b, k) && BelowBuilt(cs, at)
    ensures BelowBuilt(ds, at)
  {
    if RestComplete(cs) { RestCompleteStays(cs, ds, b, k); }
    forall i | 0 <= i < |ds| && ds[i].batch < at
      ensures ds[i].IsCompleted() || (ds[i].IsMacros() && RestComplete(ds))
    {
      assert Progress(cs[i], ds[i], b, k);
    }
  }

  lemma HasMacrosStays(cs: seq<Component>, ds: seq<Component>, b: nat, k: Koji)
    requires AllProgress(cs, ds, b, k) && HasMacros(cs)
    ensures HasMacros(ds)
  {
    var i :| 0 <= i < |cs| && cs[i].IsMacros();
    assert Progress(cs[i], ds[i], b, k);
    assert ds[i].IsMacros();
  }

  lemma TasksStayInOrder(cs: seq<Component>, ds: seq<Component>, b: nat, k: Koji)
    requires AllProgress(cs, ds, b, k) && TasksInOrder(cs) && BelowBuilt(ds, b)
    ensures TasksInOrder(ds)
  {
    forall i | 0 <= i < |ds| && ds[i].task.Some? ensures BelowBuilt(ds, ds[i].batch) {
      assert Progress(cs[i], ds[i], b, k);
      if ds[i].task == cs[i].task { BelowBuiltStays(cs, ds, b, k, cs[i].batch); }
    }
  }

  lemma ProgressKeepsBase(m: Module, m': Module, k: Koji, k': Koji)
    requires BaseInv(m, k) && AllProgress(m.components, m'.components, m'.batch, k')
    requires m'.state == Lifecycle.Done || m'.state == Ready ==>
      m.state == Lifecycle.Done || m.state == Ready || RestComplete(m'.components)
    requires m'.batch >= 1 ==> m.batch >= 1
    ensures BaseInv(m', k')
  {
    var cs, ds, b := m.components, m'.components, m'.batch;
    forall i | 0 <= i < |ds| ensures (ds[i].IsMacros() ==> ds[i].batch == 1) && Backed(ds[i], k') {
      assert Progress(cs[i], ds[i], b, k');
    }
    if RestComplete(cs) { RestCompleteStays(cs, ds, b, k'); }
    if HasMacros(cs) { HasMacrosStays(cs, ds, b, k'); }
  }

  /** The batch invariant survives progress, if the batch moves at most onto built ground. */
  lemma ProgressKeepsInv(m: Module, m': Module, k: Koji)
    requires BatchInv(m) && AllProgress(m.components, m'.components, m'.batch, k)
    requires BelowBuilt(m.components, m'.batch) && (m'.batch >= 1 ==> m.batch >= 1)
    requires m.batch >= 1 ==> HasMacros(m.components) || RestComplete(m.components)
    ensures BatchInv(m')
  {
    var cs, ds, b := m.components, m'.components, m'.batch;
    BelowBuiltStays(cs, ds, b, k, b);
    TasksStayInOrder(cs, ds, b, k);
    forall i | 0 <= i < |ds| ensures ds[i].batch >= 1 {
      assert Progress(cs[i], ds[i], b, k);
    }
    if RestComplete(cs) { RestCompleteStays(cs, ds, b, k); }
    if HasMacros(cs) { HasMacrosStays(cs, ds, b, k); }
    if AnyTask(ds) && m.batch == 0 {
      var i :| 0 <= i < |ds| && ds[i].task.Some?;
      assert Progress(cs[i], ds[i], b, k);
      assert cs[i].task.Some?;
    }
  }

  /** Time passing in Koji alone. */
  lemma BackedLater(cs: seq<Component>, s: State, k': Koji)
    requires AllBacked(cs, s.koji) && KojiEvolves(s, k')
    ensures AllBacked(cs, k')
  {
    forall i | 0 <= i < |cs| ensures Backed(cs[i], k') { assert Backed(cs[i], s.koji); }
  }

  // ---- continue_batch_build ----

  /** What is used of the builder's answers here. */
  ghost predicate Sound(b: Builder, k: Koji) {
    && (forall i :: KojiAnswer(b.submit(i)))
    && (forall i :: b.orphan(i).Some? ==>
         b.orphan(i).value.task in k.tasks && k.tasks[b.orphan(i).value.task] == Closed(b.orphan(i).value.nvr))
  }

  /** Whatever passes the buildroot check is in the buildroot. */
  ghost predicate Readies(b: Builder, root: set<Nvr>) {
    forall a :: b.ready(a) ==> NvrsOf(a) <= root
  }

  /** Seeds: distinct components of the current batch that are neither complete, running nor failed. */
  predicate Seeds(m: Module, seeds: seq<nat>) {
    && Indices(seeds, |m.components|) && NoDuplicates(seeds)
    && forall i :: i in seeds ==> i < |m.components| && m.InBatch(i) && m.components[i].IsCandidate()
  }

  predicate SameTags(c: Component, d: Component) {
    d.tagged == c.tagged && d.taggedInFinal == c.taggedInFinal
  }

  /** The components after recovery, selection and submission. */
  predicate Continued(m: Module, seeds: seq<nat>, out: Outcome, k: Koji) {
    && out.m == m.(components := out.m.components, state := out.m.state, trace := out.m.trace)
    && AllProgress(m.components, out.m.components, m.batch, k)
    && FailsOnly(m, out.m)
    && (forall i :: 0 <= i < |m.components| ==>
         SameTags(m.components[i], out.m.components[i]) && out.m.components[i].reused == m.components[i].reused)
    && (forall c :: c in out.calls ==> c.Submit? && c.index in seeds)
  }

  lemma ContinueProgress(m: Module, seeds: seq<nat>, cfg: Config, others: nat, b: Builder, k: Koji)
    requires Seeds(m, seeds) && Sound(b, k) && AllBacked(m.components, k)
    ensures Continued(m, seeds, Continue(m, seeds, cfg, others, b), k)
  {
    var order := SortByWeight(m.components, seeds);
    SortPermutes(m.components, seeds);
    NoDuplicatesMultiset(seeds, order);
    var recovered := Recover(m.components, order, b);
    var r := Select(recovered, order, cfg, others);
    SelectMarksChosen(recovered, order, cfg, others);
    var selected := m.(components := r.components);
    SubmitAllTouchesChosen(selected, r.chosen, b);
    var final := SubmitAll(selected, r.chosen, b);
    forall i | 0 <= i < |m.components|
      ensures Progress(m.components[i], final.components[i], m.batch, k)
      ensures SameTags(m.components[i], final.components[i]) && final.components[i].reused == m.components[i].reused
    {
      ContinueOne(m.components[i], recovered[i], r.components[i], final.components[i],
                  i in seeds, i in r.chosen, b.orphan(i), m.batch, k);
    }
    forall c | c in SubmitCalls(r.chosen) ensures c.Submit? && c.index in seeds {
      SubmitCallsOf(r.chosen, 0);
      SubmitCallsOf(r.chosen, c.index);
    }
  }

  /** One component through recovery, selection and submission. */
  lemma ContinueOne(
    c: Component, recovered: Component, selected: Component, final: Component,
    seed: bool, chosen: bool, orphan: Option<Orphan>, batch: nat, k: Koji)
    requires Backed(c, k) && (seed ==> c.batch == batch && c.IsCandidate())
    requires orphan.Some? ==> orphan.value.task in k.tasks && k.tasks[orphan.value.task] == Closed(orphan.value.nvr)
    requires recovered == if seed then RecoverOne(c, orphan) else c
    requires selected == if chosen then recovered.(state := Building) else recovered
    requires chosen ==> seed && !recovered.IsCompleted()
    requires Submitted(selected, final, chosen)
    ensures Progress(c, final, batch, k)
    ensures SameTags(c, final) && final.reused == c.reused
  {}

  // ---- entering a batch and start_next_batch_build ----

  /** Component `i` is in the batch the handler ends in, and was not complete before. */
  predicate Submits(m: Module, m': Module, i: nat) {
    i < |m.components| && m.components[i].batch == m'.batch && !m.components[i].IsCompleted()
  }

  predicate AdvancesFirst(calls: seq<Call>) {
    forall p, q :: 0 <= p < q < |calls| && calls[q].Advance? ==> calls[p].Advance?
  }

  /** What is built below batch `b` is what is needed below batch `b'`. */
  predicate StaysBuilt(cs: seq<Component>, b: nat, b': nat) {
    BelowBuilt(cs, b) ==> BelowBuilt(cs, b')
  }

  /** What start_next_batch_build does to the module; `root` is the module's buildroot. */
  predicate Advanced(m: Module, out: Outcome, k: Koji, root: set<Nvr>) {
    && out.m == m.(components := out.m.components, state := out.m.state, trace := out.m.trace,
                   batch := out.m.batch, reusedModule := out.m.reusedModule)
    && AllProgress(m.components, out.m.components, out.m.batch, k)
    && (forall i :: 0 <= i < |m.components| ==> SameTags(m.components[i], out.m.components[i]))
    && StaysBuilt(m.components, m.batch, out.m.batch)
    && m.batch <= out.m.batch && (out.m.batch >= 1 ==> m.batch >= 1)
    && FailsOnly(m, out.m)
    && (forall c :: c in out.calls ==> c.Advance? || (c.Submit? && Submits(m, out.m, c.index)))
    && AdvancesFirst(out.calls)
    && PassedNvrs(out.calls) <= root
    && (forall i :: 0 <= i < |m.components| && m.batch <= m.components[i].batch < out.m.batch ==>
         m.components[i].nvr.Some? && m.components[i].nvr.value in PassedNvrs(out.calls))
  }

  lemma {:induction false} OnlySubmitsPassNothing(calls: seq<Call>)
    requires forall c :: c in calls ==> c.Submit?
    ensures PassedNvrs(calls) == {} && RequestedRepos(calls) == {} && AdvancesFirst(calls)
  {
    if calls != [] {
      assert calls[0] in calls;
      OnlySubmitsPassNothing(calls[1..]);
      assert forall q :: 0 <= q < |calls| ==> calls[q] in calls;
    }
  }

  lemma ContinuedIsAdvanced(m: Module, seeds: seq<nat>, out: Outcome, k: Koji, root: set<Nvr>)
    requires Seeds(m, seeds) && Continued(m, seeds, out, k)
    ensures Advanced(m, out, k, root)
  {
    OnlySubmitsPassNothing(out.calls);
  }

  lemma CandidatesAreSeeds(m: Module)
    ensures Seeds(m, Candidates(m.components, m.batch))
  {
    CandidatesIncrease(m.components, m.batch, 0);
  }

  lemma UnchangedIsAdvanced(m: Module, k: Koji, root: set<Nvr>)
    requires AllBacked(m.components, k)
    ensures Advanced(m, Outcome(m, []), k, root)
    ensures Advanced(m, Outcome(m.Transition(Lifecycle.Failed), []), k, root)
  {
    ProgressRefl(m.components, m.batch, k);
  }

  lemma ReuseProgress(m: Module, candidates: seq<nat>, b: Builder, k: Koji)
    requires Seeds(m, candidates) && AllBacked(m.components, k)
    ensures AllProgress(m.components, ReuseBatch(m.components, candidates, b), m.batch, k)
    ensures forall i :: 0 <= i < |m.components| ==> SameTags(m.components[i], ReuseBatch(m.components, candidates, b)[i])
  {
    var ds := ReuseBatch(m.components, candidates, b);
    forall i | 0 <= i < |m.components| ensures Progress(m.components[i], ds[i], m.batch, k) {
      assert Backed(m.components[i], k);
    }
  }

  lemma EnterAdvances(
    m: Module, candidates: seq<nat>, tryReuse: bool, cfg: Config, others: nat, b: Builder, k: Koji, root: set<Nvr>)
    requires Seeds(m, candidates) && Sound(b, k) && AllBacked(m.components, k)
    ensures Advanced(m, EnterBatch(m, candidates, tryReuse, cfg, others, b), k, root)
  {
    if !tryReuse {
      ContinueProgress(m, candidates, cfg, others, b, k);
      ContinuedIsAdvanced(m, candidates, Continue(m, candidates, cfg, others, b), k, root);
    } else {
      var after := NotReused(candidates, b);
      var m' := m.(components := ReuseBatch(m.components, candidates, b),
                   reusedModule := if b.previous.Some? then b.previous else m.reusedModule);
      ReuseProgress(m, candidates, b, k);
      if after == [] {
        ReusedIsAdvanced(m, m', k, root);
      } else {
        NotReusedAreSeeds(m, m', candidates, after, b);
        BackedAfter(m.components, m'.components, m.batch, k);
        ContinueProgress(m', after, cfg, others, b, k);
        ReusedThenContinued(m, m', after, Continue(m', after, cfg, others, b), k, root);
      }
    }
  }

  lemma ReusedIsAdvanced(m: Module, m': Module, k: Koji, root: set<Nvr>)
    requires m' == m.(components := m'.components, reusedModule := m'.reusedModule)
    requires AllProgress(m.components, m'.components, m.batch, k)
    requires forall i :: 0 <= i < |m.components| ==> SameTags(m.components[i], m'.components[i])
    ensures Advanced(m, Outcome(m', []), k, root)
  {}

  lemma NotReusedAreSeeds(m: Module, m': Module, candidates: seq<nat>, after: seq<nat>, b: Builder)
    requires Seeds(m, candidates) && after == NotReused(candidates, b)
    requires m' == m.(components := ReuseBatch(m.components, candidates, b), reusedModule := m'.reusedModule)
    ensures Seeds(m', after)
  {
    NotReusedDistinct(candidates, b);
    assert forall n :: 0 <= n < |after| ==> after[n] in after;
  }

  lemma ReusedThenContinued(m: Module, m': Module, after: seq<nat>, out: Outcome, k: Koji, root: set<Nvr>)
    requires m' == m.(components := m'.components, reusedModule := m'.reusedModule)
    requires AllProgress(m.components, m'.components, m.batch, k)
    requires forall i :: 0 <= i < |m.components| ==> SameTags(m.components[i], m'.components[i])
    requires Seeds(m', after) && Continued(m', after, out, k)
    ensures Advanced(m, out, k, root)
  {
    ProgressTwice(m.components, m'.components, out.m.components, m.batch, k);
    OnlySubmitsPassNothing(out.calls);
    forall c | c in out.calls ensures c.Submit? && Submits(m, out.m, c.index) {
      assert m'.InBatch(c.index) && Progress(m.components[c.index], m'.components[c.index], m.batch, k);
    }
  }

  lemma BackedAfter(cs: seq<Component>, ds: seq<Component>, b: nat, k: Koji)
    requires AllProgress(cs, ds, b, k)
    ensures AllBacked(ds, k)
  {
    forall i | 0 <= i < |ds| ensures Backed(ds[i], k) { assert Progress(cs[i], ds[i], b, k); }
  }

  /** When the counter moves on, the batch it leaves is complete. */
  lemma LeavesBuiltBatch(m: Module, b: Builder)
    requires Decide(m, b) == NextBatch
    ensures StaysBuilt(m.components, m.batch, m.batch + 1)
    ensures forall i :: 0 <= i < |m.components| && m.components[i].batch == m.batch ==> m.components[i].IsCompleted()
  {
    forall i | 0 <= i < |m.components| && m.components[i].batch == m.batch ensures m.components[i].IsCompleted() {
      assert m.InBatch(i);
      assert !m.components[i].IsUnsuccessful();
    }
  }

  lemma {:induction false} ArtifactsHold(cs: seq<Component>, b: nat, i: nat)
    requires i < |cs| && cs[i].batch == b
    ensures cs[i].nvr in Artifacts(cs, b)
  {
    if i > 0 {
      assert cs[1..][i - 1] == cs[i];
      ArtifactsHold(cs[1..], b, i - 1);
    }
  }

  /** The batch that is left has passed the buildroot check with all its NVRs. */
  lemma LeftBatchPassed(m: Module, k: Koji, i: nat)
    requires i < |m.components| && m.components[i].batch == m.batch
    requires m.components[i].IsCompleted() && AllBacked(m.components, k)
    ensures m.components[i].nvr.Some? && m.components[i].nvr.value in NvrsOf(Artifacts(m.components, m.batch))
  {
    assert Backed(m.components[i], k);
    ArtifactsHold(m.components, m.batch, i);
  }

  lemma AdvanceFirst(m: Module, out: Outcome, b: Builder, k: Koji, root: set<Nvr>)
    requires Decide(m, b) == NextBatch && AllBacked(m.components, k)
    requires NvrsOf(Artifacts(m.components, m.batch)) <= root
    requires Advanced(m.(batch := m.batch + 1), out, k, root)
    ensures Advanced(m, Outcome(out.m, [Advance(Artifacts(m.components, m.batch))] + out.calls), k, root)
  {
    LeavesBuiltBatch(m, b);
    var calls := [Advance(Artifacts(m.components, m.batch))] + out.calls;
    assert calls[1..] == out.calls;
    assert PassedNvrs(calls) == NvrsOf(Artifacts(m.components, m.batch)) + PassedNvrs(out.calls);
    forall i | 0 <= i < |m.components| && m.batch <= m.components[i].batch < out.m.batch
      ensures m.components[i].nvr.Some? && m.components[i].nvr.value in PassedNvrs(calls)
    {
      if m.components[i].batch == m.batch { LeftBatchPassed(m, k, i); }
    }
  }

  lemma StayAdvances(m: Module, cfg: Config, others: nat, b: Builder, depth: nat, k: Koji, root: set<Nvr>, out: Outcome)
    requires Sound(b, k) && AllBacked(m.components, k)
    requires Decide(m, b) != NextBatch && Returns(m, cfg, others, b, depth, out)
    ensures Advanced(m, out, k, root)
  {
    if Decide(m, b) == ContinueCurrent {
      CandidatesAreSeeds(m);
      ContinueProgress(m, Candidates(m.components, m.batch), cfg, others, b, k);
      ContinuedIsAdvanced(m, Candidates(m.components, m.batch), out, k, root);
    } else {
      UnchangedIsAdvanced(m, k, root);
    }
  }

  lemma EnterFirst(m: Module, cfg: Config, others: nat, b: Builder, depth: nat, k: Koji, root: set<Nvr>, out: Outcome)
    requires Sound(b, k) && AllBacked(m.components, k)
    requires Readies(b, root)
    requires Decide(m, b) == NextBatch && Candidates(m.components, m.batch + 1) != []
    requires Returns(m, cfg, others, b, depth, out)
    ensures Advanced(m, out, k, root)
  {
    var next := m.(batch := m.batch + 1);
    var candidates := Candidates(next.components, next.batch);
    var entered := EnterBatch(next, candidates, TryReuse(m), cfg, others, b);
    EnterStep(m, cfg, others, b, depth, entered);
    LeavesBuiltBatch(m, b);
    assert b.ready(Artifacts(m.components, m.batch));
    CandidatesAreSeeds(next);
    EnterAdvances(next, candidates, TryReuse(m), cfg, others, b, k, root);
    AdvanceFirst(m, entered, b, k, root);
  }

  lemma LandAdvances(m: Module, cfg: Config, others: nat, b: Builder, depth: nat, k: Koji, root: set<Nvr>, out: Outcome)
    requires Sound(b, k) && AllBacked(m.components, k)
    requires Readies(b, root)
    requires !Skips(m, b) && Returns(m, cfg, others, b, depth, out)
    ensures Advanced(m, out, k, root)
  {
    if Decide(m, b) != NextBatch {
      StayAdvances(m, cfg, others, b, depth, k, root, out);
    } else {
      EnterFirst(m, cfg, others, b, depth, k, root, out);
    }
  }

  lemma SkipOuter(m: Module, b: Builder, k: Koji, root: set<Nvr>, out: Outcome, next: Module, deeper: Outcome)
    requires Skips(m, b) && AllBacked(m.components, k)
    requires Readies(b, root)
    requires next == m.(batch := m.batch + 1) && Advanced(next, deeper, k, root)
    requires out == Outcome(deeper.m, [Advance(Artifacts(m.components, m.batch))] + deeper.calls)
    ensures Advanced(m, out, k, root)
  {
    assert b.ready(Artifacts(m.components, m.batch));
    AdvanceFirst(m, deeper, b, k, root);
  }

  /** start_next_batch_build, through any number of skipped batches. */
  lemma {:induction false} StartNextAdvances(
    m: Module, cfg: Config, others: nat, b: Builder, depth: nat, k: Koji, root: set<Nvr>, out: Outcome)
    requires Sound(b, k) && AllBacked(m.components, k)
    requires Readies(b, root)
    requires Returns(m, cfg, others, b, depth, out)
    ensures Advanced(m, out, k, root)
    decreases depth
  {
    if Skips(m, b) {
      var next, left, deeper := SkipResult(m, cfg, others, b, depth, out);
      StartNextAdvances(next, cfg, others, b, left, k, root, deeper);
      SkipOuter(m, b, k, root, out, next, deeper);
    } else {
      LandAdvances(m, cfg, others, b, depth, k, root, out);
    }
  }
}
