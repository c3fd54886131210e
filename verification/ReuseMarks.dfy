/**
 The marks that reuse leaves on components, in runs. The threshold does not count a marked component, and a
 resubmission resets it without taking the mark. It is never submitted for all that: its batch is entered
 again before, and the look-up that marked it repeats. So the limit holds for all that really runs.
 */
module ReuseMarks {
  import opened Wrappers
  import opened Records
  import opened Batches
  import opened Handlers
  import opened SelectionTheorems
  import opened SkipRecursion
  import opened World
  import opened BatchInvariant
  import opened HandlerSteps
  import opened WorldInvariant
  import opened Offers
  import Concurrency
  import Planning
  import Numbering
  import Lookups = Reuse

  /** The task of the component has ended in a build. */
  predicate Ended(c: Component, k: Koji) {
    c.task.Some? && c.task.value in k.tasks && k.tasks[c.task.value].Closed?
  }

  /** When that batch is entered, its components are looked up. */
  predicate LookedUp(strategy: Strategy, batch: nat) {
    batch >= 2 && (strategy == ChangedAndAfter ==> batch == 2)
  }

  /** A marked component that is not complete: failed, passed off as running, or in a batch still to be entered. */
  predicate WillBeLookedUp(m: Module, c: Component) {
    LookedUp(m.strategy, c.batch) && (c.IsFailed() || c.IsBuilding() || (c.IsWaitingForBuild() && m.batch < c.batch))
  }

  /** A mark is only on what the chosen module build offers (`offered` holds the names), with an ended task. */
  ghost predicate Settled(m: Module, c: Component, offered: iset<string>, k: Koji) {
    c.reused.Some? ==>
      && m.reusedModule.Some? && !c.IsMacros() && c.package in offered && Ended(c, k)
      && (c.IsCompleted() || WillBeLookedUp(m, c))
  }

  ghost predicate Marks(m: Module, offered: iset<string>, k: Koji) {
    forall i :: 0 <= i < |m.components| ==> Settled(m, m.components[i], offered, k)
  }

  /** The look-ups find exactly the components offered. */
  ghost predicate Repeats(b: Builder, cs: seq<Component>, offered: iset<string>) {
    forall i :: 0 <= i < |cs| ==>
      (b.previous.Some? && b.reusable(i).Some? <==> !cs[i].IsMacros() && cs[i].package in offered)
  }

  /** What is known when a message with builder `b` is handled; `source` is what may be reused. */
  ghost predicate Asked(m: Module, b: Builder, source: seq<Component>, offered: iset<string>, k: Koji) {
    && Concurrency.AnswersLikeKoji(b) && Repeats(b, m.components, offered)
    && (b.previous.Some? ==> GoodSource(b, m.components, source, k))
    && (m.batch >= 1 ==> HasMacros(m.components) || RestComplete(m.components))
  }

  predicate Unmarked(cs: seq<Component>, names: seq<nat>) {
    forall i :: i in names ==> i < |cs| && cs[i].reused == None
  }

  /** What is submitted bears no mark. */
  predicate SubmitsUnmarked(cs: seq<Component>, calls: seq<Call>) {
    forall c :: c in calls && c.Submit? && c.index < |cs| ==> cs[c.index].reused == None
  }

  ghost predicate Keeps(m: Module, out: Outcome, offered: iset<string>, k: Koji) {
    Marks(out.m, offered, k) && SubmitsUnmarked(m.components, out.calls)
  }

  // ---- continuing a batch ----

  lemma ContinueLeavesOthers(m: Module, seeds: seq<nat>, cfg: Config, others: nat, b: Builder, i: nat)
    requires Seeds(m, seeds) && Concurrency.AnswersLikeKoji(b) && i < |m.components|
    ensures var ds := Continue(m, seeds, cfg, others, b).m.components;
      && |ds| == |m.components| && ds[i].reused == m.components[i].reused
      && (i !in seeds ==> ds[i] == m.components[i])
  {
    var order := SortByWeight(m.components, seeds);
    var recovered := Recover(m.components, order, b);
    RecoveredInOrder(m.components, seeds, order, recovered, b);
    var r := Select(recovered, order, cfg, others);
    SelectMarksChosen(recovered, order, cfg, others);
    SubmitAllTouchesChosen(m.(components := r.components), r.chosen, b);
    var final := SubmitAll(m.(components := r.components), r.chosen, b).components;
    assert Submitted(r.components[i], final[i], i in r.chosen);
  }

  lemma ContinueCallsSeeds(m: Module, seeds: seq<nat>, cfg: Config, others: nat, b: Builder)
    requires Seeds(m, seeds)
    ensures forall c :: c in Continue(m, seeds, cfg, others, b).calls && c.Submit? ==> c.index in seeds
  {
    var order := SortByWeight(m.components, seeds);
    var recovered := Recover(m.components, order, b);
    RecoveredInOrder(m.components, seeds, order, recovered, b);
    SelectMarksChosen(recovered, order, cfg, others);
    var chosen := Select(recovered, order, cfg, others).chosen;
    forall c | c in SubmitCalls(chosen) && c.Submit? ensures c.index in seeds { SubmitCallsOf(chosen, c.index); }
  }

  lemma SeedsUnmarked(cs: seq<Component>, seeds: seq<nat>, calls: seq<Call>)
    requires Unmarked(cs, seeds) && forall c :: c in calls && c.Submit? ==> c.index in seeds
    ensures SubmitsUnmarked(cs, calls)
  {
    forall c | c in calls && c.Submit? && c.index < |cs| ensures cs[c.index].reused == None { assert c.index in seeds; }
  }

  lemma ContinueSettles(
    m: Module, seeds: seq<nat>, cfg: Config, others: nat, b: Builder, offered: iset<string>, k: Koji)
    requires Seeds(m, seeds) && Concurrency.AnswersLikeKoji(b)
    requires Marks(m, offered, k) && Unmarked(m.components, seeds)
    ensures Keeps(m, Continue(m, seeds, cfg, others, b), offered, k)
  {
    var m' := Continue(m, seeds, cfg, others, b).m;
    ContinueKeepsBatch(m, seeds, cfg, others, b);
    ContinueCallsSeeds(m, seeds, cfg, others, b);
    SeedsUnmarked(m.components, seeds, Continue(m, seeds, cfg, others, b).calls);
    forall i | 0 <= i < |m'.components| ensures Settled(m', m'.components[i], offered, k) {
      ContinueLeavesOthers(m, seeds, cfg, others, b, i);
      assert Settled(m, m.components[i], offered, k);
    }
  }

  /** What is left to build in the current batch never was reused. */
  lemma CurrentUnmarked(m: Module, offered: iset<string>, k: Koji)
    requires Marks(m, offered, k)
    ensures Unmarked(m.components, Candidates(m.components, m.batch))
  {
    forall i | i in Candidates(m.components, m.batch) ensures m.components[i].reused == None {
      assert Settled(m, m.components[i], offered, k);
    }
  }

  lemma ContinueBatchSettles(m: Module, cfg: Config, others: nat, b: Builder, offered: iset<string>, k: Koji)
    requires Concurrency.AnswersLikeKoji(b) && Marks(m, offered, k)
    ensures Keeps(m, ContinueBatch(m, cfg, others, b), offered, k)
  {
    CandidatesAreSeeds(m);
    CurrentUnmarked(m, offered, k);
    ContinueSettles(m, Candidates(m.components, m.batch), cfg, others, b, offered, k);
  }

  // ---- entering a batch ----

  /** What may be offered for component `c`: a complete row of another build, with its task. */
  lemma OfferIsEnded(b: Builder, cs: seq<Component>, source: seq<Component>, k: Koji, i: nat)
    requires GoodSource(b, cs, source, k) && i < |cs| && b.reusable(i).Some?
    ensures b.reusable(i).value.IsCompleted() && Ended(b.reusable(i).value, k)
  {
    var p := b.reusable(i).value;
    var j :| 0 <= j < |source| && source[j] == p;
    assert Backed(source[j], k);
  }

  /** The row after the look-up in the batch after the one of `last`. */
  function AfterLookUp(last: Module, b: Builder): Module {
    last.(batch := last.batch + 1,
          components := ReuseBatch(last.components, Candidates(last.components, last.batch + 1), b),
          reusedModule := if b.previous.Some? then b.previous else last.reusedModule)
  }

  lemma LookUpSettlesOne(last: Module, b: Builder, source: seq<Component>, offered: iset<string>, k: Koji, i: nat)
    requires Marks(last, offered, k) && Asked(last, b, source, offered, k) && i < |last.components|
    requires LookedUp(last.strategy, last.batch + 1)
    ensures var m' := AfterLookUp(last, b); Settled(m', m'.components[i], offered, k)
  {
    assert Settled(last, last.components[i], offered, k);
    assert b.previous.Some? && b.reusable(i).Some? <==>
      !last.components[i].IsMacros() && last.components[i].package in offered;
    if b.previous.Some? && b.reusable(i).Some? { OfferIsEnded(b, last.components, source, k, i); }
  }

  lemma LookUpSettles(last: Module, b: Builder, source: seq<Component>, offered: iset<string>, k: Koji)
    requires Marks(last, offered, k) && Asked(last, b, source, offered, k) && LookedUp(last.strategy, last.batch + 1)
    ensures Marks(AfterLookUp(last, b), offered, k)
    ensures var after := NotReused(Candidates(last.components, last.batch + 1), b);
      Unmarked(last.components, after) && Unmarked(AfterLookUp(last, b).components, after)
  {
    var m', candidates := AfterLookUp(last, b), Candidates(last.components, last.batch + 1);
    forall i | 0 <= i < |m'.components| ensures Settled(m', m'.components[i], offered, k) {
      LookUpSettlesOne(last, b, source, offered, k, i);
    }
    forall i | i in NotReused(candidates, b)
      ensures i < |m'.components| && last.components[i].reused == None && m'.components[i].reused == None
    {
      assert Settled(last, last.components[i], offered, k);
    }
  }

  /** While anything is unbuilt there is a row of module-build-macros, which never bears a mark. */
  lemma NeverAllReused(m: Module, offered: iset<string>, k: Koji)
    requires Marks(m, offered, k) && m.AnyUnbuilt() && (HasMacros(m.components) || RestComplete(m.components))
    ensures !AllReused(m)
  {
    var i :| 0 <= i < |m.components| && m.components[i].IsUnbuilt();
    var j: nat := i;
    if !m.components[i].IsMacros() {
      assert !RestComplete(m.components);
      j :| j < |m.components| && m.components[j].IsMacros();
    }
    assert Settled(m, m.components[j], offered, k);
    assert m.components[j].reused == None;
  }

  /** Hence under changed-and-after only batch 2 is looked up. */
  lemma OnlyBatchTwoIsLookedUp(last: Module, b: Builder, offered: iset<string>, k: Koji)
    requires Decide(last, b) == NextBatch && Marks(last, offered, k) && TryReuse(last)
    requires HasMacros(last.components) || RestComplete(last.components)
    ensures LookedUp(last.strategy, last.batch + 1)
  {
    NeverAllReused(last, offered, k);
  }

  /** A batch that is entered without a look-up holds no mark on anything left to build. */
  lemma NotLookedUpIsUnmarked(last: Module, offered: iset<string>, k: Koji)
    requires Marks(last, offered, k) && !TryReuse(last) && last.batch >= 1
    ensures Marks(last.(batch := last.batch + 1), offered, k)
  {
    var next := last.(batch := last.batch + 1);
    forall i | 0 <= i < |next.components| ensures Settled(next, next.components[i], offered, k) {
      assert Settled(last, last.components[i], offered, k);
    }
  }

  /** The batch is looked up: what was marked is marked again, and what is not found is built. */
  lemma LookUpThenContinue(
    last: Module, cfg: Config, others: nat, b: Builder, source: seq<Component>, offered: iset<string>, k: Koji)
    requires LookedUp(last.strategy, last.batch + 1) && Marks(last, offered, k) && Asked(last, b, source, offered, k)
    requires NotReused(Candidates(last.components, last.batch + 1), b) != []
    ensures var after := NotReused(Candidates(last.components, last.batch + 1), b);
      && Seeds(AfterLookUp(last, b), after)
      && Keeps(last, Continue(AfterLookUp(last, b), after, cfg, others, b), offered, k)
  {
    var after, m' := NotReused(Candidates(last.components, last.batch + 1), b), AfterLookUp(last, b);
    LookUpSettles(last, b, source, offered, k);
    NotFoundAreSeeds(last, b);
    ContinueSettles(m', after, cfg, others, b, offered, k);
    ContinueCallsSeeds(m', after, cfg, others, b);
    SeedsUnmarked(last.components, after, Continue(m', after, cfg, others, b).calls);
  }

  lemma NotFoundAreSeeds(last: Module, b: Builder)
    ensures Seeds(AfterLookUp(last, b), NotReused(Candidates(last.components, last.batch + 1), b))
  {
    var next, candidates := last.(batch := last.batch + 1), Candidates(last.components, last.batch + 1);
    CandidatesAreSeeds(next);
    NotReusedAreSeeds(next, AfterLookUp(last, b), candidates, NotReused(candidates, b), b);
  }

  lemma SomeLeft(last: Module, cfg: Config, others: nat, b: Builder)
    requires NotReused(Candidates(last.components, last.batch + 1), b) != []
    ensures var next, candidates := last.(batch := last.batch + 1), Candidates(last.components, last.batch + 1);
      && Indices(NotReused(candidates, b), |next.components|)
      && EnterBatch(next, candidates, true, cfg, others, b)
      == Continue(AfterLookUp(last, b), NotReused(candidates, b), cfg, others, b)
  {
    NotFoundAreSeeds(last, b);
    var next, candidates := last.(batch := last.batch + 1), Candidates(last.components, last.batch + 1);
    EnterContinues(next, candidates, AfterLookUp(last, b), cfg, others, b);
  }

  lemma EnterContinues(m: Module, candidates: seq<nat>, m': Module, cfg: Config, others: nat, b: Builder)
    requires Indices(candidates, |m.components|) && Indices(NotReused(candidates, b), |m'.components|)
    requires NotReused(candidates, b) != []
    requires m' == m.(components := ReuseBatch(m.components, candidates, b),
                      reusedModule := if b.previous.Some? then b.previous else m.reusedModule)
    ensures EnterBatch(m, candidates, true, cfg, others, b) == Continue(m', NotReused(candidates, b), cfg, others, b)
  {}

  lemma AllFound(last: Module, cfg: Config, others: nat, b: Builder)
    requires NotReused(Candidates(last.components, last.batch + 1), b) == []
    ensures var next, candidates := last.(batch := last.batch + 1), Candidates(last.components, last.batch + 1);
      EnterBatch(next, candidates, true, cfg, others, b) == Outcome(AfterLookUp(last, b), [])
  {}

  lemma LookedUpSettles(
    last: Module, cfg: Config, others: nat, b: Builder, source: seq<Component>, offered: iset<string>, k: Koji)
    requires LookedUp(last.strategy, last.batch + 1) && Marks(last, offered, k) && Asked(last, b, source, offered, k)
    ensures var next, candidates := last.(batch := last.batch + 1), Candidates(last.components, last.batch + 1);
      Keeps(last, EnterBatch(next, candidates, true, cfg, others, b), offered, k)
  {
    if NotReused(Candidates(last.components, last.batch + 1), b) == [] {
      AllFound(last, cfg, others, b);
      LookUpSettles(last, b, source, offered, k);
    } else {
      SomeLeft(last, cfg, others, b);
      LookUpThenContinue(last, cfg, others, b, source, offered, k);
    }
  }

  lemma PassedOverSettles(last: Module, cfg: Config, others: nat, b: Builder, offered: iset<string>, k: Koji)
    requires Marks(last, offered, k) && !TryReuse(last) && last.batch >= 1 && Concurrency.AnswersLikeKoji(b)
    ensures var next, candidates := last.(batch := last.batch + 1), Candidates(last.components, last.batch + 1);
      Keeps(last, EnterBatch(next, candidates, false, cfg, others, b), offered, k)
  {
    var next, candidates := last.(batch := last.batch + 1), Candidates(last.components, last.batch + 1);
    CandidatesAreSeeds(next);
    NotLookedUpIsUnmarked(last, offered, k);
    CurrentUnmarked(next, offered, k);
    ContinueSettles(next, candidates, cfg, others, b, offered, k);
  }

  lemma EnterSettles(
    last: Module, cfg: Config, others: nat, b: Builder, source: seq<Component>, offered: iset<string>, k: Koji)
    requires Decide(last, b) == NextBatch && Marks(last, offered, k) && Asked(last, b, source, offered, k)
    ensures var next, candidates := last.(batch := last.batch + 1), Candidates(last.components, last.batch + 1);
      Keeps(last, EnterBatch(next, candidates, TryReuse(last), cfg, others, b), offered, k)
  {
    if TryReuse(last) {
      OnlyBatchTwoIsLookedUp(last, b, offered, k);
      LookedUpSettles(last, cfg, others, b, source, offered, k);
    } else {
      PassedOverSettles(last, cfg, others, b, offered, k);
    }
  }

  // ---- start_next_batch_build ----

  /** A batch with a marked component that waits for it is not skipped. */
  lemma SkipKeepsMarks(m: Module, b: Builder, offered: iset<string>, k: Koji)
    requires Skips(m, b) && Marks(m, offered, k)
    ensures Marks(m.(batch := m.batch + 1), offered, k)
  {
    var next := m.(batch := m.batch + 1);
    forall i | 0 <= i < |m.components| ensures Settled(next, m.components[i], offered, k) {
      assert Settled(m, m.components[i], offered, k);
      assert i !in Candidates(m.components, m.batch + 1);
    }
  }

  lemma AdvanceSubmitsNothing(m: Module, r: Outcome, out: Outcome, offered: iset<string>, k: Koji)
    requires Keeps(m, r, offered, k) && out == Outcome(r.m, [Advance(Artifacts(m.components, m.batch))] + r.calls)
    ensures Keeps(m, out, offered, k)
  {}

  lemma {:induction false} NextSettles(
    m: Module, cfg: Config, others: nat, b: Builder, depth: nat, source: seq<Component>, offered: iset<string>, k: Koji,
    out: Outcome)
    requires Returns(m, cfg, others, b, depth, out) && Marks(m, offered, k) && Asked(m, b, source, offered, k)
    ensures Keeps(m, out, offered, k)
    decreases depth
  {
    if Skips(m, b) {
      var next, left, deeper := SkipResult(m, cfg, others, b, depth, out);
      SkipKeepsMarks(m, b, offered, k);
      NextSettles(next, cfg, others, b, left, source, offered, k, deeper);
      AdvanceSubmitsNothing(m, deeper, out, offered, k);
    } else if Decide(m, b) == NextBatch {
      EnterFirstSettles(m, cfg, others, b, depth, source, offered, k, out);
    } else if Decide(m, b) == ContinueCurrent {
      ContinueBatchSettles(m, cfg, others, b, offered, k);
    }
  }

  lemma EnterFirstSettles(
    m: Module, cfg: Config, others: nat, b: Builder, depth: nat, source: seq<Component>, offered: iset<string>, k: Koji,
    out: Outcome)
    requires Decide(m, b) == NextBatch && !Skips(m, b) && Returns(m, cfg, others, b, depth, out)
    requires Marks(m, offered, k) && Asked(m, b, source, offered, k)
    ensures Keeps(m, out, offered, k)
  {
    var r := EntersWith(m, cfg, others, b, depth, out);
    EnterSettles(m, cfg, others, b, source, offered, k);
    AdvanceSubmitsNothing(m, r, out, offered, k);
  }

  // ---- the messages ----

  lemma FailedKeepsMarks(m: Module, offered: iset<string>, k: Koji)
    requires Marks(m, offered, k)
    ensures Marks(m.Transition(Lifecycle.Failed), offered, k)
  {
    forall i | 0 <= i < |m.components| ensures Settled(m.Transition(Lifecycle.Failed), m.components[i], offered, k) {
      assert Settled(m, m.components[i], offered, k);
    }
  }

  lemma SettleNext(
    r: Record, cfg: Config, others: nat, b: Builder, source: seq<Component>, offered: iset<string>, k: Koji)
    requires Marks(r.m, offered, k) && Asked(r.m, b, source, offered, k)
    ensures var next := StartNext(r.m, cfg, others, b, cfg.depth);
      Keeps(r.m, Settle(r, next), offered, k) && Keeps(r.m, Abandon(r, next), offered, k)
  {
    var next := StartNext(r.m, cfg, others, b, cfg.depth);
    if next.Success? {
      NextSettles(r.m, cfg, others, b, cfg.depth, source, offered, k, next.value);
    } else {
      FailedKeepsMarks(r.m, offered, k);
    }
  }

  /** A row that differs in states, in the direction of failure or completion, and in flags. */
  lemma SettledPointwise(m: Module, m': Module, offered: iset<string>, k: Koji)
    requires Marks(m, offered, k) && |m'.components| == |m.components|
    requires m'.strategy == m.strategy && m'.batch == m.batch && m'.reusedModule == m.reusedModule
    requires forall i :: 0 <= i < |m.components| ==>
      var c, d := m.components[i], m'.components[i];
      && d.reused == c.reused && d.package == c.package && d.task == c.task && d.batch == c.batch
      && (d.state == c.state || (d.IsFailed() && !c.IsCompleted()) || d.IsCompleted() || d.reused == None)
    ensures Marks(m', offered, k)
  {
    forall i | 0 <= i < |m'.components| ensures Settled(m', m'.components[i], offered, k) {
      assert Settled(m, m.components[i], offered, k);
    }
  }

  lemma RepoSettles(
    r: Record, cfg: Config, others: nat, b: Builder, source: seq<Component>, offered: iset<string>, k: Koji)
    requires Marks(r.m, offered, k) && Asked(r.m, b, source, offered, k)
    ensures Keeps(r.m, Settle(r, RepoDone(r.m, cfg, others, b)), offered, k)
  {
    if DecideRepo(r.m, b) == TryNextBatch {
      SettleNext(r, cfg, others, b, source, offered, k);
    } else {
      SettledPointwise(r.m, Settle(r, RepoDone(r.m, cfg, others, b)).m, offered, k);
    }
  }

  lemma PausedSettles(
    r: Record, missed: bool, cfg: Config, others: nat, b: Builder, source: seq<Component>, offered: iset<string>,
    k: Koji)
    requires Marks(r.m, offered, k) && Asked(r.m, b, source, offered, k)
    ensures Keeps(r.m, Abandon(r, ProcessPaused(r.m, missed, cfg, others, b)), offered, k)
  {
    SettleNext(r, cfg, others, b, source, offered, k);
  }

  /** A truthful message about an ended task only ever reports that it is complete. */
  lemma MarkingSettles(m: Module, i: nat, task: TaskId, state: ComponentState, nvr: Nvr, offered: iset<string>, k: Koji)
    requires Marks(m, offered, k) && Truthful(k, task, state, nvr)
    requires i < |m.components| && m.components[i].task == Some(task)
    ensures Marks(MarkBuilt(m, i, state, nvr), offered, k)
  {
    assert Settled(m, m.components[i], offered, k);
    SettledPointwise(m, MarkBuilt(m, i, state, nvr), offered, k);
  }

  lemma FinalizeSettles(
    m: Module, i: nat, task: TaskId, state: ComponentState, nvr: Nvr, cfg: Config, others: nat, b: Builder,
    offered: iset<string>, k: Koji)
    requires Marks(m, offered, k) && Truthful(k, task, state, nvr) && Concurrency.AnswersLikeKoji(b)
    requires i < |m.components| && m.components[i].task == Some(task)
    ensures Keeps(m, BuildTaskFinalize(m, i, state, nvr, cfg, others, b), offered, k)
  {
    var marked := MarkBuilt(m, i, state, nvr);
    MarkingSettles(m, i, task, state, nvr, offered, k);
    if DecideFinalize(marked, marked.components[i]) == BuildOn {
      ContinueBatchSettles(marked, cfg, others, b, offered, k);
      SameMarksUnmarked(m.components, marked.components, ContinueBatch(marked, cfg, others, b).calls);
    } else {
      FinalizeMarks(m, i, state, nvr, cfg, others, b);
      FailedKeepsMarks(marked, offered, k);
    }
  }

  lemma SameMarksUnmarked(cs: seq<Component>, ds: seq<Component>, calls: seq<Call>)
    requires SubmitsUnmarked(ds, calls) && |ds| == |cs| && forall i :: 0 <= i < |cs| ==> ds[i].reused == cs[i].reused
    ensures SubmitsUnmarked(cs, calls)
  {}

  lemma TagSettles(m: Module, buildTag: bool, nvr: Nvr, b: Builder, offered: iset<string>, k: Koji)
    requires Marks(m, offered, k)
    ensures Keeps(m, Tagged(m, buildTag, nvr, b), offered, k)
  {
    Concurrency.TagKeepsStates(m, buildTag, nvr, b);
    SettledPointwise(m, Tagged(m, buildTag, nvr, b).m, offered, k);
  }

  lemma InitSettles(m: Module, valid: bool, offered: iset<string>, k: Koji)
    requires Marks(m, offered, k)
    ensures Marks(InitHandler(m, valid), offered, k)
  {
    var planned, m' := Planning.RecordComponentBuilds(m.mmd, m.components), InitHandler(m, valid);
    if m.state == Init && valid && planned.Success? {
      Numbering.RecordModuleAddsFresh(m.mmd, None, m.components, Some(1), None, 1);
      forall i | 0 <= i < |m'.components| ensures Settled(m', m'.components[i], offered, k) {
        if i < |m.components| { assert m'.components[i] == m.components[i] && Settled(m, m.components[i], offered, k); }
      }
    } else {
      FailedKeepsMarks(m, offered, k);
    }
  }

  // ---- wait ----

  lemma ReuseAllSettles(m: Module, b: Builder, source: seq<Component>, offered: iset<string>, k: Koji)
    requires Marks(m, offered, k) && Asked(m, b, source, offered, k) && ReuseAll(m, b).reused
    ensures Marks(ReuseAll(m, b).outcome.m, offered, k)
  {
    var m' := ReuseAll(m, b).outcome.m;
    forall i | 0 <= i < |m'.components| ensures Settled(m', m'.components[i], offered, k) {
      assert Settled(m, m.components[i], offered, k);
      if !m.components[i].IsMacros() { OfferIsEnded(b, m.components, source, k, i); }
    }
  }

  /** Starting a build touches module-build-macros only. */
  lemma StartTouchesMacros(m: Module, b: Builder, j: nat)
    requires j < |WithMacros(m.components)|
    ensures var cs, ds := WithMacros(m.components), StartBuild(m, b).m.components;
      |ds| == |cs| && (ds[j] == cs[j] || (ds[j].IsMacros() && ds[j].reused == cs[j].reused))
  {
    var started := m.(batch := 1, components := WithMacros(m.components));
    if SubmitMacros(started, b).Success? { SubmitTouchesMacros(started, b, j); }
  }

  lemma SubmitTouchesMacros(m: Module, b: Builder, j: nat)
    requires Planning.Find(m.components, MACROS).Some? && SubmitMacros(m, b).Success? && j < |m.components|
    ensures var ds := SubmitMacros(m, b).value.m.components;
      && |ds| == |m.components|
      && (ds[j] == m.components[j] || (ds[j].IsMacros() && ds[j].reused == m.components[j].reused))
  {}

  /** Batch 1 is below every batch that is looked up. */
  lemma StartSettles(m: Module, b: Builder, offered: iset<string>, k: Koji)
    requires Marks(m, offered, k)
    ensures Keeps(m, StartBuild(m, b), offered, k)
  {
    var cs, m' := WithMacros(m.components), StartBuild(m, b).m;
    StartTouchesMacros(m, b, 0);
    forall j | 0 <= j < |m'.components| ensures Settled(m', m'.components[j], offered, k) {
      StartTouchesMacros(m, b, j);
      if j < |m.components| { assert cs[j] == m.components[j] && Settled(m, m.components[j], offered, k); }
      if cs[j].IsMacros() { assert cs[j].reused == None; }
    }
  }

  lemma WaitSettles(m: Module, depsFound: bool, b: Builder, source: seq<Component>, offered: iset<string>, k: Koji)
    requires Marks(m, offered, k) && Asked(m, b, source, offered, k)
    ensures Keeps(m, WaitHandler(m, depsFound, b), offered, k)
  {
    var tagged := m.(kojiTag := true);
    SettledPointwise(m, tagged, offered, k);
    var left := ReuseAll(tagged, b).outcome.m;
    if !depsFound || m.components == [] {
      SettledPointwise(m, WaitHandler(m, depsFound, b).m, offered, k);
    } else if ReuseAll(tagged, b).reused {
      ReuseAllSettles(tagged, b, source, offered, k);
      SettledPointwise(left, WaitHandler(m, depsFound, b).m, offered, k);
    } else {
      ChoosingSettles(tagged, left, offered, k);
      StartSettles(left, b, offered, k);
    }
  }

  lemma ChoosingSettles(m: Module, m': Module, offered: iset<string>, k: Koji)
    requires Marks(m, offered, k) && m' == m.(reusedModule := m'.reusedModule)
    requires m.reusedModule.Some? ==> m'.reusedModule.Some?
    ensures Marks(m', offered, k)
  {
    forall i | 0 <= i < |m'.components| ensures Settled(m', m'.components[i], offered, k) {
      assert Settled(m, m.components[i], offered, k);
    }
  }

  lemma FailureSettles(m: Module, reasonGiven: bool, offered: iset<string>, k: Koji)
    requires Marks(m, offered, k)
    ensures Keeps(m, FailedHandler(m, reasonGiven), offered, k)
  {
    CancelOnly(m.components);
    SettledPointwise(m, FailedHandler(m, reasonGiven).m, offered, k);
  }

  lemma CleanupSettles(m: Module, offered: iset<string>, k: Koji)
    requires Marks(m, offered, k)
    ensures Marks(CleanupStale(m), offered, k)
  {
    SettledPointwise(m, CleanupStale(m), offered, k);
  }

  // ---- resubmission ----

  /** A component that is reset waits for its batch, which lies above batch 0. */
  lemma ResubmitSettles(m: Module, offered: iset<string>, k: Koji)
    requires Marks(m, offered, k) && (!LeftInit(m) ==> m.components == [])
    ensures Marks(Resubmit(m), offered, k)
  {
    var m' := Resubmit(m);
    forall i | 0 <= i < |m'.components| ensures Settled(m', m'.components[i], offered, k) {
      assert Settled(m, m.components[i], offered, k);
    }
  }

  // ---- one message ----

  /** The messages on which components are looked up or submitted. */
  lemma BusySettles(
    r: Record, msg: Message, cfg: Config, others: nat, source: seq<Component>, offered: iset<string>, k: Koji)
    requires msg.WaitMessage? || msg.BuildMessage? || msg.RepoMessage? || msg.PausedTick?
    requires Marks(r.m, offered, k) && Asked(r.m, msg.b, source, offered, k)
    requires msg.BuildMessage? ==> Truthful(k, msg.task, msg.state, msg.nvr)
    requires msg.BuildMessage? && msg.index < |r.m.components| ==> r.m.components[msg.index].task == Some(msg.task)
    ensures Keeps(r.m, OutcomeOf(r, msg, cfg, others), offered, k)
  {
    match msg
    case WaitMessage(depsFound, b) => WaitSettles(r.m, depsFound, b, source, offered, k);
    case BuildMessage(i, task, state, nvr, b) =>
      if i < |r.m.components| { FinalizeSettles(r.m, i, task, state, nvr, cfg, others, b, offered, k); }
    case RepoMessage(b) => RepoSettles(r, cfg, others, b, source, offered, k);
    case PausedTick(missed, b) => PausedSettles(r, missed, cfg, others, b, source, offered, k);
  }

  lemma QuietSettles(r: Record, msg: Message, cfg: Config, others: nat, offered: iset<string>, k: Koji)
    requires !msg.WaitMessage? && !msg.BuildMessage? && !msg.RepoMessage? && !msg.PausedTick?
    requires Marks(r.m, offered, k) && (!LeftInit(r.m) ==> r.m.components == [])
    ensures Keeps(r.m, OutcomeOf(r, msg, cfg, others), offered, k)
  {
    match msg
    case InitMessage(valid) => InitSettles(r.m, valid, offered, k);
    case TagMessage(buildTag, nvr, b) => TagSettles(r.m, buildTag, nvr, b, offered, k);
    case ResubmitRequest => ResubmitSettles(r.m, offered, k);
    case FailedMessage(reasonGiven) => FailureSettles(r.m, reasonGiven, offered, k);
    case CleanupTick => CleanupSettles(r.m, offered, k);
    case _ => StillSettles(r, msg, cfg, others, offered, k);
  }

  /** Messages that touch no component. */
  lemma StillSettles(r: Record, msg: Message, cfg: Config, others: nat, offered: iset<string>, k: Koji)
    requires msg.DoneMessage? || msg.RetriggerTick? || msg.StuckTick? || msg.CancelRequest? || msg.HandlerRaised?
    requires Marks(r.m, offered, k)
    ensures Keeps(r.m, OutcomeOf(r, msg, cfg, others), offered, k)
  {
    var m' := OutcomeOf(r, msg, cfg, others).m;
    assert m' == r.m.(state := m'.state, trace := m'.trace, newRepo := m'.newRepo);
    SettledPointwise(r.m, m', offered, k);
  }

  // ---- what a module build offers ----

  /** Names that are found reusable for `m` in `prev`, once that has components. */
  ghost function OfferedBy(m: Module, prev: Module): iset<string> {
    iset package | prev.components != [] && PlansOffer(m.mmd, prev.mmd, m.strategy, package)
  }

  ghost function OfferedFrom(s: State, m: Module, source: Option<nat>): iset<string> {
    if source.Some? && source.value < |s.records| then OfferedBy(m, s.records[source.value].m) else iset{}
  }

  ghost predicate RecordMarks(s: State, m: Module) {
    Marks(m, OfferedFrom(s, m, m.reusedModule), s.koji)
  }

  ghost predicate AllMarks(s: State) {
    forall id :: 0 <= id < |s.records| ==> RecordMarks(s, s.records[id].m)
  }

  lemma PlannedIsAlike(m: Module, k: Koji)
    requires BaseInv(m, k) && Planned(m) && NoRpmNamedMacros(m.mmd) && m.components != []
    ensures AlikeSides(PlannedSide(m.mmd), Lookups.SideOf(m))
  {
    var rows := PlannedSide(m.mmd).components;
    forall i | 0 <= i < |rows| ensures !m.components[i].IsMacros() { assert !rows[i].IsMacros(); }
  }

  lemma NothingToOffer(m: Module, prev: Module, i: nat)
    requires i < |m.components| && prev.components == []
    ensures Lookups.Offer(m, prev, i) == None
  {}

  lemma OfferIff(s: State, id: nat, j: nat, i: nat)
    requires StateInv(s) && id < |s.records| && j < |s.records| && i < |s.records[id].m.components|
    ensures var m, prev := s.records[id].m, s.records[j].m;
      Lookups.Offer(m, prev, i).Some? <==> !m.components[i].IsMacros() && m.components[i].package in OfferedBy(m, prev)
  {
    var m, prev := s.records[id].m, s.records[j].m;
    assert RecordInv(s.records[id], s.koji, Buildroot(s.koji, id));
    assert RecordInv(s.records[j], s.koji, Buildroot(s.koji, j));
    if prev.components == [] {
      NothingToOffer(m, prev, i);
    } else {
      PlannedIsAlike(m, s.koji);
      PlannedIsAlike(prev, s.koji);
      OfferIsPlanned(m, prev, i);
    }
  }

  lemma AnswersRepeat(s: State, id: nat, b: Builder, k: Koji)
    requires StateInv(s) && id < |s.records| && Answers(s, id, b, k)
    ensures Repeats(b, s.records[id].m.components, OfferedFrom(s, s.records[id].m, b.previous))
  {
    var m := s.records[id].m;
    forall i | 0 <= i < |m.components|
      ensures b.previous.Some? && b.reusable(i).Some? <==>
        !m.components[i].IsMacros() && m.components[i].package in OfferedFrom(s, m, b.previous)
    {
      if b.previous.Some? { OfferIff(s, id, b.previous.value, i); }
    }
  }

  /** What is marked was offered by the module build that is looked up again. */
  lemma MarksOfAnswers(s: State, m: Module, previous: Option<nat>, k: Koji)
    requires RecordMarks(s, m) && KojiEvolves(s, k)
    requires previous == m.reusedModule || m.reusedModule == None
    ensures Marks(m, OfferedFrom(s, m, previous), k)
  {
    forall i | 0 <= i < |m.components| ensures Settled(m, m.components[i], OfferedFrom(s, m, previous), k) {
      assert Settled(m, m.components[i], OfferedFrom(s, m, m.reusedModule), s.koji);
    }
  }

  // ---- one step ----

  function SourceOf(m: Module, msg: Message): Option<nat> {
    if BuilderOf(msg).Some? then BuilderOf(msg).value.previous else m.reusedModule
  }

  lemma AskedInState(s: State, id: nat, msg: Message, k: Koji) returns (source: seq<Component>)
    requires id < |s.records| && StateInv(s) && KojiEvolves(s, k) && AllowedMessage(s, id, msg, k)
    requires BuilderOf(msg).Some?
    ensures var m, b := s.records[id].m, BuilderOf(msg).value;
      Asked(m, b, source, OfferedFrom(s, m, b.previous), k)
  {
    var b := BuilderOf(msg).value;
    source := SourceIsGood(s, id, b, k);
    AnswersRepeat(s, id, b, k);
    assert RecordInv(s.records[id], s.koji, Buildroot(s.koji, id));
  }

  predicate IsBusy(msg: Message) {
    msg.WaitMessage? || msg.BuildMessage? || msg.RepoMessage? || msg.PausedTick?
  }

  lemma BusyKeepsMarks(s: State, id: nat, msg: Message, cfg: Config, others: nat, k: Koji)
    requires id < |s.records| && StateInv(s) && KojiEvolves(s, k) && AllowedMessage(s, id, msg, k) && IsBusy(msg)
    requires var m := s.records[id].m; Marks(m, OfferedFrom(s, m, msg.b.previous), k)
    ensures var m := s.records[id].m;
      Keeps(m, OutcomeOf(s.records[id], msg, cfg, others), OfferedFrom(s, m, msg.b.previous), k)
  {
    var m := s.records[id].m;
    var source := AskedInState(s, id, msg, k);
    BusySettles(s.records[id], msg, cfg, others, source, OfferedFrom(s, m, msg.b.previous), k);
  }

  lemma NothingInInit(s: State, id: nat)
    requires id < |s.records| && StateInv(s)
    ensures !LeftInit(s.records[id].m) ==> s.records[id].m.components == []
  {
    assert RecordInv(s.records[id], s.koji, Buildroot(s.koji, id));
  }

  lemma SourceIsChosen(s: State, id: nat, msg: Message, k: Koji)
    requires id < |s.records| && AllowedMessage(s, id, msg, k)
    ensures var m := s.records[id].m; SourceOf(m, msg) == m.reusedModule || m.reusedModule == None
  {}

  lemma MessageKeepsMarks(s: State, id: nat, msg: Message, cfg: Config, others: nat, k: Koji)
    requires id < |s.records| && StateInv(s) && KojiEvolves(s, k) && AllowedMessage(s, id, msg, k)
    requires RecordMarks(s, s.records[id].m)
    ensures var m := s.records[id].m;
      Keeps(m, OutcomeOf(s.records[id], msg, cfg, others), OfferedFrom(s, m, SourceOf(m, msg)), k)
  {
    var r := s.records[id];
    SourceIsChosen(s, id, msg, k);
    MarksOfAnswers(s, r.m, SourceOf(r.m, msg), k);
    if IsBusy(msg) {
      BusyKeepsMarks(s, id, msg, cfg, others, k);
    } else {
      NothingInInit(s, id);
      QuietSettles(r, msg, cfg, others, OfferedFrom(s, r.m, SourceOf(r.m, msg)), k);
    }
  }

  /** No module build ever offers less. */
  lemma OffersGrow(s: State, s': State, m: Module, m': Module, source: Option<nat>, k: Koji)
    requires |s.records| <= |s'.records| && SameBuild(m, m')
    requires forall j :: 0 <= j < |s.records| ==> SameBuild(s.records[j].m, s'.records[j].m)
    requires Marks(m', OfferedFrom(s, m, source), k) && (m'.reusedModule.Some? ==> m'.reusedModule == source)
    requires s'.koji == k
    ensures RecordMarks(s', m')
  {
    forall i | 0 <= i < |m'.components| ensures Settled(m', m'.components[i], OfferedFrom(s', m', m'.reusedModule), k) {
      assert Settled(m', m'.components[i], OfferedFrom(s, m, source), k);
    }
  }

  lemma SourceAfter(s: State, id: nat, msg: Message, cfg: Config, others: nat, k: Koji)
    requires id < |s.records| && AllowedMessage(s, id, msg, k)
    ensures var m, m' := s.records[id].m, OutcomeOf(s.records[id], msg, cfg, others).m;
      SameBuild(m, m') && (m'.reusedModule.Some? ==> m'.reusedModule == SourceOf(m, msg))
  {
    OutcomeSource(s.records[id], msg, cfg, others);
    SourceIsChosen(s, id, msg, k);
  }

  lemma HandledKeepsMarks(s: State, s': State, id: nat, msg: Message, cfg: Config, others: nat, k: Koji)
    requires id < |s.records| && StateInv(s) && KojiEvolves(s, k) && AllowedMessage(s, id, msg, k)
    requires RecordMarks(s, s.records[id].m) && |s.records| <= |s'.records| && s'.koji == k
    requires forall j :: 0 <= j < |s.records| ==> SameBuild(s.records[j].m, s'.records[j].m)
    requires s'.records[id].m == OutcomeOf(s.records[id], msg, cfg, others).m
    ensures RecordMarks(s', s'.records[id].m)
  {
    var r, source := s.records[id], SourceOf(s.records[id].m, msg);
    MessageKeepsMarks(s, id, msg, cfg, others, k);
    SourceAfter(s, id, msg, cfg, others, k);
    OffersGrow(s, s', r.m, s'.records[id].m, source, k);
  }

  lemma StepKeepsBuilds(s: State, e: Event, cfg: Config, k: Koji)
    ensures var s' := Step(s, e, cfg, k);
      |s.records| <= |s'.records| && forall j :: 0 <= j < |s.records| ==> SameBuild(s.records[j].m, s'.records[j].m)
  {
    if e.Handle? && e.id < |s.records| { OutcomeSource(s.records[e.id], e.msg, cfg, Others(s.records, e.id)); }
  }

  lemma StepKeepsMarks(s: State, e: Event, cfg: Config, k: Koji)
    requires StateInv(s) && Allowed(s, e, k) && AllMarks(s)
    ensures AllMarks(Step(s, e, cfg, k))
  {
    var s' := Step(s, e, cfg, k);
    StepKeepsBuilds(s, e, cfg, k);
    forall id | 0 <= id < |s'.records| ensures RecordMarks(s', s'.records[id].m) {
      if e.Handle? && e.id == id < |s.records| {
        HandledKeepsMarks(s, s', id, e.msg, cfg, Others(s.records, id), k);
      } else if id < |s.records| {
        var m := s.records[id].m;
        MarksOfAnswers(s, m, m.reusedModule, k);
        OffersGrow(s, s', m, m, m.reusedModule, k);
      }
    }
  }

  lemma {:induction false} RunsKeepMarks(run: Run, cfg: Config, t: nat)
    requires IsRun(run, cfg) && t < |run.states|
    ensures AllMarks(run.states[t])
  {
    if t > 0 {
      RunsKeepMarks(run, cfg, t - 1);
      StepOfRun(run, cfg, t - 1);
      StepKeepsMarks(run.states[t - 1], run.events[t - 1].e, cfg, run.events[t - 1].koji);
    }
  }

  // ---- what runs promise ----

  /**
   In every run, what is submitted bears no mark: a component that was reused once is never submitted to the
   build system, whatever fails, is canceled or resubmitted afterwards.
   */
  lemma ReusedIsNeverSubmitted(run: Run, cfg: Config, t: nat, id: nat, msg: Message, i: nat)
    requires HandlesAt(run, cfg, t, id, msg) && Call.Submit(i) in run.events[t].calls
    requires i < |run.states[t].records[id].m.components|
    ensures run.states[t].records[id].m.components[i].reused == None
  {
    RunsKeepMarks(run, cfg, t);
    StepOfRun(run, cfg, t);
    assert Happens(run, t, cfg);
    MessageKeepsMarks(run.states[t], id, msg, cfg, Others(run.states[t].records, id), run.events[t].koji);
  }

  lemma {:induction false} BuildsStay(run: Run, cfg: Config, t: nat, u: nat, id: nat)
    requires IsRun(run, cfg) && t <= u < |run.states| && id < |run.states[t].records|
    ensures id < |run.states[u].records| && SameBuild(run.states[t].records[id].m, run.states[u].records[id].m)
  {
    if t < u {
      BuildsStay(run, cfg, t, u - 1, id);
      StepIs(run, cfg, u - 1);
      BuildStays(run.states[u - 1], run.events[u - 1].e, cfg, run.events[u - 1].koji, run.states[t].records[id].m, id);
    }
  }

  lemma StepIs(run: Run, cfg: Config, t: nat)
    requires IsRun(run, cfg) && t < |run.events|
    ensures run.states[t + 1] == Step(run.states[t], run.events[t].e, cfg, run.events[t].koji)
  {
    assert Happens(run, t, cfg);
  }

  lemma BuildStays(s: State, e: Event, cfg: Config, k: Koji, m: Module, id: nat)
    requires id < |s.records| && SameBuild(m, s.records[id].m)
    ensures var s' := Step(s, e, cfg, k); id < |s'.records| && SameBuild(m, s'.records[id].m)
  {
    StepKeepsBuilds(s, e, cfg, k);
    assert SameBuild(s.records[id].m, Step(s, e, cfg, k).records[id].m);
  }

  lemma PackagesStay(s: State, s': State, id: nat, i: nat)
    requires StateInv(s) && StateInv(s') && id < |s.records| && id < |s'.records|
    requires SameBuild(s.records[id].m, s'.records[id].m) && i < |s.records[id].m.components|
    ensures s'.records[id].m.components[i].package == s.records[id].m.components[i].package
  {
    var m, m' := s.records[id].m, s'.records[id].m;
    assert RecordInv(s.records[id], s.koji, Buildroot(s.koji, id));
    assert RecordInv(s'.records[id], s'.koji, Buildroot(s'.koji, id));
    PlannedIsAlike(m, s.koji);
    PlannedIsAlike(m', s'.koji);
    var rows := PlannedSide(m.mmd).components;
    if i < |rows| { assert m.components[i].package == rows[i].package == m'.components[i].package; }
  }

  /**
   Look-ups repeat: at any two moments of a run, a component of one module build is offered by another one
   that has components either both times or neither time.
   */
  lemma OffersRepeat(run: Run, cfg: Config, t: nat, u: nat, id: nat, j: nat, i: nat)
    requires IsRun(run, cfg) && t <= u < |run.states| && id < |run.states[t].records| && j < |run.states[t].records|
    requires i < |run.states[t].records[id].m.components| && run.states[t].records[j].m.components != []
    ensures var before, after := run.states[t].records, run.states[u].records;
      && id < |after| && j < |after| && i < |after[id].m.components|
      && (Lookups.Offer(before[id].m, before[j].m, i).Some? <==> Lookups.Offer(after[id].m, after[j].m, i).Some?)
  {
    RunsKeepInv(run, cfg, t);
    RunsKeepInv(run, cfg, u);
    BuildsStay(run, cfg, t, u, id);
    BuildsStay(run, cfg, t, u, j);
    OfferIff(run.states[t], id, j, i);
    OfferIff(run.states[u], id, j, i);
    PackagesStay(run.states[t], run.states[u], id, i);
  }

  // ---- what really runs ----

  /** In progress for the service, and not known to have ended in a build. */
  predicate ReallyRuns(c: Component, k: Koji) {
    c.IsBuilding() && !c.IsMacros() && !Ended(c, k)
  }

  function CountReal(cs: seq<Component>, k: Koji): nat {
    if cs == [] then 0 else (if ReallyRuns(cs[0], k) then 1 else 0) + CountReal(cs[1..], k)
  }

  function CountAllReal(records: seq<Record>, k: Koji): nat {
    if records == [] then 0 else CountReal(records[0].m.components, k) + CountAllReal(records[1..], k)
  }

  /** Builds that really run and that the threshold overlooks. */
  function CountHidden(cs: seq<Component>, k: Koji): nat {
    if cs == [] then 0 else (if cs[0].reused.Some? && ReallyRuns(cs[0], k) then 1 else 0) + CountHidden(cs[1..], k)
  }

  function CountAllHidden(records: seq<Record>, k: Koji): nat {
    if records == [] then 0 else CountHidden(records[0].m.components, k) + CountAllHidden(records[1..], k)
  }

  /** What is marked and not complete does not run: its task has ended. */
  lemma {:induction false} RealIsCounted(cs: seq<Component>, k: Koji)
    requires forall i :: 0 <= i < |cs| && cs[i].reused.Some? ==> Ended(cs[i], k)
    ensures CountReal(cs, k) <= CountBuilding(cs, false) && CountHidden(cs, k) == 0
  {
    if cs != [] {
      assert forall i :: 0 <= i < |cs[1..]| ==> cs[1..][i] == cs[i + 1];
      RealIsCounted(cs[1..], k);
    }
  }

  lemma {:induction false} AllRealIsCounted(records: seq<Record>, k: Koji)
    requires forall id :: 0 <= id < |records| ==> MarkedHaveEnded(records[id].m.components, k)
    ensures CountAllReal(records, k) <= Count(records, false) && CountAllHidden(records, k) == 0
  {
    if records != [] {
      assert MarkedHaveEnded(records[0].m.components, k);
      RealIsCounted(records[0].m.components, k);
      assert forall id :: 0 <= id < |records[1..]| ==> records[1..][id] == records[id + 1];
      AllRealIsCounted(records[1..], k);
    }
  }

  predicate MarkedHaveEnded(cs: seq<Component>, k: Koji) {
    forall i :: 0 <= i < |cs| && cs[i].reused.Some? ==> Ended(cs[i], k)
  }

  lemma MarksHaveEnded(s: State, m: Module)
    requires RecordMarks(s, m)
    ensures MarkedHaveEnded(m.components, s.koji)
  {
    forall i | 0 <= i < |m.components| && m.components[i].reused.Some? ensures Ended(m.components[i], s.koji) {
      assert Settled(m, m.components[i], OfferedFrom(s, m, m.reusedModule), s.koji);
    }
  }

  /**
   In every run with a limit, the builds that really run, of all module builds together and but for
   module-build-macros, stay within the limit: the threshold overlooks none of them.
   */
  lemma RealLimitHoldsInRuns(run: Run, cfg: Config, t: nat)
    requires IsRun(run, cfg) && t < |run.states| && cfg.limit != 0
    ensures CountAllReal(run.states[t].records, run.states[t].koji) <= cfg.limit
    ensures CountAllHidden(run.states[t].records, run.states[t].koji) == 0
  {
    var s := run.states[t];
    RunsKeepMarks(run, cfg, t);
    forall id | 0 <= id < |s.records| ensures MarkedHaveEnded(s.records[id].m.components, s.koji) {
      MarksHaveEnded(s, s.records[id].m);
    }
    AllRealIsCounted(s.records, s.koji);
    Concurrency.LimitHoldsInRuns(run, cfg, t);
  }

  // ---- one continuation, with the builds that are overlooked ----

  /** SubmitsWithinLimitIff for a state of the service: what is hidden is what bears a mark and really runs. */
  lemma SubmitsWithinLimitInState(s: State, id: nat, seeds: seq<nat>, cfg: Config, b: Builder)
    requires id < |s.records| && Seeds(s.records[id].m, seeds) && cfg.limit != 0
    requires Count(s.records, true) + CountAllHidden(s.records, s.koji) <= cfg.limit
    ensures var m, hidden := s.records[id].m, CountAllHidden(s.records, s.koji);
      var out := Continue(m, seeds, cfg, Others(s.records, id), b);
      var order := SortByWeight(m.components, seeds);
      var cs := Recover(m.components, order, b);
      var free := cfg.limit - Count(s.records, true) - hidden;
      |out.calls| <= free <==> Concurrency.StaysWithin(cs, Concurrency.Pending(cs, order), free, hidden)
  {
    Concurrency.CountSplits(s.records, id, true);
    Concurrency.SubmitsWithinLimitIff(
      s.records[id].m, seeds, cfg, Others(s.records, id), CountAllHidden(s.records, s.koji), b);
  }
}
