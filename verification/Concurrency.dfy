/** The limit on concurrent builds, over all module builds and in every run. */
module Concurrency {
  import opened Wrappers
  import opened Records
  import opened Batches
  import opened Handlers
  import opened SelectionTheorems
  import opened SkipRecursion
  import opened BatchInvariant
  import opened World
  import Planning
  import Numbering

  /** The running builds the limit is meant for: neither reused nor module-build-macros. */
  function Running(cs: seq<Component>): nat {
    CountBuilding(cs, false)
  }

  /** A handler did not add running builds, or it left all counted builds within the limit. */
  predicate Within(cs: seq<Component>, ds: seq<Component>, cfg: Config, others: nat) {
    Running(ds) <= Running(cs) || others + CountBuilding(ds, true) <= cfg.limit
  }

  ghost predicate AnswersLikeKoji(b: Builder) {
    forall i :: KojiAnswer(b.submit(i))
  }

  // ---- continue_batch_build ----

  lemma SubmittedWeighs(m: Module, selected: Module, chosen: seq<nat>, b: Builder)
    requires Indices(chosen, |selected.components|) && AnswersLikeKoji(b)
    requires forall i :: i in chosen ==> i < |selected.components| && selected.components[i].IsBuilding()
    ensures var final := SubmitAll(selected, chosen, b);
      && CountBuilding(final.components, false) <= CountBuilding(selected.components, false)
      && CountBuilding(final.components, true) <= CountBuilding(selected.components, true)
  {
    SubmitAllTouchesChosen(selected, chosen, b);
    var final := SubmitAll(selected, chosen, b);
    forall i | 0 <= i < |selected.components|
      ensures Weighs(final.components[i], true) <= Weighs(selected.components[i], true)
      ensures Weighs(final.components[i], false) <= Weighs(selected.components[i], false)
    {
      assert Submitted(selected.components[i], final.components[i], i in chosen);
    }
    CountPointwise(selected.components, final.components, true);
    CountPointwise(selected.components, final.components, false);
  }

  lemma ContinueWithin(m: Module, seeds: seq<nat>, cfg: Config, others: nat, b: Builder)
    requires Indices(seeds, |m.components|) && NoDuplicates(seeds) && cfg.limit != 0
    requires AnswersLikeKoji(b)
    ensures Within(m.components, Continue(m, seeds, cfg, others, b).m.components, cfg, others)
  {
    var order := SortByWeight(m.components, seeds);
    SortPermutes(m.components, seeds);
    NoDuplicatesMultiset(seeds, order);
    var recovered := Recover(m.components, order, b);
    var r := Select(recovered, order, cfg, others);
    SelectMarksChosen(recovered, order, cfg, others);
    SubmittedWeighs(m, m.(components := r.components), r.chosen, b);
    SelectWithinLimit(recovered, order, cfg, others);
    CountPointwise(m.components, recovered, false);
  }

  lemma SeedsWithin(m: Module, seeds: seq<nat>, cfg: Config, others: nat, b: Builder)
    requires Seeds(m, seeds) && cfg.limit != 0
    requires AnswersLikeKoji(b)
    ensures Within(m.components, Continue(m, seeds, cfg, others, b).m.components, cfg, others)
  {
    ContinueWithin(m, seeds, cfg, others, b);
  }

  // ---- start_next_batch_build ----

  lemma ReuseWeighs(cs: seq<Component>, names: seq<nat>, b: Builder)
    ensures Running(ReuseBatch(cs, names, b)) <= Running(cs)
  {
    CountPointwise(cs, ReuseBatch(cs, names, b), false);
  }

  lemma EnterWithin(m: Module, candidates: seq<nat>, tryReuse: bool, cfg: Config, others: nat, b: Builder)
    requires Indices(candidates, |m.components|) && NoDuplicates(candidates) && cfg.limit != 0
    requires AnswersLikeKoji(b)
    ensures Within(m.components, EnterBatch(m, candidates, tryReuse, cfg, others, b).m.components, cfg, others)
  {
    if !tryReuse {
      ContinueWithin(m, candidates, cfg, others, b);
    } else {
      var after := NotReused(candidates, b);
      NotReusedDistinct(candidates, b);
      ReuseWeighs(m.components, candidates, b);
      assert forall n :: 0 <= n < |after| ==> after[n] in after;
      var m' := m.(components := ReuseBatch(m.components, candidates, b),
                   reusedModule := if b.previous.Some? then b.previous else m.reusedModule);
      if after != [] { ContinueWithin(m', after, cfg, others, b); }
    }
  }

  lemma StayWithin(m: Module, cfg: Config, others: nat, b: Builder, depth: nat, out: Outcome)
    requires cfg.limit != 0 && AnswersLikeKoji(b)
    requires Decide(m, b) != NextBatch && StartNext(m, cfg, others, b, depth) == Success(out)
    ensures Within(m.components, out.m.components, cfg, others)
  {
    if Decide(m, b) == ContinueCurrent {
      CandidatesAreSeeds(m);
      SeedsWithin(m, Candidates(m.components, m.batch), cfg, others, b);
    }
  }

  lemma EnterFirstWithin(m: Module, cfg: Config, others: nat, b: Builder, depth: nat, out: Outcome)
    requires cfg.limit != 0 && AnswersLikeKoji(b) && StartNext(m, cfg, others, b, depth) == Success(out)
    requires Decide(m, b) == NextBatch && Candidates(m.components, m.batch + 1) != []
    ensures Within(m.components, out.m.components, cfg, others)
  {
    var next, candidates := m.(batch := m.batch + 1), Candidates(m.components, m.batch + 1);
    EnterStep(m, cfg, others, b, depth, EnterBatch(next, candidates, TryReuse(m), cfg, others, b));
    CandidatesAreSeeds(next);
    EnterWithin(next, candidates, TryReuse(m), cfg, others, b);
  }

  // ---- the handlers ----

  lemma SettleWithin(r: Record, cfg: Config, others: nat, b: Builder)
    requires cfg.limit != 0 && AnswersLikeKoji(b)
    ensures Within(r.m.components, Settle(r, StartNext(r.m, cfg, others, b, cfg.depth)).m.components, cfg, others)
  {
    var next := StartNext(r.m, cfg, others, b, cfg.depth);
    if next.Success? {
      var last, left, landed := Landing(r.m, cfg, others, b, cfg.depth, next.value);
      if Decide(last, b) == NextBatch {
        EnterFirstWithin(last, cfg, others, b, left, landed);
      } else {
        StayWithin(last, cfg, others, b, left, landed);
      }
    }
  }

  lemma FinalizeWithin(m: Module, i: nat, state: ComponentState, nvr: Nvr, cfg: Config, others: nat, b: Builder)
    requires i < |m.components| && state != Building && cfg.limit != 0 && AnswersLikeKoji(b)
    ensures Within(m.components, BuildTaskFinalize(m, i, state, nvr, cfg, others, b).m.components, cfg, others)
  {
    var marked := MarkBuilt(m, i, state, nvr);
    CountPointwise(m.components, marked.components, false);
    if DecideFinalize(marked, marked.components[i]) == BuildOn {
      CandidatesAreSeeds(marked);
      SeedsWithin(marked, Candidates(marked.components, marked.batch), cfg, others, b);
    }
  }

  lemma {:induction false} CountConcat(cs: seq<Component>, ds: seq<Component>, withMacros: bool)
    ensures CountBuilding(cs + ds, withMacros) == CountBuilding(cs, withMacros) + CountBuilding(ds, withMacros)
  {
    if cs == [] {
      assert cs + ds == ds;
    } else {
      assert (cs + ds)[1..] == cs[1..] + ds;
      CountConcat(cs[1..], ds, withMacros);
    }
  }

  lemma {:induction false} FreshRowsDoNotRun(cs: seq<Component>)
    requires forall i :: 0 <= i < |cs| ==> !cs[i].IsBuilding()
    ensures Running(cs) == 0
  {
    if cs != [] {
      assert forall i :: 0 <= i < |cs[1..]| ==> cs[1..][i] == cs[i + 1];
      FreshRowsDoNotRun(cs[1..]);
    }
  }

  lemma InitWithin(m: Module, valid: bool)
    ensures Running(InitHandler(m, valid).components) <= Running(m.components)
  {
    var planned := Planning.RecordComponentBuilds(m.mmd, m.components);
    if m.state == Init && valid && planned.Success? {
      Numbering.RecordModuleAddsFresh(m.mmd, None, m.components, Some(1), None, 1);
      var rows, n := planned.value.rows, |m.components|;
      FreshRowsDoNotRun(rows[n..]);
      CountConcat(m.components, rows[n..], false);
      assert rows == m.components + rows[n..];
    }
  }

  /** Module-build-macros alone may start running, and is not counted. */
  lemma WaitWithin(m: Module, depsFound: bool, b: Builder)
    ensures Running(WaitHandler(m, depsFound, b).m.components) <= Running(m.components)
  {
    if depsFound && m.components != [] {
      var tagged := m.(kojiTag := true);
      if ReuseAll(tagged, b).reused {
        CountPointwise(m.components, ReuseEvery(m.components, b), false);
      } else {
        WithMacrosWithin(m.components);
        var started := ReuseAll(tagged, b).outcome.m.(batch := 1, components := WithMacros(m.components));
        SubmitMacrosWithin(started, b);
      }
    }
  }

  lemma WithMacrosWithin(cs: seq<Component>)
    ensures Running(WithMacros(cs)) == Running(cs)
  {
    CountConcat(cs, [MacrosRow(|cs|)], false);
  }

  lemma SubmitMacrosWithin(m: Module, b: Builder)
    requires Planning.Find(m.components, MACROS).Some?
    ensures SubmitMacros(m, b).Success? ==> Running(SubmitMacros(m, b).value.m.components) <= Running(m.components)
  {
    if SubmitMacros(m, b).Success? { CountPointwise(m.components, SubmitMacros(m, b).value.m.components, false); }
  }

  lemma TagKeepsStates(m: Module, buildTag: bool, nvr: Nvr, b: Builder)
    ensures var cs, found := Tagged(m, buildTag, nvr, b).m.components, FindNvr(m.components, nvr);
      cs == if found == None then m.components else MarkTag(m, found.value, buildTag).components
  {}

  lemma TaggedWithin(m: Module, buildTag: bool, nvr: Nvr, b: Builder)
    ensures Running(Tagged(m, buildTag, nvr, b).m.components) <= Running(m.components)
  {
    TagKeepsStates(m, buildTag, nvr, b);
    var found := FindNvr(m.components, nvr);
    if found.Some? { CountPointwise(m.components, MarkTag(m, found.value, buildTag).components, false); }
  }

  /** What the messages considered say about submissions and ended tasks. */
  ghost predicate Reported(msg: Message) {
    match msg
    case BuildMessage(_, _, state, _, b) => state != Building && AnswersLikeKoji(b)
    case RepoMessage(b) => AnswersLikeKoji(b)
    case PausedTick(_, b) => AnswersLikeKoji(b)
    case _ => true
  }

  /** Messages on which no batch goes on. */
  lemma QuietWithin(r: Record, msg: Message, cfg: Config, others: nat)
    requires !msg.BuildMessage? && !msg.RepoMessage? && !msg.PausedTick?
    ensures Running(OutcomeOf(r, msg, cfg, others).m.components) <= Running(r.m.components)
  {
    match msg
    case InitMessage(valid) => InitWithin(r.m, valid);
    case WaitMessage(depsFound, b) => WaitWithin(r.m, depsFound, b);
    case TagMessage(buildTag, nvr, b) => TaggedWithin(r.m, buildTag, nvr, b);
    case FailedMessage(_) => CountPointwise(r.m.components, FailUnbuilt(r.m.components), false);
    case CleanupTick => CountPointwise(r.m.components, Untag(r.m.components), false);
    case ResubmitRequest => CountPointwise(r.m.components, ResetIncomplete(r.m.components), false);
    case _ =>
  }

  lemma RepoWithin(r: Record, cfg: Config, others: nat, b: Builder)
    requires cfg.limit != 0 && AnswersLikeKoji(b)
    ensures Within(r.m.components, Settle(r, RepoDone(r.m, cfg, others, b)).m.components, cfg, others)
  {
    if DecideRepo(r.m, b) == TryNextBatch { SettleWithin(r, cfg, others, b); }
  }

  lemma PausedWithin(r: Record, missed: bool, cfg: Config, others: nat, b: Builder)
    requires cfg.limit != 0 && AnswersLikeKoji(b)
    ensures Within(r.m.components, Abandon(r, ProcessPaused(r.m, missed, cfg, others, b)).m.components, cfg, others)
  {
    SettleWithin(r, cfg, others, b);
  }

  lemma OutcomeWithin(r: Record, msg: Message, cfg: Config, others: nat)
    requires cfg.limit != 0 && Reported(msg)
    ensures Within(r.m.components, OutcomeOf(r, msg, cfg, others).m.components, cfg, others)
  {
    match msg
    case BuildMessage(i, _, state, nvr, b) =>
      if i < |r.m.components| { FinalizeWithin(r.m, i, state, nvr, cfg, others, b); }
    case RepoMessage(b) => RepoWithin(r, cfg, others, b);
    case PausedTick(missed, b) => PausedWithin(r, missed, cfg, others, b);
    case _ => QuietWithin(r, msg, cfg, others);
  }

  // ---- all module builds ----

  function Rest(records: seq<Record>, id: nat, withMacros: bool): nat
    requires id < |records|
  {
    Count(records[..id], withMacros) + Count(records[id + 1..], withMacros)
  }

  lemma {:induction false} CountSplits(records: seq<Record>, id: nat, withMacros: bool)
    requires id < |records|
    ensures Count(records, withMacros)
         == Rest(records, id, withMacros) + CountBuilding(records[id].m.components, withMacros)
  {
    if id > 0 {
      assert records[1..][..id - 1] == records[..id][1..];
      assert records[1..][id..] == records[id + 1..];
      CountSplits(records[1..], id - 1, withMacros);
    } else {
      assert records[..id] == [];
    }
  }

  lemma {:induction false} TotalWithoutMacros(records: seq<Record>)
    ensures Count(records, false) <= Count(records, true)
  {
    if records != [] {
      CountWithoutMacros(records[0].m.components);
      TotalWithoutMacros(records[1..]);
    }
  }

  lemma {:induction false} CountAppend(records: seq<Record>, r: Record)
    requires r.m.components == []
    ensures Count(records + [r], false) == Count(records, false)
  {
    if records != [] {
      assert (records + [r])[1..] == records[1..] + [r];
      CountAppend(records[1..], r);
    } else {
      assert (records + [r])[1..] == [];
    }
  }

  lemma HandleWithin(s: State, id: nat, msg: Message, cfg: Config)
    requires id < |s.records| && cfg.limit != 0 && Reported(msg) && Count(s.records, false) <= cfg.limit
    ensures Count(s.records[id := StepRecord(s.records[id], msg, cfg, Others(s.records, id))], false) <= cfg.limit
  {
    var others := Others(s.records, id);
    var r' := StepRecord(s.records[id], msg, cfg, others);
    var records' := s.records[id := r'];
    OutcomeWithin(s.records[id], msg, cfg, others);
    CountSplits(s.records, id, false);
    CountSplits(records', id, false);
    CountSplits(records', id, true);
    TotalWithoutMacros(records');
    assert records'[..id] == s.records[..id] && records'[id + 1..] == s.records[id + 1..];
  }

  lemma StepWithin(s: State, e: Event, cfg: Config, k: Koji)
    requires cfg.limit != 0 && Allowed(s, e, k) && Count(s.records, false) <= cfg.limit
    ensures Count(Step(s, e, cfg, k).records, false) <= cfg.limit
  {
    match e
    case KojiMoves =>
    case SubmitModule(mmd, strategy, scratch, previous) =>
      CountAppend(s.records, Record(NewModule(mmd, strategy, scratch, previous), History({}, {}, 0)));
    case Handle(id, msg) =>
      if id < |s.records| { HandleWithin(s, id, msg, cfg); }
  }

  /**
   In every run with a limit, the running builds of all module builds together, without reused
   components and module-build-macros, never exceed it.
   */
  lemma {:induction false} LimitHoldsInRuns(run: Run, cfg: Config, t: nat)
    requires IsRun(run, cfg) && t < |run.states| && cfg.limit != 0
    ensures Count(run.states[t].records, false) <= cfg.limit
  {
    if t > 0 {
      LimitHoldsInRuns(run, cfg, t - 1);
      assert Happens(run, t - 1, cfg);
      StepWithin(run.states[t - 1], run.events[t - 1].e, cfg, run.events[t - 1].koji);
    }
  }

  // ---- builds the threshold overlooks ----

  /** The indices of `order` that are still to be built, in its order. */
  function Pending(cs: seq<Component>, order: seq<nat>): (r: seq<nat>)
    requires Indices(order, |cs|)
    ensures Indices(r, |cs|)
    ensures forall i :: i in r ==> i in order
  {
    if order == [] then []
    else if cs[order[0]].IsCompleted() then Pending(cs, order[1..])
    else [order[0]] + Pending(cs, order[1..])
  }

  lemma {:induction false} PendingSees(cs: seq<Component>, ds: seq<Component>, order: seq<nat>)
    requires |ds| == |cs| && Indices(order, |cs|)
    requires forall i :: i in order ==> ds[i].IsCompleted() == cs[i].IsCompleted()
    ensures Pending(ds, order) == Pending(cs, order)
  {
    if order != [] { PendingSees(cs, ds, order[1..]); }
  }

  /** None of the first `n` still to be built was once reused. */
  predicate FirstUnmarked(cs: seq<Component>, todo: seq<nat>, n: int)
    requires Indices(todo, |cs|)
  {
    forall k :: 0 <= k < |todo| && k < n ==> cs[todo[k]].reused == None
  }

  lemma UnmarkedFirst(cs: seq<Component>, ds: seq<Component>, h: nat, rest: seq<nat>, n: nat)
    requires |ds| == |cs| && h < |cs| && Indices(rest, |cs|) && n > 0
    requires forall i :: 0 <= i < |cs| ==> ds[i].reused == cs[i].reused
    ensures FirstUnmarked(cs, [h] + rest, n) <==> cs[h].reused == None && FirstUnmarked(ds, rest, n - 1)
  {
    var todo := [h] + rest;
    assert todo[0] == h;
    forall k | 0 <= k < |rest| ensures todo[k + 1] == rest[k] {}
  }

  /** Enough slots for all, or the threshold overlooks no build: none running, none chosen before the slots are full. */
  predicate StaysWithin(cs: seq<Component>, todo: seq<nat>, free: int, hidden: nat)
    requires Indices(todo, |cs|)
  {
    |todo| <= free || (hidden == 0 && FirstUnmarked(cs, todo, free))
  }

  function HiddenAfter(c: Component, hidden: nat): nat {
    if c.reused == None then hidden else hidden + 1
  }

  lemma OneMoreStaysWithin(cs: seq<Component>, ds: seq<Component>, h: nat, rest: seq<nat>, free: nat, hidden: nat)
    requires |ds| == |cs| && h < |cs| && Indices(rest, |cs|) && free > 0
    requires forall i :: 0 <= i < |cs| ==> ds[i].reused == cs[i].reused
    ensures StaysWithin(cs, [h] + rest, free, hidden) <==> StaysWithin(ds, rest, free - 1, HiddenAfter(cs[h], hidden))
  {
    UnmarkedFirst(cs, ds, h, rest, free);
  }

  /** The loop chooses no more than the free slots exactly when nothing is overlooked before they are full. */
  lemma {:induction false} SelectWithinSlotsIff(cs: seq<Component>, order: seq<nat>, cfg: Config, others: nat, hidden: nat)
    requires Indices(order, |cs|) && NoDuplicates(order) && cfg.limit != 0
    requires Idle(cs, order)
    requires others + CountBuilding(cs, true) + hidden <= cfg.limit
    ensures var free := cfg.limit - others - CountBuilding(cs, true) - hidden;
      |Select(cs, order, cfg, others).chosen| <= free <==> StaysWithin(cs, Pending(cs, order), free, hidden)
    decreases |order|, 1
  {
    if order != [] {
      if cs[order[0]].IsCompleted() {
        SelectWithinSlotsIff(cs, order[1..], cfg, others, hidden);
      } else if !AtThreshold(cfg, others, cs) {
        SelectOneWithinSlots(cs, order, cfg, others, hidden);
      }
    }
  }

  lemma SelectOne(cs: seq<Component>, order: seq<nat>, cfg: Config, others: nat) returns (next: seq<Component>)
    requires Indices(order, |cs|) && NoDuplicates(order) && order != [] && !cs[order[0]].IsBuilding()
    requires !cs[order[0]].IsCompleted() && !AtThreshold(cfg, others, cs)
    ensures next == cs[order[0] := cs[order[0]].(state := Building)]
    ensures |Select(cs, order, cfg, others).chosen| == 1 + |Select(next, order[1..], cfg, others).chosen|
    ensures Pending(cs, order) == [order[0]] + Pending(next, order[1..])
    ensures CountBuilding(next, true) == CountBuilding(cs, true) + if cs[order[0]].reused == None then 1 else 0
  {
    var h := order[0];
    next := cs[h := cs[h].(state := Building)];
    CountUpdate(cs, h, cs[h].(state := Building), true);
    PendingSees(cs, next, order[1..]);
  }

  predicate Idle(cs: seq<Component>, order: seq<nat>) {
    forall i :: i in order ==> i < |cs| && !cs[i].IsBuilding()
  }

  lemma RestIsIdle(cs: seq<Component>, order: seq<nat>, next: seq<Component>)
    requires order != [] && Indices(order, |cs|) && NoDuplicates(order) && Idle(cs, order)
    requires next == cs[order[0] := cs[order[0]].(state := Building)]
    ensures NoDuplicates(order[1..]) && Indices(order[1..], |next|) && Idle(next, order[1..])
  {
    var rest := order[1..];
    forall n | 0 <= n < |rest| ensures rest[n] == order[n + 1] && rest[n] != order[0] {}
    forall i | i in rest ensures i < |next| && !next[i].IsBuilding() { assert i in order; }
  }

  lemma {:induction false} SelectOneWithinSlots(
    cs: seq<Component>, order: seq<nat>, cfg: Config, others: nat, hidden: nat)
    requires Indices(order, |cs|) && NoDuplicates(order) && cfg.limit != 0 && order != [] && Idle(cs, order)
    requires others + CountBuilding(cs, true) + hidden <= cfg.limit
    requires !cs[order[0]].IsCompleted() && !AtThreshold(cfg, others, cs)
    ensures var free := cfg.limit - others - CountBuilding(cs, true) - hidden;
      |Select(cs, order, cfg, others).chosen| <= free <==> StaysWithin(cs, Pending(cs, order), free, hidden)
    decreases |order|, 0
  {
    var free := cfg.limit - others - CountBuilding(cs, true) - hidden;
    var next := SelectOne(cs, order, cfg, others);
    var rest, h := Pending(next, order[1..]), HiddenAfter(cs[order[0]], hidden);
    if free > 0 {
      RestIsIdle(cs, order, next);
      SelectWithinSlotsIff(next, order[1..], cfg, others, h);
      OneMoreStaysWithin(cs, next, order[0], rest, free, hidden);
    }
  }

  lemma {:induction false} SubmitCallsCount(chosen: seq<nat>)
    ensures |SubmitCalls(chosen)| == |chosen|
  {
    if chosen != [] { SubmitCallsCount(chosen[1..]); }
  }

  lemma SameWeights(cs: seq<Component>, ds: seq<Component>)
    requires |ds| == |cs| && forall i :: 0 <= i < |cs| ==> Weighs(ds[i], true) == Weighs(cs[i], true)
    ensures CountBuilding(ds, true) == CountBuilding(cs, true)
  {
    CountPointwise(cs, ds, true);
    CountPointwise(ds, cs, true);
  }

  lemma RecoveryKeepsWeight(cs: seq<Component>, order: seq<nat>, b: Builder, i: nat)
    requires i < |cs| && (i in order ==> !cs[i].IsBuilding())
    ensures Weighs(Recover(cs, order, b)[i], true) == Weighs(cs[i], true)
  {
    if i in order { RecoveryWeighs(cs[i], b.orphan(i)); }
  }

  lemma RecoveryKeepsCount(cs: seq<Component>, order: seq<nat>, ds: seq<Component>, b: Builder)
    requires ds == Recover(cs, order, b) && Idle(cs, order)
    ensures CountBuilding(ds, true) == CountBuilding(cs, true)
  {
    forall i | 0 <= i < |cs| ensures Weighs(ds[i], true) == Weighs(cs[i], true) {
      RecoveryKeepsWeight(cs, order, b, i);
    }
    SameWeights(cs, ds);
  }

  lemma RecoveryWeighs(c: Component, found: Option<Orphan>)
    requires !c.IsBuilding()
    ensures Weighs(RecoverOne(c, found), true) == 0 && Weighs(c, true) == 0
  {}

  lemma ContinueCalls(m: Module, seeds: seq<nat>, cfg: Config, others: nat, b: Builder, order: seq<nat>, cs: seq<Component>)
    requires Indices(seeds, |m.components|)
    requires order == SortByWeight(m.components, seeds) && cs == Recover(m.components, order, b)
    ensures |Continue(m, seeds, cfg, others, b).calls| == |Select(cs, order, cfg, others).chosen|
  {
    SubmitCallsCount(Select(cs, order, cfg, others).chosen);
  }

  /**
   One continue_batch_build, when `hidden` running builds carry a mark of an earlier reuse (a failed build
   that is resubmitted keeps it) and are not counted, and the limit holds with them. What it submits keeps
   to the limit if and only if the free slots are enough for all that is left to build, or no running build
   is hidden and none of the components that fill the free slots, heaviest first, carries such a mark.
   */
  lemma SubmitsWithinLimitIff(m: Module, seeds: seq<nat>, cfg: Config, others: nat, hidden: nat, b: Builder)
    requires Seeds(m, seeds) && cfg.limit != 0
    requires others + CountBuilding(m.components, true) + hidden <= cfg.limit
    ensures var out, free := Continue(m, seeds, cfg, others, b), cfg.limit - others - CountBuilding(m.components, true) - hidden;
      var order := SortByWeight(m.components, seeds);
      var cs := Recover(m.components, order, b);
      |out.calls| <= free <==> StaysWithin(cs, Pending(cs, order), free, hidden)
  {
    var order := SortByWeight(m.components, seeds);
    var cs := Recover(m.components, order, b);
    RecoveredInOrder(m.components, seeds, order, cs, b);
    SeedsAreIdle(m, seeds, order, cs, b);
    RecoveryKeepsCount(m.components, order, cs, b);
    SelectWithinSlotsIff(cs, order, cfg, others, hidden);
    ContinueCalls(m, seeds, cfg, others, b, order, cs);
  }

  lemma SeedsAreIdle(m: Module, seeds: seq<nat>, order: seq<nat>, cs: seq<Component>, b: Builder)
    requires Seeds(m, seeds) && cs == Recover(m.components, order, b) && forall i :: i in order <==> i in seeds
    ensures Idle(m.components, order) && Idle(cs, order)
  {}

  predicate Marked(c: Component) {
    c.reused != None && !c.IsCompleted() && !c.IsBuilding()
  }

  lemma {:induction false} MarkedAreAllChosen(cs: seq<Component>, order: seq<nat>, cfg: Config, others: nat)
    requires Indices(order, |cs|) && NoDuplicates(order) && !AtThreshold(cfg, others, cs)
    requires forall i :: i in order ==> Marked(cs[i])
    ensures Select(cs, order, cfg, others).chosen == order
    decreases |order|
  {
    if order != [] {
      var h := order[0];
      var next := cs[h := cs[h].(state := Building)];
      CountUpdate(cs, h, cs[h].(state := Building), true);
      assert h !in order[1..];
      MarkedAreAllChosen(next, order[1..], cfg, others);
      assert order == [h] + order[1..];
    }
  }

  /** Where every component left to build carries a mark, one free slot is enough for all of them. */
  lemma MarkedAreAllSubmitted(m: Module, seeds: seq<nat>, cfg: Config, others: nat, b: Builder)
    requires Seeds(m, seeds) && !AtThreshold(cfg, others, m.components)
    requires forall i :: i in seeds ==> Marked(m.components[i]) && b.orphan(i) == None
    ensures |Continue(m, seeds, cfg, others, b).calls| == |seeds|
  {
    var order := SortByWeight(m.components, seeds);
    var cs := Recover(m.components, order, b);
    RecoveredInOrder(m.components, seeds, order, cs, b);
    assert cs == m.components;
    MarkedAreAllChosen(cs, order, cfg, others);
    SubmitCallsCount(order);
    SortPermutes(m.components, seeds);
    assert |multiset(order)| == |multiset(seeds)|;
  }
}
