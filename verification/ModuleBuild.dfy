/**
 The row of one module build as the handlers work on it, in place and step by step. Every method is
 proved to do what the function of the same handler says, so what is proved of runs holds of them.
 */
module ModuleBuilds {
  import opened Wrappers
  import opened Records
  import opened Batches
  import opened Handlers
  import opened SkipRecursion
  import opened World
  import Planning

  class ModuleBuild {
    const mmd: ModuleMd
    const strategy: Strategy
    const scratch: bool
    var state: Lifecycle
    var trace: seq<Lifecycle>
    var batch: nat
    var components: seq<Component>
    var newRepo: Option<TaskId>
    var kojiTag: bool
    var reusedModule: Option<nat>

    /** ModuleBuild.create */
    constructor (mmd: ModuleMd, strategy: Strategy, scratch: bool, reusedModule: Option<nat>)
      ensures Value() == NewModule(mmd, strategy, scratch, reusedModule)
    {
      this.mmd, this.strategy, this.scratch, this.reusedModule := mmd, strategy, scratch, reusedModule;
      state, trace, batch, components, newRepo, kojiTag := Init, [Init], 0, [], None, false;
    }

    function Value(): Module
      reads this
    {
      Module(mmd, strategy, scratch, state, trace, batch, components, newRepo, kojiTag, reusedModule)
    }

    method Transition(s: Lifecycle)
      modifies this`state, this`trace
      ensures Value() == old(Value()).Transition(s)
    {
      state := s;
      trace := trace + [s];
    }

    // ---- batches.py ----

    method StartBuildComponent(i: nat, b: Builder)
      requires i < |components|
      modifies this`components, this`state, this`trace
      ensures Value() == SubmitOne(old(Value()), i, b)
    {
      var c := components[i];
      match b.submit(i)
      case Raised =>
        components := components[i := c.(state := FailedBuild)];
        Transition(Lifecycle.Failed);
      case Answer(task, s, nvr) =>
        c := c.(task := task, state := s, nvr := nvr);
        if c.task == None && c.IsBuilding() {
          components := components[i := c.(state := FailedBuild)];
          Transition(Lifecycle.Failed);
        } else {
          components := components[i := c];
        }
    }

    method RecoverOrphans(order: seq<nat>, b: Builder)
      requires Indices(order, |components|)
      modifies this`components
      ensures Value() == old(Value()).(components := Recover(old(components), order, b))
    {
      ghost var before := components;
      var k := 0;
      assert components == Recover(before, order[..0], b);
      while k < |order|
        invariant 0 <= k <= |order|
        invariant components == Recover(before, order[..k], b)
      {
        var i := order[k];
        if components[i].IsWaitingForBuild() && b.orphan(i).Some? {
          components := components[i := RecoverOne(components[i], b.orphan(i))];
        }
        RecoverMore(before, order[..k], i, b);
        assert order[..k + 1] == order[..k] + [i];
        k := k + 1;
      }
      assert order[..k] == order;
    }

    static lemma RecoverMore(cs: seq<Component>, order: seq<nat>, i: nat, b: Builder)
      requires i < |cs|
      ensures var r := Recover(cs, order, b);
        Recover(cs, order + [i], b) == r[i := RecoverOne(r[i], b.orphan(i))]
    {}

    method SelectComponents(order: seq<nat>, cfg: Config, others: nat) returns (chosen: seq<nat>)
      requires Indices(order, |components|)
      modifies this`components
      ensures var r := Select(old(components), order, cfg, others);
        Value() == old(Value()).(components := r.components) && chosen == r.chosen
    {
      chosen := [];
      var k := 0;
      assert order[0..] == order;
      while k < |order|
        invariant 0 <= k <= |order| && |components| == |old(components)|
        invariant var r := Select(components, order[k..], cfg, others);
          Select(old(components), order, cfg, others) == Selection(r.components, chosen + r.chosen)
      {
        var i := order[k];
        assert order[k..][0] == i && order[k..][1..] == order[k + 1..];
        if !components[i].IsCompleted() {
          if AtThreshold(cfg, others, components) { return; }
          ghost var rest := Select(components, order[k..], cfg, others).chosen;
          components := components[i := components[i].(state := Building)];
          assert chosen + rest == (chosen + [i]) + Select(components, order[k + 1..], cfg, others).chosen;
          chosen := chosen + [i];
        }
        k := k + 1;
      }
    }

    static lemma SubmitFrom(m: Module, chosen: seq<nat>, k: nat, calls: seq<Call>, b: Builder)
      requires k < |chosen| && Indices(chosen, |m.components|)
      ensures SubmitAll(m, chosen[k..], b) == SubmitAll(SubmitOne(m, chosen[k], b), chosen[k + 1..], b)
      ensures calls + SubmitCalls(chosen[k..]) == (calls + [Submit(chosen[k])]) + SubmitCalls(chosen[k + 1..])
    {
      assert chosen[k..][0] == chosen[k] && chosen[k..][1..] == chosen[k + 1..];
    }

    method SubmitComponents(chosen: seq<nat>, b: Builder) returns (calls: seq<Call>)
      requires Indices(chosen, |components|)
      modifies this`components, this`state, this`trace
      ensures Value() == SubmitAll(old(Value()), chosen, b) && calls == SubmitCalls(chosen)
    {
      calls := [];
      var k := 0;
      assert chosen[0..] == chosen;
      while k < |chosen|
        invariant 0 <= k <= |chosen| && |components| == |old(components)|
        invariant SubmitAll(old(Value()), chosen, b) == SubmitAll(Value(), chosen[k..], b)
        invariant SubmitCalls(chosen) == calls + SubmitCalls(chosen[k..])
      {
        SubmitFrom(Value(), chosen, k, calls, b);
        StartBuildComponent(chosen[k], b);
        calls := calls + [Submit(chosen[k])];
        k := k + 1;
      }
    }

    /** No seeds stand for everything in the batch that is still to be built. */
    function SeedsOr(seeds: seq<nat>): seq<nat>
      reads this
    {
      if seeds != [] then seeds else Candidates(components, batch)
    }

    method ContinueBatchBuild(seeds: seq<nat>, cfg: Config, others: nat, b: Builder) returns (calls: seq<Call>)
      requires Indices(seeds, |components|)
      modifies this`components, this`state, this`trace
      ensures Outcome(Value(), calls) == Continue(old(Value()), old(SeedsOr(seeds)), cfg, others, b)
    {
      var order := SortByWeight(components, SeedsOr(seeds));
      RecoverOrphans(order, b);
      var chosen := SelectComponents(order, cfg, others);
      calls := SubmitComponents(chosen, b);
    }

    /** Reuses what can be reused of `names`, and returns the others. */
    method ReuseComponents(names: seq<nat>, b: Builder) returns (after: seq<nat>)
      requires Indices(names, |components|)
      modifies this`components, this`reusedModule
      ensures Value() == old(Value()).(
        components := ReuseBatch(old(components), names, b),
        reusedModule := if b.previous.Some? then b.previous else old(reusedModule))
      ensures after == NotReused(names, b)
    {
      after := [];
      if b.previous.Some? { reusedModule := b.previous; }
      ghost var before := components;
      var k := 0;
      assert components == ReuseBatch(before, names[..0], b);
      assert names[0..] == names;
      while k < |names|
        modifies this`components
        invariant 0 <= k <= |names| && |components| == |before|
        invariant components == ReuseBatch(before, names[..k], b)
        invariant NotReused(names, b) == after + NotReused(names[k..], b)
      {
        var i := names[k];
        NotReusedFrom(names, k, b, after);
        if b.previous.Some? && b.reusable(i).Some? {
          components := components[i := Reuse(components[i], b.reusable(i).value, false)];
        } else {
          after := after + [i];
        }
        ReuseMore(before, names[..k], i, b);
        assert names[..k + 1] == names[..k] + [i];
        k := k + 1;
      }
      assert names[..k] == names;
    }

    static lemma NotReusedFrom(names: seq<nat>, k: nat, b: Builder, after: seq<nat>)
      requires k < |names|
      ensures after + NotReused(names[k..], b) ==
        (if b.previous.Some? && b.reusable(names[k]).Some? then after else after + [names[k]])
        + NotReused(names[k + 1..], b)
    {
      assert names[k..][0] == names[k] && names[k..][1..] == names[k + 1..];
      var rest := NotReused(names[k + 1..], b);
      assert after + ([names[k]] + rest) == (after + [names[k]]) + rest;
    }

    static lemma ReuseMore(cs: seq<Component>, names: seq<nat>, i: nat, b: Builder)
      requires i < |cs|
      ensures var r := ReuseBatch(cs, names, b);
        ReuseBatch(cs, names + [i], b) ==
          if b.previous.Some? && b.reusable(i).Some? then r[i := Reuse(r[i], b.reusable(i).value, false)] else r
    {}

    /** The part of start_next_batch_build that comes once the new batch holds something to submit. */
    method EnterNextBatch(candidates: seq<nat>, tryReuse: bool, cfg: Config, others: nat, b: Builder)
      returns (calls: seq<Call>)
      requires Indices(candidates, |components|) && candidates != []
      modifies this`components, this`state, this`trace, this`reusedModule
      ensures Outcome(Value(), calls) == EnterBatch(old(Value()), candidates, tryReuse, cfg, others, b)
    {
      var after := candidates;
      if tryReuse {
        after := ReuseComponents(candidates, b);
        if after == [] { return []; }
        assert forall n :: 0 <= n < |after| ==> after[n] in after;
      }
      calls := ContinueBatchBuild(after, cfg, others, b);
    }

    /** The checks of start_next_batch_build, in the order it makes them. */
    method DecideNext(b: Builder) returns (d: Decision)
      ensures d == Decide(Value(), b)
    {
      if !Value().AnyUnbuilt() { return Idle; }
      if batch == 0 { return NoBatch; }
      if Value().AnyWaitingInBatch() { return ContinueCurrent; }
      if Value().AnyBuildingInBatch() { return Idle; }
      if Value().AnyUnsuccessful() { return Idle; }
      if b.activeTasks { return RelictTasks; }
      if !b.ready(Artifacts(components, batch)) { return Idle; }
      d := NextBatch;
    }

    /** start_next_batch_build when a check keeps it in the current batch. */
    method StayInBatch(d: Decision, cfg: Config, others: nat, b: Builder) returns (r: Result<seq<Call>, PyError>)
      requires d == Decide(Value(), b) && d != NextBatch
      modifies this`components, this`state, this`trace
      ensures forall depth: nat :: Agrees(old(Value()), StartNext(old(Value()), cfg, others, b, depth), r)
    {
      match d
      case Idle => r := Success([]);
      case NoBatch => r := Failure(NoBatchInProgress);
      case ContinueCurrent =>
        var calls := ContinueBatchBuild([], cfg, others, b);
        r := Success(calls);
      case RelictTasks =>
        Transition(Lifecycle.Failed);
        r := Success([]);
    }

    /** `r` and the row agree with what the function says of row `before`; after an exception only `batch` moved. */
    ghost predicate Agrees(before: Module, spec: Result<Outcome, PyError>, r: Result<seq<Call>, PyError>)
      reads this
    {
      match spec
      case Success(out) => r == Success(out.calls) && Value() == out.m
      case Failure(e) => r == Failure(e) && Value() == before.(batch := batch)
    }

    /** start_next_batch_build */
    method StartNextBatchBuild(cfg: Config, others: nat, b: Builder, depth: nat) returns (r: Result<seq<Call>, PyError>)
      modifies this`components, this`state, this`trace, this`reusedModule, this`batch
      ensures Agrees(old(Value()), StartNext(old(Value()), cfg, others, b, depth), r)
      decreases depth, 1
    {
      var d := DecideNext(b);
      if d != NextBatch {
        r := StayInBatch(d, cfg, others, b);
        return;
      }
      ghost var before := Value();
      var artifacts := Artifacts(components, batch);
      var tryReuse := TryReuse(Value());
      batch := batch + 1;
      var candidates := Candidates(components, batch);
      if candidates == [] {
        r := SkipBatch(before, artifacts, cfg, others, b, depth);
      } else {
        r := BuildBatch(before, artifacts, candidates, tryReuse, cfg, others, b, depth);
      }
    }

    method BuildBatch(
      ghost before: Module, artifacts: seq<Option<Nvr>>, candidates: seq<nat>, tryReuse: bool,
      cfg: Config, others: nat, b: Builder, ghost depth: nat)
      returns (r: Result<seq<Call>, PyError>)
      requires Decide(before, b) == NextBatch && Value() == before.(batch := before.batch + 1)
      requires candidates == Candidates(components, batch) && candidates != [] && tryReuse == TryReuse(before)
      requires artifacts == Artifacts(before.components, before.batch)
      modifies this`components, this`state, this`trace, this`reusedModule
      ensures Agrees(before, StartNext(before, cfg, others, b, depth), r)
    {
      var calls := EnterNextBatch(candidates, tryReuse, cfg, others, b);
      EnterStep(before, cfg, others, b, depth, Outcome(Value(), calls));
      r := Success([Advance(artifacts)] + calls);
    }

    /** The recursive call for a batch with nothing to build. */
    method SkipBatch(
      ghost before: Module, artifacts: seq<Option<Nvr>>, cfg: Config, others: nat, b: Builder, depth: nat)
      returns (r: Result<seq<Call>, PyError>)
      requires Skips(before, b) && Value() == before.(batch := before.batch + 1)
      requires artifacts == Artifacts(before.components, before.batch)
      modifies this`components, this`state, this`trace, this`reusedModule, this`batch
      ensures Agrees(before, StartNext(before, cfg, others, b, depth), r)
      decreases depth, 0
    {
      if depth == 0 {
        SkipEnds(before, cfg, others, b);
        return Failure(RecursionLimit);
      }
      var left := depth - 1;
      ghost var next := Value();
      SkipStep(before, next, cfg, others, b, depth, left);
      var rest := StartNextBatchBuild(cfg, others, b, left);
      AgreesAbove(before, next, StartNext(next, cfg, others, b, left), rest, Advance(artifacts));
      match rest
      case Success(calls) => r := Success([Advance(artifacts)] + calls);
      case Failure(e) => r := Failure(e);
    }

    /** The call before the recursive one agrees, once the batch it left is put in front. */
    lemma AgreesAbove(
      before: Module, next: Module, spec: Result<Outcome, PyError>, rest: Result<seq<Call>, PyError>, first: Call)
      requires next == before.(batch := before.batch + 1) && Agrees(next, spec, rest)
      ensures Agrees(before, AfterCall(first, spec),
        match rest
        case Success(calls) => Success([first] + calls)
        case Failure(e) => Failure(e))
    {}

    // ---- reuse.py ----

    /** The first `k` components are reused, `batch` and `toTag` are as far as these. */
    static ghost predicate ReusedSoFar(
      before: seq<Component>, all: seq<Component>, cs: seq<Component>, k: nat,
      start: nat, batch: nat, toTag: seq<Option<Nvr>>)
    {
      && |before| == |all| == |cs| && k <= |cs|
      && (forall i :: 0 <= i < |cs| ==> cs[i] == if i < k then all[i] else before[i])
      && LastReusedBatch(before, start) == LastReusedBatch(before[k..], batch)
      && ReusedNvrs(all) == toTag + ReusedNvrs(all[k..])
    }

    static lemma ReuseBegins(before: seq<Component>, all: seq<Component>, start: nat)
      requires |before| == |all|
      ensures ReusedSoFar(before, all, before, 0, start, start, [])
    {
      assert before[0..] == before && all[0..] == all;
    }

    static lemma ReuseOneMore(
      before: seq<Component>, all: seq<Component>, cs: seq<Component>, k: nat,
      start: nat, batch: nat, toTag: seq<Option<Nvr>>)
      requires k < |cs| && ReusedSoFar(before, all, cs, k, start, batch, toTag)
      requires all[k].IsMacros() == before[k].IsMacros() && (before[k].IsMacros() ==> all[k] == before[k])
      ensures ReusedSoFar(
        before, all, cs[k := all[k]], k + 1, start,
        if !before[k].IsMacros() && before[k].batch > batch then before[k].batch else batch,
        if before[k].IsMacros() then toTag else toTag + [all[k].nvr])
    {
      assert before[k..][0] == before[k] && before[k..][1..] == before[k + 1..];
      assert all[k..][0] == all[k] && all[k..][1..] == all[k + 1..];
      var rest := ReusedNvrs(all[k + 1..]);
      assert toTag + ([all[k].nvr] + rest) == (toTag + [all[k].nvr]) + rest;
    }

    static lemma ReuseEnds(
      before: seq<Component>, all: seq<Component>, cs: seq<Component>, k: nat,
      start: nat, batch: nat, toTag: seq<Option<Nvr>>)
      requires k == |cs| && ReusedSoFar(before, all, cs, k, start, batch, toTag)
      ensures cs == all && batch == LastReusedBatch(before, start) && toTag == ReusedNvrs(all)
    {
      assert before[k..] == [] && all[k..] == [];
    }

    static lemma EveryAt(before: seq<Component>, b: Builder, k: nat)
      requires !AnyNotReusable(before, b) && k < |before|
      ensures !before[k].IsMacros() ==> b.reusable(k).Some?
      ensures ReuseEvery(before, b)[k] ==
        if before[k].IsMacros() then before[k] else Reuse(before[k], b.reusable(k).value, true)
    {}

    /** One component of the second loop. */
    method ReuseOne(k: nat, b: Builder, toTag: seq<Option<Nvr>>) returns (toTag': seq<Option<Nvr>>)
      requires k < |components| && (!components[k].IsMacros() ==> b.reusable(k).Some?)
      modifies this`components, this`batch
      ensures var c := old(components[k]);
        var d := if c.IsMacros() then c else Reuse(c, b.reusable(k).value, true);
        && components == old(components)[k := d]
        && batch == (if !c.IsMacros() && c.batch > old(batch) then c.batch else old(batch))
        && toTag' == if c.IsMacros() then toTag else toTag + [d.nvr]
    {
      toTag' := toTag;
      if !components[k].IsMacros() {
        if components[k].batch > batch { batch := components[k].batch; }
        components := components[k := Reuse(components[k], b.reusable(k).value, true)];
        toTag' := toTag + [components[k].nvr];
      }
    }

    method ReuseEveryComponent(b: Builder) returns (toTag: seq<Option<Nvr>>)
      requires !AnyNotReusable(components, b)
      modifies this`components, this`batch
      ensures Value() == old(Value()).(
        components := ReuseEvery(old(components), b), batch := LastReusedBatch(old(components), old(batch)))
      ensures toTag == ReusedNvrs(components)
    {
      toTag := [];
      ghost var before, all, start := components, ReuseEvery(components, b), batch;
      ReuseBegins(before, all, start);
      var k, n := 0, |components|;
      while k < n
        invariant n == |components| == |before|
        invariant ReusedSoFar(before, all, components, k, start, batch, toTag)
      {
        EveryAt(before, b, k);
        ReuseOneMore(before, all, components, k, start, batch, toTag);
        assert components[k] == before[k];
        toTag := ReuseOne(k, b, toTag);
        k := k + 1;
      }
      ReuseEnds(before, all, components, k, start, batch, toTag);
    }

    /** attempt_to_reuse_all_components: first every component is looked up, then all of them are changed. */
    method AttemptToReuseAllComponents(b: Builder) returns (reused: bool, calls: seq<Call>)
      modifies this`components, this`batch, this`reusedModule
      ensures ReuseAll(old(Value()), b) == Attempt(reused, Outcome(Value(), calls))
    {
      if b.previous == None { return false, []; }
      reusedModule := b.previous;
      var k := 0;
      while k < |components|
        modifies {}
        invariant 0 <= k <= |components|
        invariant forall i :: 0 <= i < k && !components[i].IsMacros() ==> b.reusable(i).Some?
      {
        if !components[k].IsMacros() && b.reusable(k) == None { return false, []; }
        k := k + 1;
      }
      var toTag := ReuseEveryComponent(b);
      reused, calls := true, [AddToBuildroot(toTag, false), TagFinal(toTag)];
    }

    // ---- handlers/modules.py ----

    /** init; a failed plan is rolled back. */
    method HandleInit(valid: bool)
      modifies this`components, this`state, this`trace
      ensures Value() == InitHandler(old(Value()), valid)
    {
      if state != Init { return; }
      var table := new Planning.ComponentTable();
      table.rows := components;
      var planned := table.RecordComponentBuilds(mmd, None, Some(1), None);
      if valid && planned.Success? {
        components := table.rows;
        Transition(Wait);
      } else {
        Transition(Lifecycle.Failed);
      }
    }

    /** module-build-macros is found or added, then recovered or submitted. */
    method BuildMacros(b: Builder) returns (r: Result<seq<Call>, PyError>)
      modifies this`components
      ensures var started := old(Value()).(components := WithMacros(old(components)));
        match SubmitMacros(started, b)
        case Success(out) => r == Success(out.calls) && Value() == out.m
        case Failure(e) => r == Failure(e) && Value() == started
    {
      if Planning.Find(components, MACROS) == None { components := components + [MacrosRow(|components|)]; }
      assert components == WithMacros(old(components));
      var i := MacrosIndex(components);
      var c := components[i];
      if c.IsCompleted() {
        assert components == components[i := c];
        return Success([]);
      }
      if b.orphan(i).Some? {
        var found := b.orphan(i).value;
        components := components[i := c.(state := Complete, task := Some(found.task), nvr := Some(found.nvr))];
        return Success([]);
      }
      match b.submit(i)
      case Raised => r := Failure(BuilderRaised);
      case Answer(task, s, nvr) =>
        components := components[i := c.(task := task, state := s, nvr := nvr)];
        r := Success([Submit(i)]);
    }

    method StartBatchOne(b: Builder) returns (calls: seq<Call>)
      modifies this`components, this`state, this`trace, this`batch, this`newRepo
      ensures Outcome(Value(), calls) == StartBuild(old(Value()), b)
    {
      batch := 1;
      var r := BuildMacros(b);
      if r.Failure? {
        Transition(Lifecycle.Failed);
        return [];
      }
      Transition(Lifecycle.Build);
      newRepo := Some(b.newRepoTask);
      calls := r.value + [NewRepo(b.newRepoTask)];
    }

    method HandleWait(depsFound: bool, b: Builder) returns (calls: seq<Call>)
      modifies this`components, this`state, this`trace, this`batch, this`reusedModule, this`newRepo, this`kojiTag
      ensures Outcome(Value(), calls) == WaitHandler(old(Value()), depsFound, b)
    {
      if !depsFound {
        Transition(Lifecycle.Failed);
        Transition(Lifecycle.Failed);
        return [];
      }
      kojiTag := true;
      if components == [] {
        Transition(Lifecycle.Build);
        return [];
      }
      var reused, tagCalls := AttemptToReuseAllComponents(b);
      if reused {
        Transition(Lifecycle.Build);
        return tagCalls;
      }
      calls := StartBatchOne(b);
    }

    /** The unbuilt components are canceled in the builder and marked as failed. */
    method CancelUnbuilt() returns (calls: seq<Call>)
      modifies this`components
      ensures Value() == old(Value()).(components := FailUnbuilt(old(components)))
      ensures calls == CancelCalls(old(components))
    {
      calls := [];
      ghost var before := components;
      var k := 0;
      assert before[0..] == before;
      while k < |components|
        invariant 0 <= k <= |components| == |before|
        invariant forall i :: 0 <= i < |before| ==> components[i] == if i < k then FailUnbuilt(before)[i] else before[i]
        invariant CancelCalls(before) == calls + CancelCalls(before[k..])
      {
        var c := components[k];
        CancelFrom(before, k, calls);
        if c.IsUnbuilt() {
          if c.task.Some? { calls := calls + [Cancel(c.task.value)]; }
          components := components[k := c.(state := FailedBuild)];
        }
        k := k + 1;
      }
      assert components == FailUnbuilt(before);
    }

    static lemma CancelFrom(cs: seq<Component>, k: nat, calls: seq<Call>)
      requires k < |cs|
      ensures calls + CancelCalls(cs[k..]) ==
        (if cs[k].IsUnbuilt() && cs[k].task.Some? then calls + [Cancel(cs[k].task.value)] else calls)
        + CancelCalls(cs[k + 1..])
    {
      assert cs[k..][0] == cs[k] && cs[k..][1..] == cs[k + 1..];
      var rest := CancelCalls(cs[k + 1..]);
      if cs[k].task.Some? {
        var x := Cancel(cs[k].task.value);
        assert calls + ([x] + rest) == (calls + [x]) + rest;
      }
    }

    method HandleFailed(reasonGiven: bool) returns (calls: seq<Call>)
      modifies this`components, this`state, this`trace
      ensures Outcome(Value(), calls) == FailedHandler(old(Value()), reasonGiven)
    {
      calls := [];
      if kojiTag {
        if newRepo.Some? { calls := [Cancel(newRepo.value)]; }
        var canceled := CancelUnbuilt();
        calls := calls + canceled;
      } else if !reasonGiven {
        Transition(Lifecycle.Failed);
        return [];
      }
      if state != Lifecycle.Failed { Transition(Lifecycle.Failed); }
    }

    method HandleDone(gating: bool)
      modifies this`state, this`trace
      ensures Value() == DoneHandler(old(Value()), gating)
    {
      if !scratch && gating { Transition(Ready); }
    }

    // ---- handlers/components.py, tags.py, repos.py ----

    /** What is to be done once component `c` is marked: the checks of build_task_finalize in their order. */
    method DecideFinalized(c: Component) returns (d: FinalizeDecision)
      ensures d == DecideFinalize(Value(), c)
    {
      if c.IsMacros() && !c.IsCompleted() { return FailModule; }
      if batch == 0 { return FailModule; }
      if !Value().AnyWaitingInBatch() && !Value().AnyBuildingInBatch() {
        if Value().AnyUnsuccessfulInBatch() { return FailModule; }
        return if Value().AnyCompletedInBatch() then TagBatch else NothingToTag;
      }
      d := if Value().AnyWaitingInBatch() then BuildOn else StillBuilding;
    }

    method TagBuilt(install: bool) returns (calls: seq<Call>)
      ensures calls == TagCalls(Value(), install)
    {
      calls := [AddToBuildroot(CompletedArtifacts(components, batch), install)];
      var final := FinalArtifacts(components, batch);
      if final != [] { calls := calls + [TagFinal(final)]; }
    }

    method BuildTaskFinalize(i: nat, s: ComponentState, nvr: Nvr, cfg: Config, others: nat, b: Builder)
      returns (calls: seq<Call>)
      requires i < |components|
      modifies this`components, this`state, this`trace
      ensures Outcome(Value(), calls) == Handlers.BuildTaskFinalize(old(Value()), i, s, nvr, cfg, others, b)
    {
      var c := components[i].(state := s, nvr := Some(nvr));
      components := components[i := c];
      assert Value() == MarkBuilt(old(Value()), i, s, nvr);
      calls := [];
      var d := DecideFinalized(c);
      match d
      case FailModule => Transition(Lifecycle.Failed);
      case TagBatch => calls := TagBuilt(c.buildTimeOnly);
      case BuildOn => calls := ContinueBatchBuild([], cfg, others, b);
      case _ =>
    }

    method Tagged(buildTag: bool, nvr: Nvr, b: Builder) returns (calls: seq<Call>)
      modifies this`components, this`state, this`trace, this`newRepo
      ensures Outcome(Value(), calls) == Handlers.Tagged(old(Value()), buildTag, nvr, b)
    {
      var found := FindNvr(components, nvr);
      if found == None { return []; }
      var c := components[found.value];
      if buildTag { c := c.(tagged := true); } else { c := c.(taggedInFinal := true); }
      components := components[found.value := c];
      if batch == 0 {
        Transition(Lifecycle.Failed);
        return [];
      }
      if Value().AnyWaitingInBatch() || Value().AnyBuildingInBatch() { return []; }
      if !Value().AnyUntaggedSoFar() && Value().AnyUnbuilt() && !RepoGenerating(Value(), b) {
        newRepo := Some(b.newRepoTask);
        return [NewRepo(b.newRepoTask)];
      }
      calls := [];
    }

    /** repos.done, of a module build that has not failed. */
    method RepoDone(cfg: Config, others: nat, b: Builder) returns (r: Result<seq<Call>, PyError>)
      modifies this`components, this`state, this`trace, this`reusedModule, this`batch
      ensures Agrees(old(Value()), Handlers.RepoDone(old(Value()), cfg, others, b), r)
    {
      var hasComponents := components != [];
      if hasComponents && batch == 0 { return Failure(NoBatchInProgress); }
      if hasComponents && !Value().BatchEmpty() {
        if Value().AnyUntaggedSoFar() { return Success([]); }
        if Value().AllInBatchWaiting() { return Success([]); }
      }
      if Value().AnyBuildingInBatch() { return Success([]); }
      if hasComponents && !Value().AnyCompletedInBatch() {
        Transition(Lifecycle.Failed);
        return Success([]);
      }
      if Value().AnyUnbuilt() && !Value().AnyUnsuccessful() {
        if !b.ready(CompletedArtifacts(components, batch)) { return Success([]); }
        r := StartNextBatchBuild(cfg, others, b, cfg.depth);
        return;
      }
      if Value().AnyUnsuccessful() {
        Transition(Lifecycle.Failed);
      } else {
        Transition(Lifecycle.Done);
      }
      r := Success([]);
    }

    // ---- producer.py ----

    method ProcessPaused(missed: bool, cfg: Config, others: nat, b: Builder) returns (r: Result<seq<Call>, PyError>)
      modifies this`components, this`state, this`trace, this`reusedModule, this`batch
      ensures Agrees(old(Value()), Handlers.ProcessPaused(old(Value()), missed, cfg, others, b), r)
    {
      if state != Lifecycle.Build || batch == 0 { return Success([]); }
      if Value().AnyBuildingInBatch() || !missed { return Success([]); }
      if AtThreshold(cfg, others, components) { return Success([]); }
      r := StartNextBatchBuild(cfg, others, b, cfg.depth);
    }

    method RetriggerNewRepo(taskFailed: bool, b: Builder) returns (calls: seq<Call>)
      modifies this`newRepo
      ensures Outcome(Value(), calls) == Handlers.RetriggerNewRepo(old(Value()), taskFailed, b)
    {
      calls := [];
      if state == Lifecycle.Build && newRepo.Some? && taskFailed {
        newRepo := Some(b.newRepoTask);
        calls := [NewRepo(b.newRepoTask)];
      }
    }

    method CleanupStaleFailedBuild()
      modifies this`components, this`state, this`trace
      ensures Value() == CleanupStale(old(Value()))
    {
      if state != Lifecycle.Failed { return; }
      ghost var before := components;
      var k := 0;
      while k < |components|
        modifies this`components
        invariant 0 <= k <= |components| == |before|
        invariant forall i :: 0 <= i < |before| ==> components[i] == if i < k then Untag(before)[i] else before[i]
      {
        var c := components[k];
        if c.IsCompleted() { components := components[k := c.(tagged := false, taggedInFinal := false)]; }
        k := k + 1;
      }
      assert components == Untag(before);
      Transition(Garbage);
    }

    method CancelStuckBuild()
      modifies this`state, this`trace
      ensures Value() == CancelStuck(old(Value()))
    {
      if state == Init || state == Lifecycle.Build { Transition(Lifecycle.Failed); }
    }

    method CancelByUser()
      modifies this`state, this`trace
      ensures Value() == UserCancel(old(Value()))
    {
      if state == Init || state == Wait || state == Lifecycle.Build { Transition(Lifecycle.Failed); }
    }

    // ---- web/submit.py and consumer.py ----

    /** The last state that is not failed: the trace is searched from its end. */
    method PreviousNonFailedState() returns (r: Option<Lifecycle>)
      ensures r == PreviousNonFailed(trace)
    {
      var k := |trace|;
      assert trace[..k] == trace;
      while k > 0
        invariant 0 <= k <= |trace|
        invariant PreviousNonFailed(trace) == PreviousNonFailed(trace[..k])
      {
        if trace[k - 1] != Lifecycle.Failed { return Some(trace[k - 1]); }
        assert trace[..k][..k - 1] == trace[..k - 1];
        k := k - 1;
      }
      r := None;
    }

    method ResubmitFailed()
      modifies this`components, this`state, this`trace, this`batch
      ensures Value() == Resubmit(old(Value()))
    {
      if state != Lifecycle.Failed { return; }
      ghost var before := components;
      var k := 0;
      while k < |components|
        modifies this`components
        invariant 0 <= k <= |components| == |before|
        invariant forall i :: 0 <= i < |before| ==> components[i] == if i < k then ResetIncomplete(before)[i] else before[i]
      {
        var c := components[k];
        if !c.IsWaitingForBuild() && !c.IsCompleted() { components := components[k := c.(state := NotSubmitted)]; }
        k := k + 1;
      }
      assert components == ResetIncomplete(before);
      var previous := PreviousNonFailedState();
      if previous == Some(Init) {
        Transition(Init);
      } else {
        batch := 0;
        Transition(Wait);
      }
    }

    /** process_message: a handler that raised is rolled back, and the build fails. */
    method FailIfRaised(r: Result<seq<Call>, PyError>, committed: nat) returns (calls: seq<Call>)
      modifies this`batch, this`state, this`trace
      ensures match r
        case Success(done) => Value() == old(Value()) && calls == done
        case Failure(_) => Value() == old(Value()).(batch := committed).Transition(Lifecycle.Failed) && calls == []
    {
      match r
      case Success(done) => calls := done;
      case Failure(_) =>
        batch := committed;
        Transition(Lifecycle.Failed);
        calls := [];
    }

    /** What the producer and the frontend do to a module build, and what the consumer does after an exception. */
    method ProcessRequest(msg: Message, cfg: Config, others: nat, ghost h: History) returns (calls: seq<Call>)
      requires msg.RetriggerTick? || msg.CleanupTick? || msg.StuckTick? || msg.CancelRequest? || msg.ResubmitRequest?
            || msg.HandlerRaised?
      modifies this
      ensures Outcome(Value(), calls) == OutcomeOf(Record(old(Value()), h), msg, cfg, others)
    {
      calls := [];
      match msg
      case RetriggerTick(taskFailed, b) => calls := RetriggerNewRepo(taskFailed, b);
      case CleanupTick => CleanupStaleFailedBuild();
      case StuckTick => CancelStuckBuild();
      case CancelRequest => CancelByUser();
      case ResubmitRequest => ResubmitFailed();
      case HandlerRaised => Transition(Lifecycle.Failed);
    }

    /** Any message, handled in place: the same step as that of the state machine. */
    method Process(msg: Message, cfg: Config, others: nat, ghost h: History) returns (calls: seq<Call>)
      modifies this
      ensures Outcome(Value(), calls) == OutcomeOf(Record(old(Value()), h), msg, cfg, others)
    {
      calls := [];
      match msg
      case InitMessage(valid) => HandleInit(valid);
      case WaitMessage(depsFound, b) => calls := HandleWait(depsFound, b);
      case FailedMessage(reasonGiven) => calls := HandleFailed(reasonGiven);
      case DoneMessage(gating) => HandleDone(gating);
      case BuildMessage(i, _, s, nvr, b) =>
        if i < |components| { calls := BuildTaskFinalize(i, s, nvr, cfg, others, b); }
      case TagMessage(buildTag, nvr, b) =>
        if state == Lifecycle.Build { calls := Tagged(buildTag, nvr, b); }
      case RepoMessage(b) => calls := ProcessRepoMessage(cfg, others, b, h);
      case PausedTick(missed, b) => calls := ProcessPausedTick(missed, cfg, others, b, h);
      case _ => calls := ProcessRequest(msg, cfg, others, h);
    }

    method ProcessRepoMessage(cfg: Config, others: nat, b: Builder, ghost h: History) returns (calls: seq<Call>)
      modifies this`components, this`state, this`trace, this`reusedModule, this`batch
      ensures Outcome(Value(), calls) == OutcomeOf(Record(old(Value()), h), RepoMessage(b), cfg, others)
    {
      calls := [];
      if state == Lifecycle.Build {
        var committed := batch;
        var r := RepoDone(cfg, others, b);
        calls := FailIfRaised(r, committed);
      }
    }

    /** An exception of the producer only loses what was not committed. */
    method ProcessPausedTick(missed: bool, cfg: Config, others: nat, b: Builder, ghost h: History)
      returns (calls: seq<Call>)
      modifies this`components, this`state, this`trace, this`reusedModule, this`batch
      ensures Outcome(Value(), calls) == OutcomeOf(Record(old(Value()), h), PausedTick(missed, b), cfg, others)
    {
      var committed := batch;
      var r := ProcessPaused(missed, cfg, others, b);
      match r
      case Success(done) => calls := done;
      case Failure(_) =>
        batch := committed;
        calls := [];
    }
  }
}
