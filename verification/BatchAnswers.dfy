/**
 What continuing and advancing a batch does to the components, case by case and in terms of their states: what is
 submitted and with which result, what is recovered or reused, and when nothing happens.
 */
module BatchAnswers {
  import opened Wrappers
  import opened Records
  import opened Batches
  import opened SelectionTheorems
  import opened BatchInvariant
  import opened SkipRecursion

  // ---- what a module build looks like ----

  /** Some component of the current batch is in that state. */
  predicate InBatchIs(m: Module, s: ComponentState) {
    exists i :: 0 <= i < |m.components| && m.components[i].batch == m.batch && m.components[i].state == s
  }

  predicate AnyIs(m: Module, s: ComponentState) {
    exists i :: 0 <= i < |m.components| && m.components[i].state == s
  }

  /** The current batch is not finished. */
  predicate BatchOpen(m: Module) {
    InBatchIs(m, NotSubmitted) || InBatchIs(m, Building)
  }

  predicate BatchBroken(m: Module) {
    InBatchIs(m, FailedBuild) || InBatchIs(m, Canceled)
  }

  predicate LeftToBuild(m: Module) {
    AnyIs(m, NotSubmitted) || AnyIs(m, Building)
  }

  predicate Broken(m: Module) {
    AnyIs(m, FailedBuild) || AnyIs(m, Canceled)
  }

  /** What is built up to the current batch is tagged for the buildroot, and for the result if it belongs there. */
  predicate TaggedSoFar(m: Module) {
    forall i :: 0 <= i < |m.components| && m.components[i].batch <= m.batch && m.components[i].state == Complete ==>
      m.components[i].tagged && (m.components[i].taggedInFinal || m.components[i].buildTimeOnly)
  }

  /** The current batch holds components, and none of them was submitted yet. */
  predicate NotStarted(m: Module) {
    && (exists i :: 0 <= i < |m.components| && m.components[i].batch == m.batch)
    && (forall i :: 0 <= i < |m.components| && m.components[i].batch == m.batch ==>
         m.components[i].state == NotSubmitted)
  }

  predicate HoldsBatch(m: Module) {
    exists i :: 0 <= i < |m.components| && m.components[i].batch == m.batch
  }

  /** Component `i` of the current batch is built; with `final` set, it belongs to the result. */
  predicate BuiltInBatch(m: Module, i: nat, final: bool)
    requires i < |m.components|
  {
    var c := m.components[i];
    c.batch == m.batch && c.state == Complete && (final ==> !c.buildTimeOnly)
  }

  /** `nvrs` lists the NVRs of exactly these components. */
  ghost predicate ListsBuilt(nvrs: seq<Option<Nvr>>, m: Module, final: bool) {
    forall nvr :: nvr in nvrs <==>
      exists i :: 0 <= i < |m.components| && BuiltInBatch(m, i, final) && m.components[i].nvr == nvr
  }

  lemma BatchStates(m: Module)
    ensures m.AnyWaitingInBatch() <==> InBatchIs(m, NotSubmitted)
    ensures m.AnyBuildingInBatch() <==> InBatchIs(m, Building)
    ensures m.AnyCompletedInBatch() <==> InBatchIs(m, Complete)
    ensures m.AnyUnsuccessfulInBatch() <==> BatchBroken(m)
    ensures m.AnyUnbuilt() <==> LeftToBuild(m)
    ensures m.AnyUnsuccessful() <==> Broken(m)
    ensures m.AnyUntaggedSoFar() <==> !TaggedSoFar(m)
    ensures m.BatchEmpty() <==> !HoldsBatch(m)
    ensures !m.BatchEmpty() && m.AllInBatchWaiting() <==> NotStarted(m)
  {
    var cs := m.components;
    forall i | 0 <= i < |cs| && cs[i].batch == m.batch ensures m.InBatch(i) {}
    AnyStates(m);
    BrokenBatch(m);
    StartedBatch(m);
  }

  lemma AnyStates(m: Module)
    ensures m.AnyUnbuilt() <==> LeftToBuild(m)
    ensures m.AnyUnsuccessful() <==> Broken(m)
  {
    var cs := m.components;
    if m.AnyUnbuilt() {
      var i :| 0 <= i < |cs| && cs[i].IsUnbuilt();
      assert cs[i].state == NotSubmitted || cs[i].state == Building;
    }
    if LeftToBuild(m) {
      var i :| 0 <= i < |cs| && (cs[i].state == NotSubmitted || cs[i].state == Building);
      assert cs[i].IsUnbuilt();
    }
    if m.AnyUnsuccessful() {
      var i :| 0 <= i < |cs| && cs[i].IsUnsuccessful();
      assert cs[i].state == FailedBuild || cs[i].state == Canceled;
    }
    if Broken(m) {
      var i :| 0 <= i < |cs| && (cs[i].state == FailedBuild || cs[i].state == Canceled);
      assert cs[i].IsUnsuccessful();
    }
  }

  lemma BrokenBatch(m: Module)
    ensures m.AnyUnsuccessfulInBatch() <==> BatchBroken(m)
  {
    var cs := m.components;
    if BatchBroken(m) {
      var i :| 0 <= i < |cs| && cs[i].batch == m.batch && (cs[i].state == FailedBuild || cs[i].state == Canceled);
      assert m.InBatch(i) && cs[i].IsUnsuccessful();
    }
  }

  lemma StartedBatch(m: Module)
    ensures m.BatchEmpty() <==> !HoldsBatch(m)
    ensures !m.BatchEmpty() && m.AllInBatchWaiting() <==> NotStarted(m)
  {
    var cs := m.components;
    if NotStarted(m) {
      forall i | 0 <= i < |cs| && m.InBatch(i) ensures cs[i].IsWaitingForBuild() {}
      var i :| 0 <= i < |cs| && cs[i].batch == m.batch;
      assert m.InBatch(i);
    }
    if HoldsBatch(m) {
      var i :| 0 <= i < |cs| && cs[i].batch == m.batch;
      assert m.InBatch(i);
    }
  }

  // ---- continue_batch_build ----

  /** The submission raised, or gave a running build without a task. */
  predicate Refused(a: SubmitAnswer) {
    a == Raised || (a.task == None && a.state == Building)
  }

  /** What a submission leaves of the component: failed if it was refused, else task, state and NVR of the answer. */
  predicate AnswerKept(c: Component, d: Component, a: SubmitAnswer) {
    && d == c.(state := d.state, task := d.task, nvr := d.nvr)
    && (Refused(a) ==> d.state == FailedBuild)
    && (a == Raised ==> d.task == c.task && d.nvr == c.nvr)
    && (a != Raised ==> d.task == a.task && d.nvr == a.nvr)
    && (!Refused(a) ==> d.state == a.state)
  }

  predicate AnyRefused(chosen: seq<nat>, b: Builder) {
    exists i :: i in chosen && Refused(b.submit(i))
  }

  lemma SubmitOneKeeps(m: Module, i: nat, b: Builder)
    requires i < |m.components|
    ensures var r := SubmitOne(m, i, b);
      && |r.components| == |m.components|
      && (forall j :: 0 <= j < |m.components| && j != i ==> r.components[j] == m.components[j])
      && AnswerKept(m.components[i], r.components[i], b.submit(i))
      && r == m.(components := r.components, state := r.state, trace := r.trace)
      && r.trace == m.trace + (if Refused(b.submit(i)) then [Lifecycle.Failed] else [])
      && r.state == if Refused(b.submit(i)) then Lifecycle.Failed else m.state
  {
    var c, a := m.components[i], b.submit(i);
    var d :=
      if a == Raised then c.(state := FailedBuild)
      else if Refused(a) then c.(task := None, state := FailedBuild, nvr := a.nvr)
      else c.(task := a.task, state := a.state, nvr := a.nvr);
    var kept := m.(components := m.components[i := d]);
    assert SubmitOne(m, i, b) == if Refused(a) then kept.Transition(Lifecycle.Failed) else kept;
  }

  /** A trace and a state that record failures exactly if some submission was refused. */
  predicate FailsIf(m: Module, r: Module, refused: bool) {
    && |m.trace| <= |r.trace| && r.trace[..|m.trace|] == m.trace
    && (forall k :: |m.trace| <= k < |r.trace| ==> r.trace[k] == Lifecycle.Failed)
    && (|r.trace| > |m.trace| <==> refused)
    && r.state == if refused then Lifecycle.Failed else m.state
  }

  lemma {:induction false} SubmitAllKeeps(m: Module, chosen: seq<nat>, b: Builder)
    requires Indices(chosen, |m.components|) && NoDuplicates(chosen)
    ensures var r := SubmitAll(m, chosen, b);
      && (forall j :: 0 <= j < |m.components| ==>
           if j in chosen then AnswerKept(m.components[j], r.components[j], b.submit(j))
           else r.components[j] == m.components[j])
      && r == m.(components := r.components, state := r.state, trace := r.trace)
      && FailsIf(m, r, AnyRefused(chosen, b))
    decreases |chosen|
  {
    if chosen != [] {
      var next, rest := SubmitOne(m, chosen[0], b), chosen[1..];
      SubmitOneKeeps(m, chosen[0], b);
      assert NoDuplicates(rest) && chosen[0] !in rest;
      SubmitAllKeeps(next, rest, b);
      assert forall i :: i in chosen <==> i == chosen[0] || i in rest;
      RefusedOneMore(chosen, b);
      FailsTwice(m, next, SubmitAll(next, rest, b), Refused(b.submit(chosen[0])), AnyRefused(rest, b));
    }
  }

  lemma RefusedOneMore(chosen: seq<nat>, b: Builder)
    requires chosen != []
    ensures AnyRefused(chosen, b) <==> Refused(b.submit(chosen[0])) || AnyRefused(chosen[1..], b)
  {
    assert forall i :: i in chosen <==> i == chosen[0] || i in chosen[1..];
    if AnyRefused(chosen[1..], b) {
      var i :| i in chosen[1..] && Refused(b.submit(i));
      assert i in chosen;
    }
    if Refused(b.submit(chosen[0])) { assert chosen[0] in chosen; }
  }

  lemma FailsTwice(m: Module, m': Module, m'': Module, p: bool, q: bool)
    requires FailsIf(m, m', p) && FailsIf(m', m'', q)
    ensures FailsIf(m, m'', p || q)
  {
    assert m''.trace[..|m.trace|] == m''.trace[..|m'.trace|][..|m.trace|];
    forall k | |m.trace| <= k < |m''.trace| ensures m''.trace[k] == Lifecycle.Failed {
      if k < |m'.trace| { assert m''.trace[k] == m''.trace[..|m'.trace|][k]; }
    }
  }

  /** Some submission among the calls was refused. */
  predicate RefusedAny(calls: seq<Call>, b: Builder) {
    exists c :: c in calls && c.Submit? && Refused(b.submit(c.index))
  }

  /** A build that was found instead of submitting. */
  predicate Recovered(c: Component, d: Component, found: Option<Orphan>) {
    && c.state == NotSubmitted && found.Some?
    && d == c.(state := Complete, task := Some(found.value.task), nvr := Some(found.value.nvr))
  }

  /**
   What one continuation does to each component and to the build. A component that is submitted fails if the
   submission raised or gave a running build without a task, and otherwise carries task, state and NVR of the
   answer; the build fails by this call if and only if some submission was refused. A seed that is not submitted
   is recovered if it waits and a build of it exists, and every other component stays as it is.
   */
  lemma ContinueAnswers(m: Module, seeds: seq<nat>, cfg: Config, others: nat, b: Builder)
    requires Seeds(m, seeds)
    ensures var out := Continue(m, seeds, cfg, others, b);
      && |out.m.components| == |m.components|
      && out.m == m.(components := out.m.components, state := out.m.state, trace := out.m.trace)
      && (forall c :: c in out.calls ==> c.Submit? && c.index in seeds)
      && (forall i :: 0 <= i < |m.components| ==>
           var c, d := m.components[i], out.m.components[i];
           if Call.Submit(i) in out.calls then AnswerKept(c, d, b.submit(i))
           else if i in seeds && c.state == NotSubmitted && b.orphan(i).Some? then Recovered(c, d, b.orphan(i))
           else d == c)
      && FailsIf(m, out.m, RefusedAny(out.calls, b))
  {
    var chosen := Chosen(m, seeds, cfg, others, b);
    var out := Continue(m, seeds, cfg, others, b);
    forall i: nat ensures Call.Submit(i) in out.calls <==> i in chosen { SubmitCallsOf(chosen, i); }
    SubmitCallsOf(chosen, 0);
    RefusedCalls(chosen, b);
  }

  lemma RefusedCalls(chosen: seq<nat>, b: Builder)
    ensures RefusedAny(SubmitCalls(chosen), b) <==> AnyRefused(chosen, b)
  {
    SubmitCallsOf(chosen, 0);
    if RefusedAny(SubmitCalls(chosen), b) {
      var c :| c in SubmitCalls(chosen) && c.Submit? && Refused(b.submit(c.index));
      SubmitCallsOf(chosen, c.index);
    }
    if AnyRefused(chosen, b) {
      var i :| i in chosen && Refused(b.submit(i));
      SubmitCallsOf(chosen, i);
      assert Call.Submit(i).Submit? && Call.Submit(i).index == i;
    }
  }

  predicate LeftOrRecovered(c: Component, d: Component, seed: bool, found: Option<Orphan>) {
    if seed && c.state == NotSubmitted && found.Some? then Recovered(c, d, found) else d == c
  }

  /** The seeds that are submitted, and what becomes of the components. */
  lemma Chosen(m: Module, seeds: seq<nat>, cfg: Config, others: nat, b: Builder) returns (chosen: seq<nat>)
    requires Seeds(m, seeds)
    ensures var out := Continue(m, seeds, cfg, others, b);
      && out.calls == SubmitCalls(chosen) && (forall i :: i in chosen ==> i in seeds)
      && |out.m.components| == |m.components|
      && out.m == m.(components := out.m.components, state := out.m.state, trace := out.m.trace)
      && (forall i :: 0 <= i < |m.components| ==>
           var c, d := m.components[i], out.m.components[i];
           if i in chosen then AnswerKept(c, d, b.submit(i)) else LeftOrRecovered(c, d, i in seeds, b.orphan(i)))
      && FailsIf(m, out.m, AnyRefused(chosen, b))
  {
    var order := SortByWeight(m.components, seeds);
    var recovered := Recover(m.components, order, b);
    RecoveredInOrder(m.components, seeds, order, recovered, b);
    var r := Select(recovered, order, cfg, others);
    SelectMarksChosen(recovered, order, cfg, others);
    chosen := r.chosen;
    SubmitAllKeeps(m.(components := r.components), chosen, b);
    var final := Continue(m, seeds, cfg, others, b).m.components;
    forall i | 0 <= i < |m.components|
      ensures if i in chosen then AnswerKept(m.components[i], final[i], b.submit(i))
              else LeftOrRecovered(m.components[i], final[i], i in seeds, b.orphan(i))
    {
      OneContinued(m.components[i], recovered[i], r.components[i], final[i], i in seeds, i in chosen,
                   b.orphan(i), b.submit(i));
    }
  }

  lemma OneContinued(
    c: Component, recovered: Component, selected: Component, d: Component, seed: bool, chosen: bool,
    found: Option<Orphan>, a: SubmitAnswer)
    requires recovered == if seed then RecoverOne(c, found) else c
    requires selected == if chosen then recovered.(state := Building) else recovered
    requires chosen ==> seed && !recovered.IsCompleted()
    requires if chosen then AnswerKept(selected, d, a) else d == selected
    ensures if chosen then AnswerKept(c, d, a) else LeftOrRecovered(c, d, seed, found)
  {}

  // ---- entering a batch ----

  /** A component that carries what its counterpart in the other module build was built as, passed off as running. */
  predicate PassedOff(c: Component, d: Component, p: Component) {
    d == c.(reused := Some(p.id), task := p.task, nvr := p.nvr, state := Building)
  }

  predicate Offered(b: Builder, i: nat) {
    b.previous.Some? && b.reusable(i).Some?
  }

  /**
   What entering a batch does: if it is looked up, what is offered is reused and not submitted, and the module
   build it comes from is recorded; everything else to be built in the batch is continued with.
   */
  lemma EnterAnswers(m: Module, candidates: seq<nat>, tryReuse: bool, cfg: Config, others: nat, b: Builder)
    requires Seeds(m, candidates)
    ensures var out := EnterBatch(m, candidates, tryReuse, cfg, others, b);
      && |out.m.components| == |m.components|
      && out.m == m.(components := out.m.components, state := out.m.state, trace := out.m.trace,
                     reusedModule := if tryReuse && b.previous.Some? then b.previous else m.reusedModule)
      && (forall c :: c in out.calls ==> c.Submit? && c.index in candidates)
      && (forall i :: 0 <= i < |m.components| ==>
           var c, d := m.components[i], out.m.components[i];
           if tryReuse && i in candidates && Offered(b, i) then
             PassedOff(c, d, b.reusable(i).value) && Call.Submit(i) !in out.calls
           else if Call.Submit(i) in out.calls then AnswerKept(c, d, b.submit(i))
           else LeftOrRecovered(c, d, i in candidates, b.orphan(i)))
      && FailsIf(m, out.m, RefusedAny(out.calls, b))
  {
    if tryReuse {
      LookUpAnswers(m, candidates, cfg, others, b);
    } else {
      ContinueAnswers(m, candidates, cfg, others, b);
    }
  }

  lemma LookUpAnswers(m: Module, candidates: seq<nat>, cfg: Config, others: nat, b: Builder)
    requires Seeds(m, candidates)
    ensures var out := EnterBatch(m, candidates, true, cfg, others, b);
      && |out.m.components| == |m.components|
      && out.m == m.(components := out.m.components, state := out.m.state, trace := out.m.trace,
                     reusedModule := if b.previous.Some? then b.previous else m.reusedModule)
      && (forall c :: c in out.calls ==> c.Submit? && c.index in candidates)
      && (forall i :: 0 <= i < |m.components| ==>
           EntersAs(m.components[i], out.m.components[i], i, i in candidates, Call.Submit(i) in out.calls, b))
      && FailsIf(m, out.m, RefusedAny(out.calls, b))
  {
    var after, out := NotReused(candidates, b), EnterBatch(m, candidates, true, cfg, others, b);
    var m' := m.(components := ReuseBatch(m.components, candidates, b),
                 reusedModule := if b.previous.Some? then b.previous else m.reusedModule);
    if after != [] {
      NotReusedAreSeeds(m, m', candidates, after, b);
      ContinueAnswers(m', after, cfg, others, b);
      assert out == Continue(m', after, cfg, others, b);
    } else {
      assert out == Outcome(m', []);
    }
    ReusedThenAnswered(m, m', candidates, after, out, b);
  }

  lemma ReusedThenAnswered(
    m: Module, m': Module, candidates: seq<nat>, after: seq<nat>, out: Outcome, b: Builder)
    requires |out.m.components| == |m'.components| == |m.components|
    requires forall i :: 0 <= i < |m.components| ==>
      m'.components[i] ==
        if i in candidates && Offered(b, i) then Reuse(m.components[i], b.reusable(i).value, false) else m.components[i]
    requires forall i :: i in after <==> i in candidates && !Offered(b, i)
    requires forall c :: c in out.calls ==> c.Submit? && c.index in after
    requires forall i :: 0 <= i < |m.components| ==>
      if Call.Submit(i) in out.calls then AnswerKept(m'.components[i], out.m.components[i], b.submit(i))
      else LeftOrRecovered(m'.components[i], out.m.components[i], i in after, b.orphan(i))
    ensures forall i :: 0 <= i < |m.components| ==>
      EntersAs(m.components[i], out.m.components[i], i, i in candidates, Call.Submit(i) in out.calls, b)
  {
    forall i | 0 <= i < |m.components|
      ensures EntersAs(m.components[i], out.m.components[i], i, i in candidates, Call.Submit(i) in out.calls, b)
    {
      OneEntered(m.components[i], m'.components[i], out.m.components[i], i, i in candidates,
                 Call.Submit(i) in out.calls, b);
    }
  }

  lemma OneEntered(c: Component, c': Component, d: Component, i: nat, candidate: bool, submitted: bool, b: Builder)
    requires c' == if candidate && Offered(b, i) then Reuse(c, b.reusable(i).value, false) else c
    requires submitted ==> candidate && !Offered(b, i)
    requires if submitted then AnswerKept(c', d, b.submit(i))
             else LeftOrRecovered(c', d, candidate && !Offered(b, i), b.orphan(i))
    ensures EntersAs(c, d, i, candidate, submitted, b)
  {}

  /** The fate of one component of a batch that is looked up. */
  predicate EntersAs(c: Component, d: Component, i: nat, candidate: bool, submitted: bool, b: Builder) {
    if candidate && Offered(b, i) then PassedOff(c, d, b.reusable(i).value) && !submitted
    else if submitted then AnswerKept(c, d, b.submit(i))
    else LeftOrRecovered(c, d, candidate, b.orphan(i))
  }

  // ---- start_next_batch_build ----

  /** A component of the batch that is neither complete, running nor failed. */
  predicate Submittable(m: Module, batch: nat) {
    exists i :: 0 <= i < |m.components| && m.components[i].batch == batch
      && (m.components[i].state == NotSubmitted || m.components[i].state == Canceled)
  }

  predicate InBatchNvr(cs: seq<Component>, batch: nat, nvr: Option<Nvr>) {
    exists i :: 0 <= i < |cs| && cs[i].batch == batch && cs[i].nvr == nvr
  }

  lemma {:induction false} ArtifactsAre(cs: seq<Component>, batch: nat, nvr: Option<Nvr>)
    ensures nvr in Artifacts(cs, batch) <==> InBatchNvr(cs, batch, nvr)
  {
    if cs != [] {
      ArtifactsAre(cs[1..], batch, nvr);
      assert forall i :: 1 <= i < |cs| ==> cs[i] == cs[1..][i - 1];
      if InBatchNvr(cs[1..], batch, nvr) {
        var i :| 0 <= i < |cs[1..]| && cs[1..][i].batch == batch && cs[1..][i].nvr == nvr;
        assert cs[i + 1].batch == batch && cs[i + 1].nvr == nvr;
      }
    }
  }

  /** Under changed-and-after only if everything so far was reused, or the batch left is that of the macros. */
  predicate LooksForReuse(m: Module) {
    m.strategy == ChangedAndAfter ==>
      m.batch == 1 || forall i :: 0 <= i < |m.components| ==> m.components[i].reused.Some?
  }

  /**
   What start_next_batch_build does, in the order of its checks: nothing without anything left to build, while the
   batch is running, or once something failed; a batch with waiting components is continued; active relict tasks fail
   the build; if the batch is not in the buildroot it waits; else the next batch is entered, or skipped if nothing in
   it can be submitted.
   */
  lemma StartNextAnswers(m: Module, cfg: Config, others: nat, b: Builder, depth: nat)
    ensures var r, next := StartNext(m, cfg, others, b, depth), m.(batch := m.batch + 1);
      var passed := Advance(Artifacts(m.components, m.batch));
      if !LeftToBuild(m) then r == Success(Outcome(m, []))
      else if m.batch == 0 then r == Failure(NoBatchInProgress)
      else if InBatchIs(m, NotSubmitted) then r == Success(ContinueBatch(m, cfg, others, b))
      else if InBatchIs(m, Building) || Broken(m) then r == Success(Outcome(m, []))
      else if b.activeTasks then r == Success(Outcome(m.Transition(Lifecycle.Failed), []))
      else if !b.ready(Artifacts(m.components, m.batch)) then r == Success(Outcome(m, []))
      else if Submittable(m, m.batch + 1) then
        var e := EnterBatch(next, Candidates(m.components, m.batch + 1), LooksForReuse(m), cfg, others, b);
        r == Success(Outcome(e.m, [passed] + e.calls))
      else if depth == 0 then r == Failure(RecursionLimit)
      else r == AfterCall(passed, StartNext(next, cfg, others, b, depth - 1))
    ensures forall nvr :: nvr in Artifacts(m.components, m.batch) <==> InBatchNvr(m.components, m.batch, nvr)
  {
    forall nvr ensures nvr in Artifacts(m.components, m.batch) <==> InBatchNvr(m.components, m.batch, nvr) {
      ArtifactsAre(m.components, m.batch, nvr);
    }
    DecideIs(m, b);
    if Decide(m, b) == NextBatch {
      NextMovesOn(m, cfg, others, b, depth);
      MoveOnAnswers(m, cfg, others, b, depth);
    } else {
      StaysAs(m, cfg, others, b, depth);
    }
  }

  lemma DecideIs(m: Module, b: Builder)
    ensures Decide(m, b) ==
      if !LeftToBuild(m) then Idle
      else if m.batch == 0 then NoBatch
      else if InBatchIs(m, NotSubmitted) then ContinueCurrent
      else if InBatchIs(m, Building) || Broken(m) then Idle
      else if b.activeTasks then RelictTasks
      else if !b.ready(Artifacts(m.components, m.batch)) then Idle
      else NextBatch
  {
    BatchStates(m);
  }

  lemma {:induction false} StaysAs(m: Module, cfg: Config, others: nat, b: Builder, depth: nat)
    requires Decide(m, b) != NextBatch
    ensures StartNext(m, cfg, others, b, depth) ==
      match Decide(m, b)
      case Idle => Success(Outcome(m, []))
      case NoBatch => Failure(NoBatchInProgress)
      case ContinueCurrent => Success(ContinueBatch(m, cfg, others, b))
      case RelictTasks => Success(Outcome(m.Transition(Lifecycle.Failed), []))
  {}

  lemma {:induction false} MoveOnAnswers(m: Module, cfg: Config, others: nat, b: Builder, depth: nat)
    ensures var next, passed := m.(batch := m.batch + 1), Advance(Artifacts(m.components, m.batch));
      MoveOn(m, cfg, others, b, depth) ==
        if Submittable(m, m.batch + 1) then
          var e := EnterBatch(next, Candidates(m.components, m.batch + 1), LooksForReuse(m), cfg, others, b);
          Success(Outcome(e.m, [passed] + e.calls))
        else if depth == 0 then Failure(RecursionLimit)
        else AfterCall(passed, StartNext(next, cfg, others, b, depth - 1))
  {
    SubmittableIff(m, m.batch + 1);
    LooksForReuseIff(m);
  }

  lemma LooksForReuseIff(m: Module)
    ensures TryReuse(m) <==> LooksForReuse(m)
  {}

  lemma SubmittableIff(m: Module, batch: nat)
    ensures Candidates(m.components, batch) != [] <==> Submittable(m, batch)
  {
    var r := Candidates(m.components, batch);
    if r != [] {
      assert r[0] in r;
      assert m.components[r[0]].state == NotSubmitted || m.components[r[0]].state == Canceled;
    }
    if Submittable(m, batch) {
      var i :| 0 <= i < |m.components| && m.components[i].batch == batch
        && (m.components[i].state == NotSubmitted || m.components[i].state == Canceled);
      assert i in r;
    }
  }
}
