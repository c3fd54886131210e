/** What is known, in every run, of the moment a component is submitted to the builder. */
module EndToEnd {
  import opened Wrappers
  import opened Records
  import opened Batches
  import opened Handlers
  import opened SkipRecursion
  import opened World
  import opened BatchInvariant
  import opened HandlerSteps
  import opened WorldInvariant
  import Numbering
  import Planning
  import PlanningSuccess

  /** The step `e` of the service in state `s`, seen from the module build it is about. */
  function Handled(s: State, id: nat, msg: Message, cfg: Config): Outcome
    requires id < |s.records|
  {
    OutcomeOf(s.records[id], msg, cfg, Others(s.records, id))
  }

  /** The NVRs that passed buildroot_ready at batch advances of this build round, before call `n` of the step. */
  function PassedBefore(r: Record, msg: Message, m': Module, calls: seq<Call>, n: nat): set<Nvr>
    requires n <= |calls|
  {
    HistoryBefore(r, msg, m').passed + PassedNvrs(calls[..n])
  }

  lemma {:induction false} AdvancesPass(calls: seq<Call>, n: nat)
    requires n < |calls| && AdvancesFirst(calls) && !calls[n].Advance?
    ensures PassedNvrs(calls[..n]) == PassedNvrs(calls)
  {
    if n == 0 {
      assert forall c :: c in calls ==> !c.Advance?;
      NothingPassed(calls);
    } else {
      assert calls[..n][1..] == calls[1..][..n - 1];
      AdvancesPass(calls[1..], n - 1);
    }
  }

  /** Submission in a step that makes progress on the row. */
  lemma PlainSubmit(r: Record, out: Outcome, k: Koji, root: set<Nvr>, k': Koji, root': set<Nvr>, i: nat, j: nat)
    requires RecordInv(r, k, root) && Numbered(r.m) && Evolves(r.m, out, k', root') && Call.Submit(i) in out.calls
    requires i < |r.m.components| && j < |r.m.components| && r.m.components[j].batch < r.m.components[i].batch
    ensures out.m.components[j].IsCompleted() && out.m.components[j].nvr.Some?
    ensures out.m.components[j].nvr.value in r.h.passed + PassedNvrs(out.calls)
  {
    var cs := r.m.components;
    assert Submits(r.m, out.m, i);
    assert Progress(cs[j], out.m.components[j], out.m.batch, k');
    assert !RestComplete(cs);
    assert Backed(cs[j], k);
  }

  /** The index of a submission is that of a component; `wait` only submits module-build-macros. */
  lemma WaitSubmitsMacros(m: Module, b: Builder, i: nat)
    requires Call.Submit(i) in WaitHandler(m, true, b).calls
    ensures i < |WaitHandler(m, true, b).m.components| && WaitHandler(m, true, b).m.components[i].IsMacros()
  {}

  /**
   In every run, when component i of a module build is submitted in whose modulemd no RPM comes after an
   included modulemd without components, every component of a smaller batch is complete, and its NVR passed
   the buildroot check at a batch advance of the same build round before this submission. If the module
   build is live, the NVR is in its buildroot.
   */
  lemma SubmittedOnBuiltGround(run: Run, cfg: Config, t: nat, id: nat, msg: Message, n: nat, i: nat, j: nat)
    requires HandlesAt(run, cfg, t, id, msg) && SubmitsAt(run.events[t].calls, n, i)
    ensures id < |run.states[t + 1].records|
    ensures var m := run.states[t + 1].records[id].m;
      && i < |m.components|
      && (PlanningSuccess.NoRpmAfterEmpty(m.mmd) && j < |m.components| && m.components[j].batch < m.components[i].batch ==>
           BuiltBefore(m.components[j], PassedBefore(run.states[t].records[id], msg, m, run.events[t].calls, n))
           && (Live(m) ==> m.components[j].nvr.value in Buildroot(run.states[t + 1].koji, id)))
  {
    RunsKeepInv(run, cfg, t);
    HandledStep(run, cfg, t, id, msg);
    StepSubmits(run.states[t], id, msg, cfg, run.events[t].koji, n, i, j);
  }

  /** What a step of the run does to the module build it handles. */
  lemma HandledStep(run: Run, cfg: Config, t: nat, id: nat, msg: Message)
    requires HandlesAt(run, cfg, t, id, msg)
    ensures KojiEvolves(run.states[t], run.events[t].koji) && AllowedMessage(run.states[t], id, msg, run.events[t].koji)
    ensures run.states[t + 1].koji == run.events[t].koji && id < |run.states[t + 1].records|
    ensures run.states[t + 1].records[id].m == Handled(run.states[t], id, msg, cfg).m
    ensures run.events[t].calls == Handled(run.states[t], id, msg, cfg).calls
  {
    assert Happens(run, t, cfg);
  }

  /** Call `n` submits component `i`. */
  predicate SubmitsAt(calls: seq<Call>, n: nat, i: nat) {
    n < |calls| && calls[n] == Call.Submit(i)
  }

  /** Complete, with an NVR that passed the buildroot check before. */
  predicate BuiltBefore(c: Component, passed: set<Nvr>) {
    c.IsCompleted() && c.nvr.Some? && c.nvr.value in passed
  }

  lemma StepSubmits(s: State, id: nat, msg: Message, cfg: Config, k: Koji, n: nat, i: nat, j: nat)
    requires StateInv(s) && id < |s.records| && KojiEvolves(s, k) && AllowedMessage(s, id, msg, k)
    requires SubmitsAt(Handled(s, id, msg, cfg).calls, n, i)
    ensures var m := Handled(s, id, msg, cfg).m;
      && i < |m.components|
      && (PlanningSuccess.NoRpmAfterEmpty(m.mmd) && j < |m.components| && m.components[j].batch < m.components[i].batch ==>
           BuiltBefore(m.components[j], PassedBefore(s.records[id], msg, m, Handled(s, id, msg, cfg).calls, n))
           && (Live(m) ==> m.components[j].nvr.value in Buildroot(k, id)))
  {
    StepKeepsRecord(s, id, msg, cfg, Others(s.records, id), k);
    if IsPlain(s.records[id].m, msg) {
      SubmittedInProgress(s, id, msg, cfg, k, n, i, j);
    } else {
      OnlyWaitSubmits(s.records[id], msg, cfg, Others(s.records, id), n);
      WaitSubmitsMacros(s.records[id].m, msg.b, i);
      assert MacrosPlaced(Handled(s, id, msg, cfg).m.components);
    }
  }

  lemma OnlyWaitSubmits(r: Record, msg: Message, cfg: Config, others: nat, n: nat)
    requires !IsPlain(r.m, msg) && n < |OutcomeOf(r, msg, cfg, others).calls|
    ensures msg.WaitMessage? && msg.depsFound
  {}

  lemma SubmittedInProgress(s: State, id: nat, msg: Message, cfg: Config, k: Koji, n: nat, i: nat, j: nat)
    requires StateInv(s) && id < |s.records| && KojiEvolves(s, k) && AllowedMessage(s, id, msg, k)
    requires IsPlain(s.records[id].m, msg) && SubmitsAt(Handled(s, id, msg, cfg).calls, n, i)
    requires RecordInv(StepRecord(s.records[id], msg, cfg, Others(s.records, id)), k, Buildroot(k, id))
    ensures var m := Handled(s, id, msg, cfg).m;
      && i < |m.components|
      && (PlanningSuccess.NoRpmAfterEmpty(m.mmd) && j < |m.components| && m.components[j].batch < m.components[i].batch ==>
           BuiltBefore(m.components[j], PassedBefore(s.records[id], msg, m, Handled(s, id, msg, cfg).calls, n))
           && (Live(m) ==> m.components[j].nvr.value in Buildroot(k, id)))
  {
    var r, out := s.records[id], Handled(s, id, msg, cfg);
    MessageEvolves(s, id, msg, cfg, Others(s.records, id), k);
    assert Submits(r.m, out.m, i);
    AdvancesPass(out.calls, n);
    assert Progress(r.m.components[i], out.m.components[i], out.m.batch, k);
    if Numbered(r.m) && j < |out.m.components| && out.m.components[j].batch < out.m.components[i].batch {
      assert Progress(r.m.components[j], out.m.components[j], out.m.batch, k);
      PlainSubmit(r, out, s.koji, Buildroot(s.koji, id), k, Buildroot(k, id), i, j);
    }
  }

  /** RPMs x and y of one modulemd in the tree, with components i and j under them, x before y in buildorder. */
  predicate OrderedRpms(m: Module, node: Records.ModuleMd, x: Entry, y: Entry, i: nat, j: nat) {
    && PlanningSuccess.NoRpmAfterEmpty(m.mmd) && Numbering.Inside(node, m.mmd)
    && x in node.entries && y in node.entries && x.order < y.order
    && i < |m.components| && j < |m.components| && !m.components[i].IsMacros() && !m.components[j].IsMacros()
    && Numbering.Under(m.components[i].package, x) && Numbering.Under(m.components[j].package, y)
  }

  /**
   The end-to-end promise of batches: in every run, when an RPM is submitted for a modulemd in which no RPM
   comes after an empty included one, every RPM of the same modulemd (included modulemds flattened) with a
   smaller buildorder is complete and passed the check.
   */
  lemma BuildorderIsBuildOrder(
    run: Run, cfg: Config, t: nat, id: nat, msg: Message, n: nat, i: nat, j: nat,
    node: Records.ModuleMd, x: Entry, y: Entry)
    requires HandlesAt(run, cfg, t, id, msg) && SubmitsAt(run.events[t].calls, n, i)
    requires id < |run.states[t + 1].records| && OrderedRpms(run.states[t + 1].records[id].m, node, x, y, j, i)
    ensures var m := run.states[t + 1].records[id].m;
      && BuiltBefore(m.components[j], PassedBefore(run.states[t].records[id], msg, m, run.events[t].calls, n))
      && (Live(m) ==> m.components[j].nvr.value in Buildroot(run.states[t + 1].koji, id))
  {
    RunsKeepInv(run, cfg, t + 1);
    BatchOfRpm(run.states[t + 1].records[id].m, node, x, y, j, i);
    SubmittedOnBuiltGround(run, cfg, t, id, msg, n, i, j);
  }

  /** Rows keep the batches of the plan, so the numbering theorem speaks about them. */
  lemma BatchOfRpm(m: Module, node: Records.ModuleMd, x: Entry, y: Entry, i: nat, j: nat)
    requires Planned(m) && OrderedRpms(m, node, x, y, i, j)
    ensures m.components[i].batch < m.components[j].batch
  {
    var rows := Planning.RecordComponentBuilds(m.mmd, []).value.rows;
    assert i < |rows| && j < |rows|;
    assert m.mmd.entries != [];
    Numbering.BuildorderRespected(m.mmd, rows, node, x, y, i, j);
    PlanningSuccess.NumberedIff(m.mmd, rows);
  }

  // ---- the skip recursion in runs ----

  /**
   In every run, start_next_batch_build returns for a module build in whose modulemd no RPM comes after an
   included modulemd without components, given as many frames as there are batches left, unless everything
   but module-build-macros is built and module-build-macros itself was left unbuilt below.
   */
  lemma RecursionEndsInRuns(run: Run, cfg: Config, t: nat, id: nat, others: nat, b: Builder, depth: nat)
    requires IsRun(run, cfg) && t < |run.states| && id < |run.states[t].records|
    requires PlanningSuccess.NoRpmAfterEmpty(run.states[t].records[id].m.mmd)
    ensures var m := run.states[t].records[id].m;
      && (Runaway(m, b) ==> RestComplete(m.components) && MacrosUnbuilt(m.components))
      && (!RestComplete(m.components) && depth >= Frames(m) ==>
           StartNext(m, cfg, others, b, depth) != Failure(RecursionLimit))
  {
    RunsKeepInv(run, cfg, t);
    var m := run.states[t].records[id].m;
    assert RecordInv(run.states[t].records[id], run.states[t].koji, Buildroot(run.states[t].koji, id));
    RunawayIsForgottenMacros(m, b);
    if !RestComplete(m.components) && depth >= Frames(m) { ReturnsWithinFrames(m, cfg, others, b, depth); }
  }

  predicate MacrosUnbuilt(cs: seq<Component>) {
    exists i :: 0 <= i < |cs| && cs[i].IsMacros() && cs[i].IsUnbuilt()
  }

  lemma RunawayIsForgottenMacros(m: Module, b: Builder)
    requires BelowBuilt(m.components, m.batch)
    ensures Runaway(m, b) ==>
      RestComplete(m.components) && MacrosUnbuilt(m.components)
  {
    if Runaway(m, b) {
      var i :| 0 <= i < |m.components| && m.components[i].IsUnbuilt();
      assert m.components[i].batch < m.batch;
    }
  }
}
