/**
 What the handlers answer, in terms of the states, tags and batches of the components: in which case each of
 them waits, tags, asks for a repo, cancels, fails the build or finishes it.
 */
module HandlerAnswers {
  import opened Wrappers
  import opened Records
  import opened Batches
  import opened Handlers
  import opened World
  import opened BatchAnswers
  import Planning

  // ---- repos.done ----

  /** The repo message is of no use now: something is running, untagged or not started, or not in the buildroot yet. */
  predicate RepoWaits(m: Module, b: Builder) {
    || (HoldsBatch(m) && (!TaggedSoFar(m) || NotStarted(m)))
    || InBatchIs(m, Building)
    || (InBatchIs(m, Complete) && LeftToBuild(m) && !Broken(m) && !b.ready(CompletedArtifacts(m.components, m.batch)))
  }

  /** The build is lost: nothing of the batch succeeded, or something failed anywhere. */
  predicate RepoFails(m: Module) {
    m.components != [] && (!InBatchIs(m, Complete) || Broken(m))
  }

  lemma {:induction false} CompletedArtifactsList(m: Module)
    ensures ListsBuilt(CompletedArtifacts(m.components, m.batch), m, false)
  {
    forall nvr ensures nvr in CompletedArtifacts(m.components, m.batch) <==>
      exists i :: 0 <= i < |m.components| && BuiltInBatch(m, i, false) && m.components[i].nvr == nvr
    {
      CompletedHas(m.components, m.batch, nvr);
      if nvr in CompletedArtifacts(m.components, m.batch) {
        var i :| 0 <= i < |m.components| && IsBuilt(m.components[i], m.batch, false) && m.components[i].nvr == nvr;
        assert BuiltInBatch(m, i, false);
      }
      if i: nat :| i < |m.components| && BuiltInBatch(m, i, false) && m.components[i].nvr == nvr {
        assert IsBuilt(m.components[i], m.batch, false);
      }
    }
  }

  predicate IsBuilt(c: Component, batch: nat, final: bool) {
    c.batch == batch && c.state == Complete && (final ==> !c.buildTimeOnly)
  }

  lemma {:induction false} CompletedHas(cs: seq<Component>, batch: nat, nvr: Option<Nvr>)
    ensures nvr in CompletedArtifacts(cs, batch) <==>
      exists i :: 0 <= i < |cs| && IsBuilt(cs[i], batch, false) && cs[i].nvr == nvr
  {
    if cs != [] {
      CompletedHas(cs[1..], batch, nvr);
      assert forall i :: 1 <= i < |cs| ==> cs[i] == cs[1..][i - 1];
      if i: nat :| i < |cs[1..]| && IsBuilt(cs[1..][i], batch, false) && cs[1..][i].nvr == nvr {
        assert IsBuilt(cs[i + 1], batch, false) && cs[i + 1].nvr == nvr;
      }
    }
  }

  lemma {:induction false} FinalHas(cs: seq<Component>, batch: nat, nvr: Option<Nvr>)
    ensures nvr in FinalArtifacts(cs, batch) <==>
      exists i :: 0 <= i < |cs| && IsBuilt(cs[i], batch, true) && cs[i].nvr == nvr
  {
    if cs != [] {
      FinalHas(cs[1..], batch, nvr);
      assert forall i :: 1 <= i < |cs| ==> cs[i] == cs[1..][i - 1];
      if i: nat :| i < |cs[1..]| && IsBuilt(cs[1..][i], batch, true) && cs[1..][i].nvr == nvr {
        assert IsBuilt(cs[i + 1], batch, true) && cs[i + 1].nvr == nvr;
      }
    }
  }

  /**
   What a repo message does: without a batch it raises; it leaves the row alone exactly while it is of no use;
   else it fails the build exactly if that is lost, goes on exactly if something is left to build, with all
   that the batch built in the buildroot, and finishes the build exactly if every component is complete.
   */
  lemma RepoAnswers(m: Module, cfg: Config, others: nat, b: Builder)
    ensures var r := RepoDone(m, cfg, others, b);
      if m.components != [] && m.batch == 0 then r == Failure(NoBatchInProgress)
      else if RepoWaits(m, b) then r == Success(Outcome(m, []))
      else if RepoFails(m) then r == Success(Outcome(m.Transition(Lifecycle.Failed), []))
      else if LeftToBuild(m) then
        b.ready(CompletedArtifacts(m.components, m.batch)) && r == StartNext(m, cfg, others, b, cfg.depth)
      else
        r == Success(Outcome(m.Transition(Lifecycle.Done), []))
        && forall i :: 0 <= i < |m.components| ==> m.components[i].state == Complete
    ensures ListsBuilt(CompletedArtifacts(m.components, m.batch), m, false)
  {
    BatchStates(m);
    CompletedArtifactsList(m);
    if m.components == [] { NothingThere(m); }
  }

  lemma NothingThere(m: Module)
    requires m.components == []
    ensures !HoldsBatch(m) && !InBatchIs(m, Building) && !InBatchIs(m, Complete) && !LeftToBuild(m) && !Broken(m)
  {}

  /** A repo message never disturbs a batch in which something is still being built. */
  lemma RepoSparesRunningBatch(m: Module, cfg: Config, others: nat, b: Builder)
    requires m.batch != 0 && InBatchIs(m, Building)
    ensures RepoDone(m, cfg, others, b) == Success(Outcome(m, []))
  {
    RepoAnswers(m, cfg, others, b);
  }

  // ---- build_task_finalize ----

  /** The calls that tag the built components of the batch: all for the buildroot, then those of the result, if any. */
  ghost predicate TagsBatch(calls: seq<Call>, m: Module, install: bool) {
    exists built, final ::
      && ListsBuilt(built, m, false) && ListsBuilt(final, m, true)
      && calls == [AddToBuildroot(built, install)] + if final == [] then [] else [TagFinal(final)]
  }

  lemma TagCallsTagBatch(m: Module, install: bool)
    ensures TagsBatch(TagCalls(m, install), m, install)
  {
    CompletedArtifactsList(m);
    FinalArtifactsList(m);
    var built, final := CompletedArtifacts(m.components, m.batch), FinalArtifacts(m.components, m.batch);
    assert TagCalls(m, install) == [AddToBuildroot(built, install)] + if final == [] then [] else [TagFinal(final)];
  }

  lemma FinalArtifactsList(m: Module)
    ensures ListsBuilt(FinalArtifacts(m.components, m.batch), m, true)
  {
    forall nvr ensures nvr in FinalArtifacts(m.components, m.batch) <==>
      exists i :: 0 <= i < |m.components| && BuiltInBatch(m, i, true) && m.components[i].nvr == nvr
    {
      FinalHas(m.components, m.batch, nvr);
      if nvr in FinalArtifacts(m.components, m.batch) {
        var i :| 0 <= i < |m.components| && IsBuilt(m.components[i], m.batch, true) && m.components[i].nvr == nvr;
        assert BuiltInBatch(m, i, true);
      }
      if i: nat :| i < |m.components| && BuiltInBatch(m, i, true) && m.components[i].nvr == nvr {
        assert IsBuilt(m.components[i], m.batch, true);
      }
    }
  }

  /** The row once component `i` is marked with the end of its task. */
  function Marked(m: Module, i: nat, state: ComponentState, nvr: Nvr): Module
    requires i < |m.components|
  {
    m.(components := m.components[i := m.components[i].(state := state, nvr := Some(nvr))])
  }

  /** module-build-macros did not succeed, or there is no batch. */
  predicate Doomed(m: Module, i: nat, state: ComponentState)
    requires i < |m.components|
  {
    (m.components[i].package == "module-build-macros" && state != Complete) || m.batch == 0
  }

  lemma FinalizeDecides(m: Module, i: nat, state: ComponentState, nvr: Nvr)
    requires i < |m.components|
    ensures var m' := Marked(m, i, state, nvr);
      DecideFinalize(m', m'.components[i]) ==
        if Doomed(m, i, state) then FailModule
        else if InBatchIs(m', NotSubmitted) then BuildOn
        else if InBatchIs(m', Building) then StillBuilding
        else if BatchBroken(m') then FailModule
        else if InBatchIs(m', Complete) then TagBatch
        else NothingToTag
  {
    BatchStates(Marked(m, i, state, nvr));
  }

  /**
   What the end of a task does, once component `i` is marked: failed macros fail the build; an open batch is
   continued if something in it waits, else left; a finished batch fails the build if something in it failed,
   and is tagged with exactly what it built otherwise.
   */
  lemma FinalizeAnswers(
    m: Module, i: nat, state: ComponentState, nvr: Nvr, cfg: Config, others: nat, b: Builder)
    requires i < |m.components|
    ensures var m', out := Marked(m, i, state, nvr), BuildTaskFinalize(m, i, state, nvr, cfg, others, b);
      if Doomed(m, i, state) then out == Outcome(m'.Transition(Lifecycle.Failed), [])
      else if InBatchIs(m', NotSubmitted) then out == ContinueBatch(m', cfg, others, b)
      else if InBatchIs(m', Building) then out == Outcome(m', [])
      else if BatchBroken(m') then out == Outcome(m'.Transition(Lifecycle.Failed), [])
      else if InBatchIs(m', Complete) then out.m == m' && TagsBatch(out.calls, m', m.components[i].buildTimeOnly)
      else out == Outcome(m', [])
  {
    FinalizeDecides(m, i, state, nvr);
    TagCallsTagBatch(Marked(m, i, state, nvr), m.components[i].buildTimeOnly);
    assert MarkBuilt(m, i, state, nvr) == Marked(m, i, state, nvr);
  }

  /** In a finished batch: exactly a failed component fails the build, and exactly then nothing built is tagged. */
  lemma FinishedBatchFailsIff(
    m: Module, i: nat, state: ComponentState, nvr: Nvr, cfg: Config, others: nat, b: Builder)
    requires i < |m.components| && !Doomed(m, i, state) && !BatchOpen(Marked(m, i, state, nvr))
    ensures var m', out := Marked(m, i, state, nvr), BuildTaskFinalize(m, i, state, nvr, cfg, others, b);
      && (out.m == m'.Transition(Lifecycle.Failed) <==> BatchBroken(m'))
      && (out.m == m' <==> !BatchBroken(m'))
      && (out.calls != [] <==> !BatchBroken(m') && InBatchIs(m', Complete))
  {
    FinalizeAnswers(m, i, state, nvr, cfg, others, b);
    assert |Marked(m, i, state, nvr).Transition(Lifecycle.Failed).trace| == |m.trace| + 1;
  }

  // ---- tags.tagged ----

  /** The first component with that NVR. */
  predicate IsFirst(m: Module, nvr: Nvr, i: nat) {
    i < |m.components| && m.components[i].nvr == Some(nvr)
    && forall j :: 0 <= j < i ==> m.components[j].nvr != Some(nvr)
  }

  lemma {:induction false} FindsFirst(cs: seq<Component>, nvr: Nvr)
    ensures var r := FindNvr(cs, nvr);
      r.Some? ==> r.value < |cs| && cs[r.value].nvr == Some(nvr)
                  && forall j :: 0 <= j < r.value ==> cs[j].nvr != Some(nvr)
  {
    if cs != [] && cs[0].nvr != Some(nvr) {
      FindsFirst(cs[1..], nvr);
      assert forall i :: 1 <= i < |cs| ==> cs[i] == cs[1..][i - 1];
    }
  }

  function WithFlag(m: Module, i: nat, buildTag: bool): Module
    requires i < |m.components|
  {
    var c := m.components[i];
    m.(components := m.components[i := if buildTag then c.(tagged := true) else c.(taggedInFinal := true)])
  }

  /** A regeneration of the repo is recorded and still active. */
  predicate Regenerating(m: Module, b: Builder) {
    m.newRepo.Some? && b.taskActive(m.newRepo.value)
  }

  /** The batch is finished, all that is built so far is tagged, and there is more to build in a new repo. */
  predicate WantsRepo(m: Module, b: Builder) {
    !BatchOpen(m) && TaggedSoFar(m) && LeftToBuild(m) && !Regenerating(m, b)
  }

  /**
   What a tag message does: the flag of the first component with that NVR is set, and a repo is requested,
   and recorded, if and only if the batch is finished, everything built so far is tagged, something is left to
   build, and no regeneration is active.
   */
  lemma TaggedAnswers(m: Module, buildTag: bool, nvr: Nvr, b: Builder)
    ensures (forall i :: 0 <= i < |m.components| ==> m.components[i].nvr != Some(nvr)) ==>
      Tagged(m, buildTag, nvr, b) == Outcome(m, [])
    ensures forall i: nat :: IsFirst(m, nvr, i) ==>
      var m', out := WithFlag(m, i, buildTag), Tagged(m, buildTag, nvr, b);
      if m.batch == 0 then out == Outcome(m'.Transition(Lifecycle.Failed), [])
      else if WantsRepo(m', b) then out == Outcome(m'.(newRepo := Some(b.newRepoTask)), [NewRepo(b.newRepoTask)])
      else out == Outcome(m', [])
  {
    FindsFirst(m.components, nvr);
    forall i: nat | IsFirst(m, nvr, i)
      ensures var m', out := WithFlag(m, i, buildTag), Tagged(m, buildTag, nvr, b);
        if m.batch == 0 then out == Outcome(m'.Transition(Lifecycle.Failed), [])
        else if WantsRepo(m', b) then out == Outcome(m'.(newRepo := Some(b.newRepoTask)), [NewRepo(b.newRepoTask)])
        else out == Outcome(m', [])
    {
      assert FindNvr(m.components, nvr) == Some(i);
      BatchStates(WithFlag(m, i, buildTag));
    }
  }

  // ---- failed, and the producer's retry of a repo ----

  /** Task `t` is that of an unbuilt component. */
  predicate Runs(cs: seq<Component>, t: TaskId) {
    exists i :: 0 <= i < |cs| && cs[i].task == Some(t) && (cs[i].state == NotSubmitted || cs[i].state == Building)
  }

  lemma {:induction false} CancelsUnbuilt(cs: seq<Component>, t: TaskId)
    ensures Cancel(t) in CancelCalls(cs) <==> Runs(cs, t)
    ensures forall c :: c in CancelCalls(cs) ==> c.Cancel?
  {
    if cs != [] {
      CancelsUnbuilt(cs[1..], t);
      assert forall i :: 1 <= i < |cs| ==> cs[i] == cs[1..][i - 1];
      if Runs(cs[1..], t) {
        var i :| 0 <= i < |cs[1..]| && cs[1..][i].task == Some(t)
          && (cs[1..][i].state == NotSubmitted || cs[1..][i].state == Building);
        assert cs[i + 1].task == Some(t);
      }
    }
  }

  /** Every unbuilt component is failed and nothing else about any component changes. */
  predicate UnbuiltFailed(cs: seq<Component>, ds: seq<Component>) {
    |ds| == |cs| && forall i :: 0 <= i < |cs| ==>
      ds[i] == if cs[i].state == NotSubmitted || cs[i].state == Building then cs[i].(state := FailedBuild) else cs[i]
  }

  /**
   What `failed` does to a build that got its tag: exactly the tasks of unbuilt components and of the recorded
   regeneration are canceled, exactly the unbuilt components fail, and the build is failed, recorded at most
   once. Without a tag nothing is canceled.
   */
  lemma FailedAnswers(m: Module, reasonGiven: bool)
    ensures var out := FailedHandler(m, reasonGiven);
      && (forall c :: c in out.calls ==> c.Cancel?)
      && (forall t: TaskId :: Cancel(t) in out.calls <==> m.kojiTag && (m.newRepo == Some(t) || Runs(m.components, t)))
      && (if m.kojiTag then UnbuiltFailed(m.components, out.m.components) else out.m.components == m.components)
      && out.m == m.(components := out.m.components, state := Lifecycle.Failed, trace := out.m.trace)
      && out.m.trace == m.trace
         + if m.state == Lifecycle.Failed && (m.kojiTag || reasonGiven) then [] else [Lifecycle.Failed]
  {
    var out := FailedHandler(m, reasonGiven);
    forall t: TaskId ensures Cancel(t) in out.calls <==> m.kojiTag && (m.newRepo == Some(t) || Runs(m.components, t)) {
      CancelsUnbuilt(m.components, t);
    }
    CancelsUnbuilt(m.components, 0);
  }

  /** A regeneration that ended badly is requested again exactly while the build goes on, and the new one recorded. */
  lemma RetriggerAnswers(m: Module, taskFailed: bool, b: Builder)
    ensures var out := RetriggerNewRepo(m, taskFailed, b);
      var again := m.state == Lifecycle.Build && m.newRepo.Some? && taskFailed;
      && (NewRepo(b.newRepoTask) in out.calls <==> again)
      && out.m == m.(newRepo := out.m.newRepo)
      && out.m.newRepo == (if again then Some(b.newRepoTask) else m.newRepo)
      && |out.calls| <= 1
  {}

  // ---- wait ----

  /** The first row of module-build-macros, or where it is added. */
  predicate MacrosAt(cs: seq<Component>, k: nat) {
    && k <= |cs| && (forall j :: 0 <= j < k ==> cs[j].package != "module-build-macros")
    && (k < |cs| ==> cs[k].package == "module-build-macros")
  }

  /** A row of module-build-macros as `wait` adds it: in batch 1, only for the buildroot, not submitted. */
  predicate NewMacros(c: Component) {
    && c.package == "module-build-macros" && c.batch == 1 && c.buildTimeOnly && !c.buildonly && c.ref == None
    && c.state == NotSubmitted && c.task == None && c.nvr == None && !c.tagged && !c.taggedInFinal && c.reused == None
  }

  /** Nothing but row `k`, which may be new, differs from `before`. */
  predicate OnlyRow(cs: seq<Component>, ds: seq<Component>, k: nat) {
    && k < |ds| && |ds| == (if k < |cs| then |cs| else |cs| + 1)
    && forall j :: 0 <= j < |cs| && j != k ==> ds[j] == cs[j]
  }

  /** Row `c` of module-build-macros is left if it is built, else recovered if a build is found, else submitted. */
  predicate MacrosBuilt(c: Component, d: Component, found: Option<Orphan>, a: SubmitAnswer) {
    if c.state == Complete then d == c
    else if found.Some? then
      d == c.(state := Complete, task := Some(found.value.task), nvr := Some(found.value.nvr))
    else if a == Raised then d == c
    else d == c.(state := a.state, task := a.task, nvr := a.nvr)
  }

  /** Everything but module-build-macros is offered for reuse. */
  predicate AllOffered(m: Module, b: Builder) {
    b.previous.Some?
    && forall i :: 0 <= i < |m.components| && m.components[i].package != "module-build-macros" ==> b.reusable(i).Some?
  }

  lemma MacrosFound(cs: seq<Component>) returns (k: nat)
    ensures MacrosAt(cs, k) && Planning.Find(cs, MACROS) == if k < |cs| then Some(k) else None
  {
    FindsFirstRow(cs, MACROS);
    var r := Planning.Find(cs, MACROS);
    k := if r.Some? then r.value else |cs|;
  }

  lemma {:induction false} FindsFirstRow(cs: seq<Component>, package: string)
    ensures var r := Planning.Find(cs, package);
      r.Some? ==> r.value < |cs| && cs[r.value].package == package
                  && forall j :: 0 <= j < r.value ==> cs[j].package != package
  {
    if cs != [] && cs[0].package != package {
      FindsFirstRow(cs[1..], package);
      assert forall i :: 1 <= i < |cs| ==> cs[i] == cs[1..][i - 1];
    }
  }

  lemma WithMacrosRow(cs: seq<Component>, k: nat)
    requires MacrosAt(cs, k) && Planning.Find(cs, MACROS) == if k < |cs| then Some(k) else None
    ensures var ds := WithMacros(cs);
      && OnlyRow(cs, ds, k) && (if k < |cs| then ds == cs else NewMacros(ds[k]))
      && Planning.Find(ds, MACROS) == Some(k)
  {
    if k == |cs| {
      assert WithMacros(cs) == cs + [MacrosRow(|cs|)];
      AppendedRow(cs, WithMacros(cs));
    }
  }

  lemma AppendedRow(cs: seq<Component>, ds: seq<Component>)
    requires MacrosAt(cs, |cs|) && ds == cs + [MacrosRow(|cs|)]
    ensures OnlyRow(cs, ds, |cs|) && NewMacros(ds[|cs|]) && Planning.Find(ds, MACROS) == Some(|cs|)
  {
    FindsFirstRow(ds, MACROS);
    forall j | 0 <= j < |cs| ensures ds[j] == cs[j] && ds[j].package != MACROS {}
    assert ds[|cs|].package == MACROS;
    var r := Planning.Find(ds, MACROS);
    assert r.value == |cs|;
  }

  /** The macros are about to be built, in row `k` of a build in batch 1. */
  ghost predicate Begins(m: Module, m': Module, k: nat, b: Builder) {
    && OnlyRow(m.components, m'.components, k)
    && (if k < |m.components| then MacrosBuilt(m.components[k], m'.components[k], b.orphan(k), b.submit(k))
        else exists c :: NewMacros(c) && MacrosBuilt(c, m'.components[k], b.orphan(k), b.submit(k)))
  }

  predicate MacrosSubmitted(m: Module, k: nat, b: Builder) {
    (k < |m.components| ==> m.components[k].state != Complete) && b.orphan(k) == None
  }

  /**
   How a build of batch 1 starts: the row of module-build-macros is found or added, and built unless it is
   complete or a build of it is found. If the submission raises, the build fails and no repo is requested;
   otherwise the build goes on with a new repo, requested and recorded.
   */
  lemma StartAnswers(m: Module, b: Builder) returns (k: nat)
    ensures MacrosAt(m.components, k)
    ensures var out := StartBuild(m, b);
      var raised := MacrosSubmitted(m, k, b) && b.submit(k) == Raised;
      && Begins(m, out.m, k, b) && out.m.batch == 1
      && out.m == m.(batch := 1, components := out.m.components, state := out.m.state, trace := out.m.trace,
                     newRepo := out.m.newRepo)
      && out.m.state == (if raised then Lifecycle.Failed else Lifecycle.Build)
      && out.m.trace == m.trace + [out.m.state]
      && out.m.newRepo == (if raised then m.newRepo else Some(b.newRepoTask))
      && out.calls == if raised then [] else if MacrosSubmitted(m, k, b) then [Call.Submit(k), NewRepo(b.newRepoTask)]
                      else [NewRepo(b.newRepoTask)]
  {
    k := MacrosFound(m.components);
    WithMacrosRow(m.components, k);
    var started := m.(batch := 1, components := WithMacros(m.components));
    assert MacrosIndex(started.components) == k;
    if k == |m.components| { assert NewMacros(started.components[k]); }
  }

  /**
   What `wait` does: without dependencies the build fails; without components it is built at once; if
   everything is offered, all of it is reused; else batch 1 starts. The tag is set in all cases but the first.
   */
  lemma WaitAnswers(m: Module, depsFound: bool, b: Builder)
    ensures var out, tagged := WaitHandler(m, depsFound, b), m.(kojiTag := true);
      var chosen := if b.previous.Some? then tagged.(reusedModule := b.previous) else tagged;
      if !depsFound then
        && out.calls == [] && out.m == m.(state := Lifecycle.Failed, trace := out.m.trace)
        && out.m.trace == m.trace + [Lifecycle.Failed, Lifecycle.Failed]
      else if m.components == [] then out == Outcome(tagged.Transition(Lifecycle.Build), [])
      else if AllOffered(m, b) then
        var all := ReuseAll(tagged, b);
        && all.reused && out == Outcome(all.outcome.m.Transition(Lifecycle.Build), all.outcome.calls)
        && all.outcome.m == chosen.(components := all.outcome.m.components, batch := all.outcome.m.batch)
      else out == StartBuild(chosen, b)
  {
    if m.components != [] {
      var tagged := m.(kojiTag := true);
      assert AnyNotReusable(m.components, b) <==>
        exists i :: 0 <= i < |m.components|
          && m.components[i].package != "module-build-macros" && b.reusable(i) == None;
    }
  }

  // ---- resubmission ----

  /** State `k` of the trace is init, and only failures follow. */
  predicate InitThenFailures(trace: seq<Lifecycle>, k: nat) {
    k < |trace| && trace[k] == Init && forall j :: k < j < |trace| ==> trace[j] == Lifecycle.Failed
  }

  /** The build never got further than init. */
  predicate LeftFromInit(trace: seq<Lifecycle>) {
    exists k :: 0 <= k < |trace| && InitThenFailures(trace, k)
  }

  lemma {:induction false} PreviousIsInit(trace: seq<Lifecycle>)
    ensures PreviousNonFailed(trace) == Some(Init) <==> LeftFromInit(trace)
    decreases |trace|
  {
    if trace != [] {
      var n := |trace| - 1;
      if trace[n] == Lifecycle.Failed {
        PreviousIsInit(trace[..n]);
        forall k | 0 <= k < n ensures InitThenFailures(trace[..n], k) <==> InitThenFailures(trace, k) {
          OneMoreFailure(trace, k);
        }
        assert !InitThenFailures(trace, n);
      } else {
        assert InitThenFailures(trace, n) <==> trace[n] == Init;
      }
    }
  }

  lemma OneMoreFailure(trace: seq<Lifecycle>, k: nat)
    requires k < |trace| - 1 && trace[|trace| - 1] == Lifecycle.Failed
    ensures InitThenFailures(trace[..|trace| - 1], k) <==> InitThenFailures(trace, k)
  {
    var before := trace[..|trace| - 1];
    if InitThenFailures(trace, k) {
      forall j | k < j < |before| ensures before[j] == Lifecycle.Failed { assert before[j] == trace[j]; }
    }
    if InitThenFailures(before, k) {
      forall j | k < j < |trace| ensures trace[j] == Lifecycle.Failed {
        if j < |before| { assert trace[j] == before[j]; }
      }
    }
  }

  /** Every component that is neither waiting nor complete waits again; nothing else about it changes. */
  predicate Reset(cs: seq<Component>, ds: seq<Component>) {
    |ds| == |cs| && forall i :: 0 <= i < |cs| ==>
      ds[i] == if cs[i].state == NotSubmitted || cs[i].state == Complete then cs[i] else cs[i].(state := NotSubmitted)
  }

  /** A resubmission takes a failed build back to init if it never got further, and to `wait` before batch 1 else. */
  lemma ResubmitAnswers(m: Module)
    ensures var m', first := Resubmit(m), LeftFromInit(m.trace);
      if m.state != Lifecycle.Failed then m' == m
      else
        && Reset(m.components, m'.components)
        && m' == m.(components := m'.components, batch := m'.batch, state := m'.state, trace := m.trace + [m'.state])
        && m'.state == (if first then Init else Wait) && m'.batch == if first then m.batch else 0
  {
    PreviousIsInit(m.trace);
  }

  // ---- the producer and the user ----

  /** A paused build is advanced in the build state, in a batch with nothing running, below the limit. */
  lemma PausedAnswers(m: Module, missed: bool, cfg: Config, others: nat, b: Builder)
    ensures var on := m.state == Lifecycle.Build && m.batch != 0 && !InBatchIs(m, Building) && missed
                      && (cfg.limit == 0 || others + CountBuilding(m.components, true) < cfg.limit);
      ProcessPaused(m, missed, cfg, others, b)
      == if on then StartNext(m, cfg, others, b, cfg.depth) else Success(Outcome(m, []))
  {
    BatchStates(m);
  }

  /** Cleaning up takes both flags from exactly the complete components of a failed build, which becomes garbage. */
  lemma CleanupAnswers(m: Module)
    ensures var m' := CleanupStale(m);
      if m.state != Lifecycle.Failed then m' == m
      else
        && m' == m.(components := m'.components, state := Garbage, trace := m.trace + [Garbage])
        && |m'.components| == |m.components|
        && forall i :: 0 <= i < |m.components| ==>
             var c := m.components[i];
             m'.components[i] == if c.state == Complete then c.(tagged := false, taggedInFinal := false) else c
  {}

  /** A user cancels what is not built yet; the producer cancels what is stuck in init or build. */
  lemma CancelAnswers(m: Module)
    ensures UserCancel(m) != m <==> m.state in {Init, Wait, Lifecycle.Build}
    ensures CancelStuck(m) != m <==> m.state in {Init, Lifecycle.Build}
    ensures UserCancel(m) in {m, m.Transition(Lifecycle.Failed)}
    ensures CancelStuck(m) in {m, m.Transition(Lifecycle.Failed)}
  {
    assert |m.Transition(Lifecycle.Failed).trace| == |m.trace| + 1;
  }

  /** A build in init is planned and waits if it is valid and can be planned, and fails as it is otherwise. */
  lemma InitAnswers(m: Module, valid: bool)
    ensures var m', planned := InitHandler(m, valid), Planning.RecordComponentBuilds(m.mmd, m.components);
      && (m' == m <==> m.state != Init)
      && (m.state == Init ==>
           if valid && planned.Success? then m' == m.(components := planned.value.rows).Transition(Wait)
           else m' == m.Transition(Lifecycle.Failed))
  {
    assert forall s, cs :: |m.(components := cs).Transition(s).trace| == |m.trace| + 1;
  }

  // ---- the message in its state ----

  /** Tag and repo messages are for a build in the build state; elsewhere nothing happens. */
  lemma OnlyBuildsListen(r: Record, msg: Message, cfg: Config, others: nat)
    requires r.m.state != Lifecycle.Build
    requires msg.TagMessage? || msg.RepoMessage? || msg.PausedTick? || msg.RetriggerTick?
    ensures OutcomeOf(r, msg, cfg, others) == Outcome(r.m, [])
  {}

  /** A repo message whose handler raises fails the build and leaves no call; the producer's step leaves it alone. */
  lemma RaisedAnswers(r: Record, cfg: Config, others: nat, b: Builder, missed: bool)
    ensures r.m.state == Lifecycle.Build && RepoDone(r.m, cfg, others, b).Failure? ==>
      OutcomeOf(r, RepoMessage(b), cfg, others) == Outcome(r.m.Transition(Lifecycle.Failed), [])
    ensures ProcessPaused(r.m, missed, cfg, others, b).Failure? ==>
      OutcomeOf(r, PausedTick(missed, b), cfg, others) == Outcome(r.m, [])
  {}
}
