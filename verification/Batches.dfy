/**
 Continuing and advancing batches (module_build_service/scheduler/batches.py), as functions on
 the module's row. ModuleBuild.dfy holds the handlers that work in place and are proved equal to these.
 */
module Batches {
  import opened Wrappers
  import opened Records

  // ---- submitting one component ----

  /** start_build_component: an exception, or a running build without a task, fails component and module. */
  function SubmitOne(m: Module, i: nat, b: Builder): Module
    requires i < |m.components|
  {
    var c := m.components[i];
    match b.submit(i)
    case Raised =>
      m.(components := m.components[i := c.(state := FailedBuild)]).Transition(Lifecycle.Failed)
    case Answer(task, state, nvr) =>
      if task == None && state == Building then
        m.(components := m.components[i := c.(task := None, state := FailedBuild, nvr := nvr)])
        .Transition(Lifecycle.Failed)
      else
        m.(components := m.components[i := c.(task := task, state := state, nvr := nvr)])
  }

  function SubmitAll(m: Module, chosen: seq<nat>, b: Builder): (r: Module)
    requires Indices(chosen, |m.components|)
    ensures |r.components| == |m.components|
    decreases |chosen|
  {
    if chosen == [] then m else SubmitAll(SubmitOne(m, chosen[0], b), chosen[1..], b)
  }

  function SubmitCalls(chosen: seq<nat>): seq<Call> {
    if chosen == [] then [] else [Submit(chosen[0])] + SubmitCalls(chosen[1..])
  }

  // ---- choosing what to submit ----

  /** recover_orphaned_artifact on a component that never was submitted. */
  function RecoverOne(c: Component, found: Option<Orphan>): Component {
    if c.IsWaitingForBuild() && found.Some?
    then c.(state := Complete, task := Some(found.value.task), nvr := Some(found.value.nvr))
    else c
  }

  function Recover(cs: seq<Component>, order: seq<nat>, b: Builder): (r: seq<Component>)
    ensures |r| == |cs|
  {
    seq(|cs|, i requires 0 <= i < |cs| => if i in order then RecoverOne(cs[i], b.orphan(i)) else cs[i])
  }

  datatype Selection = Selection(components: seq<Component>, chosen: seq<nat>)

  /** The selection loop: it stops at the first component found at the threshold. */
  function Select(cs: seq<Component>, order: seq<nat>, cfg: Config, others: nat): (r: Selection)
    requires Indices(order, |cs|)
    ensures |r.components| == |cs|
    ensures Indices(r.chosen, |cs|)
    decreases |order|
  {
    if order == [] then Selection(cs, [])
    else if cs[order[0]].IsCompleted() then Select(cs, order[1..], cfg, others)
    else if AtThreshold(cfg, others, cs) then Selection(cs, [])
    else
      var i := order[0];
      var rest := Select(cs[i := cs[i].(state := Building)], order[1..], cfg, others);
      Selection(rest.components, [i] + rest.chosen)
  }

  function InsertByWeight(cs: seq<Component>, i: nat, order: seq<nat>): (r: seq<nat>)
    requires i < |cs|
    requires Indices(order, |cs|)
    ensures Indices(r, |cs|)
  {
    if order == [] then [i]
    else if cs[order[0]].weight <= cs[i].weight then [i] + order
    else [order[0]] + InsertByWeight(cs, i, order[1..])
  }

  /** list.sort(key=weight, reverse=True): a stable sort, heaviest first. */
  function SortByWeight(cs: seq<Component>, order: seq<nat>): (r: seq<nat>)
    requires Indices(order, |cs|)
    ensures Indices(r, |cs|)
  {
    if order == [] then []
    else InsertByWeight(cs, order[0], SortByWeight(cs, order[1..]))
  }

  // ---- continue_batch_build ----

  /** continue_batch_build seeded with `seeds`: sort, recover, select, submit. */
  function Continue(m: Module, seeds: seq<nat>, cfg: Config, others: nat, b: Builder): (r: Outcome)
    requires Indices(seeds, |m.components|)
  {
    var order := SortByWeight(m.components, seeds);
    var selection := Select(Recover(m.components, order, b), order, cfg, others);
    Outcome(
      SubmitAll(m.(components := selection.components), selection.chosen, b),
      SubmitCalls(selection.chosen))
  }

  function ContinueBatch(m: Module, cfg: Config, others: nat, b: Builder): Outcome {
    Continue(m, Candidates(m.components, m.batch), cfg, others, b)
  }

  // ---- reusing the components of a new batch ----

  /** reuse_component: the state only changes at once when `now` is set. */
  function Reuse(c: Component, p: Component, now: bool): Component {
    c.(reused := Some(p.id), task := p.task, state := if now then p.state else Building, nvr := p.nvr)
  }

  function ReuseBatch(cs: seq<Component>, names: seq<nat>, b: Builder): (r: seq<Component>)
    ensures |r| == |cs|
  {
    seq(|cs|, i requires 0 <= i < |cs| =>
      if i in names && b.previous.Some? && b.reusable(i).Some?
      then Reuse(cs[i], b.reusable(i).value, false) else cs[i])
  }

  function NotReused(names: seq<nat>, b: Builder): (r: seq<nat>)
    ensures forall i :: i in r <==> i in names && !(b.previous.Some? && b.reusable(i).Some?)
  {
    if names == [] then []
    else (if b.previous.Some? && b.reusable(names[0]).Some? then [] else [names[0]]) + NotReused(names[1..], b)
  }

  // ---- start_next_batch_build ----

  predicate AllReused(m: Module) {
    forall i :: 0 <= i < |m.components| ==> m.components[i].reused != None
  }

  /** What the new batch does once it is known to hold `candidates`: reuse, then build the others. */
  function EnterBatch(m: Module, candidates: seq<nat>, tryReuse: bool, cfg: Config, others: nat, b: Builder): Outcome
    requires Indices(candidates, |m.components|)
  {
    if !tryReuse then Continue(m, candidates, cfg, others, b)
    else
      var after := NotReused(candidates, b);
      assert Indices(after, |m.components|) by {
        assert forall k :: 0 <= k < |after| ==> after[k] in after;
      }
      var m' := m.(components := ReuseBatch(m.components, candidates, b),
                   reusedModule := if b.previous.Some? then b.previous else m.reusedModule);
      if after == [] then Outcome(m', []) else Continue(m', after, cfg, others, b)
  }

  /** What start_next_batch_build finds before it touches the batch counter. */
  datatype Decision = Idle | NoBatch | ContinueCurrent | RelictTasks | NextBatch

  function Decide(m: Module, b: Builder): Decision {
    if !m.AnyUnbuilt() then Idle
    else if m.batch == 0 then NoBatch
    else if m.AnyWaitingInBatch() then ContinueCurrent
    else if m.AnyBuildingInBatch() then Idle
    else if m.AnyUnsuccessful() then Idle
    else if b.activeTasks then RelictTasks
    else if !b.ready(Artifacts(m.components, m.batch)) then Idle
    else NextBatch
  }

  /** The changed-and-after shortcut: look for reusable components only if everything so far was reused. */
  predicate TryReuse(m: Module) {
    m.strategy != ChangedAndAfter || AllReused(m) || m.batch == 1
  }

  function AfterCall(first: Call, rest: Result<Outcome, PyError>): Result<Outcome, PyError> {
    match rest
    case Success(r) => Success(Outcome(r.m, [first] + r.calls))
    case Failure(e) => Failure(e)
  }

  /** start_next_batch_build, with `depth` frames left on the interpreter's stack. */
  function StartNext(m: Module, cfg: Config, others: nat, b: Builder, depth: nat): Result<Outcome, PyError>
    decreases depth, 1
  {
    match Decide(m, b)
    case Idle => Success(Outcome(m, []))
    case NoBatch => Failure(NoBatchInProgress)
    case ContinueCurrent => Success(ContinueBatch(m, cfg, others, b))
    case RelictTasks => Success(Outcome(m.Transition(Lifecycle.Failed), []))
    case NextBatch => MoveOn(m, cfg, others, b, depth)
  }

  /** The counter moves on: the new batch is entered, or skipped by a recursive call. */
  function MoveOn(m: Module, cfg: Config, others: nat, b: Builder, depth: nat): Result<Outcome, PyError>
    decreases depth, 0
  {
    var advance := Advance(Artifacts(m.components, m.batch));
    var next := m.(batch := m.batch + 1);
    var candidates := Candidates(next.components, next.batch);
    if candidates != [] then
      var r := EnterBatch(next, candidates, TryReuse(m), cfg, others, b);
      Success(Outcome(r.m, [advance] + r.calls))
    else if depth == 0 then Failure(RecursionLimit)
    else AfterCall(advance, StartNext(next, cfg, others, b, depth - 1))
  }
}
