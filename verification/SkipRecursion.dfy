/**
 The recursion by which start_next_batch_build crosses batch numbers that hold nothing to build:
 where it stops, and exactly when it does not.
 */
module SkipRecursion {
  import opened Wrappers
  import opened Records
  import opened Batches

  /** Whatever is unbuilt lies below the current batch. */
  predicate UnbuiltOnlyBelow(m: Module) {
    forall i :: 0 <= i < |m.components| && m.components[i].IsUnbuilt() ==> m.components[i].batch < m.batch
  }

  predicate UnbuiltOnlyAbove(m: Module) {
    forall i :: 0 <= i < |m.components| && m.components[i].IsUnbuilt() ==> m.components[i].batch > m.batch
  }

  predicate UnbuiltAt(cs: seq<Component>, k: nat) {
    exists i :: 0 <= i < |cs| && cs[i].batch == k && cs[i].IsUnbuilt()
  }

  /** The buildroot answers yes for every batch from the current one on. */
  ghost predicate ReadyFrom(m: Module, b: Builder) {
    forall k: nat :: m.batch <= k ==> b.ready(Artifacts(m.components, k))
  }

  ghost predicate PassesChecks(m: Module, b: Builder) {
    !m.AnyUnsuccessful() && !b.activeTasks && ReadyFrom(m, b)
  }

  /** The inputs on which the recursion has nowhere to stop. */
  ghost predicate Runaway(m: Module, b: Builder) {
    m.batch > 0 && m.AnyUnbuilt() && UnbuiltOnlyBelow(m) && PassesChecks(m, b)
  }

  /** ModuleBuild.last_batch_id, 0 when there are no components. */
  function LastBatch(cs: seq<Component>): (r: nat)
    ensures forall i :: 0 <= i < |cs| ==> cs[i].batch <= r
  {
    if cs == [] then 0
    else
      var r := LastBatch(cs[1..]);
      assert forall i :: 1 <= i < |cs| ==> cs[i] == cs[1..][i - 1];
      if cs[0].batch > r then cs[0].batch else r
  }

  lemma {:induction false} NoArtifactsPastLast(cs: seq<Component>, k: nat)
    requires forall i :: 0 <= i < |cs| ==> cs[i].batch != k
    ensures Artifacts(cs, k) == []
  {
    if cs != [] { NoArtifactsPastLast(cs[1..], k); }
  }

  /** A call that returns, with its outcome. */
  predicate Returns(m: Module, cfg: Config, others: nat, b: Builder, depth: nat, out: Outcome) {
    StartNext(m, cfg, others, b, depth) == Success(out)
  }

  /** The batch counter moves on, and the new batch holds nothing to submit: the recursive call is made. */
  predicate Skips(m: Module, b: Builder) {
    Decide(m, b) == NextBatch && Candidates(m.components, m.batch + 1) == []
  }

  /** The batch after a skipped one, and the frames the call for it has. */
  predicate Below(m: Module, next: Module, depth: nat, left: nat) {
    next == m.(batch := m.batch + 1) && depth == left + 1
  }

  lemma {:induction false} SkipMoves(m: Module, next: Module, cfg: Config, others: nat, b: Builder, depth: nat, left: nat)
    requires Candidates(m.components, m.batch + 1) == [] && Below(m, next, depth, left)
    ensures MoveOn(m, cfg, others, b, depth)
         == AfterCall(Advance(Artifacts(m.components, m.batch)), StartNext(next, cfg, others, b, left))
  {}

  lemma {:induction false} NextMovesOn(m: Module, cfg: Config, others: nat, b: Builder, depth: nat)
    requires Decide(m, b) == NextBatch
    ensures StartNext(m, cfg, others, b, depth) == MoveOn(m, cfg, others, b, depth)
  {}

  lemma {:induction false} SkipStep(m: Module, next: Module, cfg: Config, others: nat, b: Builder, depth: nat, left: nat)
    requires Skips(m, b) && Below(m, next, depth, left)
    ensures StartNext(m, cfg, others, b, depth)
         == AfterCall(Advance(Artifacts(m.components, m.batch)), StartNext(next, cfg, others, b, left))
  {
    NextMovesOn(m, cfg, others, b, depth);
    SkipMoves(m, next, cfg, others, b, depth, left);
  }

  lemma SkipEnds(m: Module, cfg: Config, others: nat, b: Builder)
    requires Skips(m, b)
    ensures StartNext(m, cfg, others, b, 0) == Failure(RecursionLimit)
  {}

  lemma SkipResult(m: Module, cfg: Config, others: nat, b: Builder, depth: nat, out: Outcome)
    returns (next: Module, left: nat, deeper: Outcome)
    requires Skips(m, b) && Returns(m, cfg, others, b, depth, out)
    ensures Below(m, next, depth, left)
    ensures Returns(next, cfg, others, b, left, deeper)
    ensures out == Outcome(deeper.m, [Advance(Artifacts(m.components, m.batch))] + deeper.calls)
  {
    if depth == 0 { SkipEnds(m, cfg, others, b); }
    next, left := m.(batch := m.batch + 1), depth - 1;
    SkipStep(m, next, cfg, others, b, depth, left);
    deeper := StartNext(next, cfg, others, b, left).value;
  }

  lemma SkipLimit(m: Module, next: Module, cfg: Config, others: nat, b: Builder, depth: nat, left: nat)
    requires Skips(m, b) && Below(m, next, depth, left)
    ensures StartNext(m, cfg, others, b, depth) == Failure(RecursionLimit)
       <==> StartNext(next, cfg, others, b, left) == Failure(RecursionLimit)
  {
    SkipStep(m, next, cfg, others, b, depth, left);
  }

  /** The call in which the recursion ends: only the batch counter differs, and its result is the result. */
  ghost predicate LandsAt(
    m: Module, cfg: Config, others: nat, b: Builder, out: Outcome, last: Module, left: nat, landed: Outcome)
  {
    && !Skips(last, b) && last == m.(batch := last.batch) && m.batch <= last.batch
    && Returns(last, cfg, others, b, left, landed) && landed.m == out.m
  }

  lemma LandsAfterSkip(
    m: Module, next: Module, cfg: Config, others: nat, b: Builder, out: Outcome, deeper: Outcome,
    last: Module, left: nat, landed: Outcome)
    requires next == m.(batch := m.batch + 1) && out.m == deeper.m
    requires LandsAt(next, cfg, others, b, deeper, last, left, landed)
    ensures LandsAt(m, cfg, others, b, out, last, left, landed)
  {}

  lemma LandsHere(m: Module, cfg: Config, others: nat, b: Builder, depth: nat, out: Outcome)
    requires !Skips(m, b) && Returns(m, cfg, others, b, depth, out)
    ensures LandsAt(m, cfg, others, b, out, m, depth, out)
  {}

  lemma {:induction false} Landing(m: Module, cfg: Config, others: nat, b: Builder, depth: nat, out: Outcome)
    returns (last: Module, left: nat, landed: Outcome)
    requires Returns(m, cfg, others, b, depth, out)
    ensures LandsAt(m, cfg, others, b, out, last, left, landed)
    decreases depth, 1
  {
    if Skips(m, b) {
      last, left, landed := LandingSkip(m, cfg, others, b, depth, out);
    } else {
      last, left, landed := m, depth, out;
      LandsHere(m, cfg, others, b, depth, out);
    }
  }

  lemma {:induction false} LandingSkip(m: Module, cfg: Config, others: nat, b: Builder, depth: nat, out: Outcome)
    returns (last: Module, left: nat, landed: Outcome)
    requires Skips(m, b) && Returns(m, cfg, others, b, depth, out)
    ensures LandsAt(m, cfg, others, b, out, last, left, landed)
    decreases depth, 0
  {
    var next, below, deeper := SkipResult(m, cfg, others, b, depth, out);
    last, left, landed := LandingBeyond(m, next, cfg, others, b, below, out, deeper);
  }

  lemma {:induction false} LandingBeyond(
    m: Module, next: Module, cfg: Config, others: nat, b: Builder, depth: nat, out: Outcome, deeper: Outcome)
    returns (last: Module, left: nat, landed: Outcome)
    requires next == m.(batch := m.batch + 1) && out.m == deeper.m
    requires Returns(next, cfg, others, b, depth, deeper)
    ensures LandsAt(m, cfg, others, b, out, last, left, landed)
    decreases depth, 2
  {
    last, left, landed := Landing(next, cfg, others, b, depth, deeper);
    LandsAfterSkip(m, next, cfg, others, b, out, deeper, last, left, landed);
  }

  lemma {:induction false} NoSkipReturns(m: Module, cfg: Config, others: nat, b: Builder, depth: nat)
    requires !Skips(m, b)
    ensures StartNext(m, cfg, others, b, depth) != Failure(RecursionLimit)
  {}

  /** Without unsuccessful components, a batch with something to submit holds an unbuilt component. */
  lemma CandidateIsUnbuilt(m: Module, k: nat)
    requires !m.AnyUnsuccessful()
    ensures Candidates(m.components, k) != [] ==> UnbuiltAt(m.components, k)
  {
    var r := Candidates(m.components, k);
    if r != [] {
      assert r[0] in r;
      assert !m.components[r[0]].IsUnsuccessful();
    }
  }

  lemma RunawaySkips(m: Module, b: Builder)
    requires Runaway(m, b)
    ensures Skips(m, b) && Runaway(m.(batch := m.batch + 1), b)
  {
    var next := m.(batch := m.batch + 1);
    CandidateIsUnbuilt(m, m.batch + 1);
    assert b.ready(Artifacts(m.components, m.batch));
    forall k: nat | next.batch <= k ensures b.ready(Artifacts(next.components, k)) {
      assert b.ready(Artifacts(m.components, k));
    }
    var i :| 0 <= i < |m.components| && m.components[i].IsUnbuilt();
    assert next.components[i].IsUnbuilt();
  }

  /** On such an input no stack is deep enough. */
  lemma {:induction false} RunawayNeverReturns(m: Module, cfg: Config, others: nat, b: Builder, depth: nat)
    requires Runaway(m, b)
    ensures StartNext(m, cfg, others, b, depth) == Failure(RecursionLimit)
    decreases depth
  {
    RunawaySkips(m, b);
    if depth == 0 {
      SkipEnds(m, cfg, others, b);
    } else {
      var next, left := m.(batch := m.batch + 1), depth - 1;
      RunawayNeverReturns(next, cfg, others, b, left);
      SkipLimit(m, next, cfg, others, b, depth, left);
    }
  }

  /** A skip that leads to a runaway input starts from one. */
  lemma RunawayBackwards(m: Module, b: Builder)
    requires Skips(m, b) && Runaway(m.(batch := m.batch + 1), b)
    ensures Runaway(m, b)
  {
    var next := m.(batch := m.batch + 1);
    forall i | 0 <= i < |m.components| && m.components[i].IsUnbuilt() ensures m.components[i].batch < m.batch {
      assert next.components[i].batch < next.batch;
      assert m.InBatch(i) <==> m.components[i].batch == m.batch;
    }
    forall k: nat | m.batch <= k ensures b.ready(Artifacts(m.components, k)) {
      if k > m.batch { assert b.ready(Artifacts(next.components, k)); }
    }
  }

  /** Past the last batch only a runaway input skips. */
  lemma SkipPastLastIsRunaway(m: Module, b: Builder)
    requires m.batch > LastBatch(m.components) && Skips(m, b)
    ensures Runaway(m, b)
  {
    forall k: nat | m.batch <= k ensures b.ready(Artifacts(m.components, k)) {
      NoArtifactsPastLast(m.components, k);
      NoArtifactsPastLast(m.components, m.batch);
    }
  }

  /** Frames the recursion may need: the distance to one past the last batch. */
  function Frames(m: Module): nat {
    if m.batch <= LastBatch(m.components) then LastBatch(m.components) + 1 - m.batch else 0
  }

  lemma {:induction false} ReturnsWithinFrames(m: Module, cfg: Config, others: nat, b: Builder, depth: nat)
    requires !Runaway(m, b) && depth >= Frames(m)
    ensures StartNext(m, cfg, others, b, depth) != Failure(RecursionLimit)
    decreases depth, 1
  {
    if Skips(m, b) {
      SkipReturns(m, cfg, others, b, depth);
    } else {
      NoSkipReturns(m, cfg, others, b, depth);
    }
  }

  /** A skip from an input that is not runaway leads to one that is not, and there is a frame for it. */
  lemma SkipStaysBounded(m: Module, b: Builder, depth: nat)
    requires !Runaway(m, b) && depth >= Frames(m) && Skips(m, b)
    ensures var next := m.(batch := m.batch + 1); !Runaway(next, b) && depth >= Frames(next) + 1
  {
    if m.batch > LastBatch(m.components) { SkipPastLastIsRunaway(m, b); }
    if Runaway(m.(batch := m.batch + 1), b) { RunawayBackwards(m, b); }
  }

  lemma {:induction false} SkipReturns(m: Module, cfg: Config, others: nat, b: Builder, depth: nat)
    requires !Runaway(m, b) && depth >= Frames(m) && Skips(m, b)
    ensures StartNext(m, cfg, others, b, depth) != Failure(RecursionLimit)
    decreases depth, 0
  {
    SkipStaysBounded(m, b, depth);
    var next, left := m.(batch := m.batch + 1), depth - 1;
    ReturnsWithinFrames(next, cfg, others, b, left);
    SkipLimit(m, next, cfg, others, b, depth, left);
  }

  /**
   The recursion of start_next_batch_build ends, for some stack, exactly when the input is not
   runaway: unbuilt components that all lie below the current batch while every check passes.
   */
  lemma RecursionEndsIff(m: Module, cfg: Config, others: nat, b: Builder)
    ensures (exists depth: nat :: StartNext(m, cfg, others, b, depth) != Failure(RecursionLimit)) <==> !Runaway(m, b)
  {
    if Runaway(m, b) {
      forall depth: nat ensures StartNext(m, cfg, others, b, depth) == Failure(RecursionLimit) {
        RunawayNeverReturns(m, cfg, others, b, depth);
      }
    } else {
      ReturnsWithinFrames(m, cfg, others, b, Frames(m));
    }
  }

  // ---- where it stops ----

  /** What no handler changes: the modulemd, the strategy, and that there are components. */
  predicate SameBuild(m: Module, m': Module) {
    m'.mmd == m.mmd && m'.strategy == m.strategy && |m.components| <= |m'.components|
  }

  predicate Kept(m: Module, m': Module) {
    && SameBuild(m, m')
    && m'.batch == m.batch && m'.newRepo == m.newRepo && (m'.state == m.state || m'.state == Lifecycle.Failed)
  }

  lemma {:induction false} SubmitAllKeepsBatch(m: Module, chosen: seq<nat>, b: Builder)
    requires Indices(chosen, |m.components|)
    ensures Kept(m, SubmitAll(m, chosen, b)) && SubmitAll(m, chosen, b).reusedModule == m.reusedModule
    decreases |chosen|
  {
    if chosen != [] { SubmitAllKeepsBatch(SubmitOne(m, chosen[0], b), chosen[1..], b); }
  }

  lemma ContinueKeepsBatch(m: Module, seeds: seq<nat>, cfg: Config, others: nat, b: Builder)
    requires Indices(seeds, |m.components|)
    ensures var out := Continue(m, seeds, cfg, others, b); Kept(m, out.m) && out.m.reusedModule == m.reusedModule
  {
    var order := SortByWeight(m.components, seeds);
    var selection := Select(Recover(m.components, order, b), order, cfg, others);
    SubmitAllKeepsBatch(m.(components := selection.components), selection.chosen, b);
  }

  /** The module build that components are reused from is the recorded one, or the one the query found. */
  predicate SourceKept(m: Module, m': Module, b: Builder) {
    SameBuild(m, m') && (m'.reusedModule == m.reusedModule || (b.previous.Some? && m'.reusedModule == b.previous))
  }

  lemma EnterKeepsBatch(m: Module, candidates: seq<nat>, tryReuse: bool, cfg: Config, others: nat, b: Builder)
    requires Indices(candidates, |m.components|)
    ensures var out := EnterBatch(m, candidates, tryReuse, cfg, others, b);
      Kept(m, out.m) && SourceKept(m, out.m, b)
  {
    if !tryReuse {
      ContinueKeepsBatch(m, candidates, cfg, others, b);
    } else {
      var after := NotReused(candidates, b);
      assert forall k :: 0 <= k < |after| ==> after[k] in after;
      var m' := m.(components := ReuseBatch(m.components, candidates, b),
                   reusedModule := if b.previous.Some? then b.previous else m.reusedModule);
      if after != [] { ContinueKeepsBatch(m', after, cfg, others, b); }
    }
  }

  lemma AboveAdvances(m: Module, b: Builder)
    requires m.batch > 0 && m.AnyUnbuilt() && UnbuiltOnlyAbove(m) && PassesChecks(m, b)
    ensures Decide(m, b) == NextBatch
  {
    assert b.ready(Artifacts(m.components, m.batch));
  }

  /** The checks pass and the next batch has something to submit: it becomes the current one. */
  lemma {:induction false} EnterStep(m: Module, cfg: Config, others: nat, b: Builder, depth: nat, r: Outcome)
    requires Decide(m, b) == NextBatch && Candidates(m.components, m.batch + 1) != []
    requires r == EnterBatch(m.(batch := m.batch + 1), Candidates(m.components, m.batch + 1), TryReuse(m), cfg, others, b)
    ensures StartNext(m, cfg, others, b, depth)
         == Success(Outcome(r.m, [Advance(Artifacts(m.components, m.batch))] + r.calls))
  {}

  lemma EntersWith(m: Module, cfg: Config, others: nat, b: Builder, depth: nat, out: Outcome) returns (r: Outcome)
    requires Decide(m, b) == NextBatch && !Skips(m, b) && Returns(m, cfg, others, b, depth, out)
    ensures r == EnterBatch(m.(batch := m.batch + 1), Candidates(m.components, m.batch + 1), TryReuse(m), cfg, others, b)
    ensures out == Outcome(r.m, [Advance(Artifacts(m.components, m.batch))] + r.calls)
  {
    r := EnterBatch(m.(batch := m.batch + 1), Candidates(m.components, m.batch + 1), TryReuse(m), cfg, others, b);
    EnterStep(m, cfg, others, b, depth, r);
  }

  lemma EntersNextBatch(m: Module, cfg: Config, others: nat, b: Builder, depth: nat) returns (out: Outcome)
    requires Decide(m, b) == NextBatch && Candidates(m.components, m.batch + 1) != []
    ensures Returns(m, cfg, others, b, depth, out)
    ensures out.m.batch == m.batch + 1
    ensures |out.calls| >= 1 && out.calls[0] == Advance(Artifacts(m.components, m.batch))
  {
    var r := EnterBatch(m.(batch := m.batch + 1), Candidates(m.components, m.batch + 1), TryReuse(m), cfg, others, b);
    EnterStep(m, cfg, others, b, depth, r);
    EnterKeepsBatch(m.(batch := m.batch + 1), Candidates(m.components, m.batch + 1), TryReuse(m), cfg, others, b);
    out := Outcome(r.m, [Advance(Artifacts(m.components, m.batch))] + r.calls);
  }

  /** What start_next_batch_build leaves alone. */
  predicate Spares(m: Module, m': Module, b: Builder) {
    && m'.newRepo == m.newRepo && (m'.state == m.state || m'.state == Lifecycle.Failed) && SourceKept(m, m', b)
  }

  lemma EnterFirstSpares(m: Module, cfg: Config, others: nat, b: Builder, depth: nat, out: Outcome)
    requires Returns(m, cfg, others, b, depth, out)
    requires Decide(m, b) == NextBatch && Candidates(m.components, m.batch + 1) != []
    ensures Spares(m, out.m, b)
  {
    var next, candidates := m.(batch := m.batch + 1), Candidates(m.components, m.batch + 1);
    EnterStep(m, cfg, others, b, depth, EnterBatch(next, candidates, TryReuse(m), cfg, others, b));
    EnterKeepsBatch(next, candidates, TryReuse(m), cfg, others, b);
  }

  lemma StaySpares(m: Module, cfg: Config, others: nat, b: Builder, depth: nat, out: Outcome)
    requires Decide(m, b) != NextBatch && Returns(m, cfg, others, b, depth, out)
    ensures Spares(m, out.m, b)
  {
    ContinueKeepsBatch(m, Candidates(m.components, m.batch), cfg, others, b);
  }

  lemma StartNextSpares(m: Module, cfg: Config, others: nat, b: Builder, depth: nat, out: Outcome)
    requires Returns(m, cfg, others, b, depth, out)
    ensures Spares(m, out.m, b)
  {
    var last, left, landed := Landing(m, cfg, others, b, depth, out);
    if Decide(last, b) == NextBatch {
      EnterFirstSpares(last, cfg, others, b, left, landed);
    } else {
      StaySpares(last, cfg, others, b, left, landed);
    }
  }

  lemma PassesChecksOn(m: Module, b: Builder)
    requires PassesChecks(m, b)
    ensures PassesChecks(m.(batch := m.batch + 1), b)
  {
    forall k: nat | m.batch + 1 <= k ensures b.ready(Artifacts(m.components, k)) {}
  }

  ghost predicate LeastUnbuilt(cs: seq<Component>, k: nat) {
    UnbuiltAt(cs, k) && forall j: nat :: j < k ==> !UnbuiltAt(cs, j)
  }

  /** The calls begin with one passed buildroot check for each of the batches lo..hi-1, in order. */
  ghost predicate ChecksEveryBatch(calls: seq<Call>, cs: seq<Component>, lo: nat, hi: nat) {
    && lo + |calls| >= hi
    && forall j: nat :: lo <= j < hi ==> calls[j - lo] == Advance(Artifacts(cs, j))
  }

  lemma CheckOneMore(calls: seq<Call>, cs: seq<Component>, lo: nat, hi: nat)
    requires ChecksEveryBatch(calls, cs, lo + 1, hi)
    ensures ChecksEveryBatch([Advance(Artifacts(cs, lo))] + calls, cs, lo, hi)
  {
    var all := [Advance(Artifacts(cs, lo))] + calls;
    forall j: nat | lo <= j < hi ensures all[j - lo] == Advance(Artifacts(cs, j)) {
      if j > lo { assert all[j - lo] == calls[j - (lo + 1)]; }
    }
  }

  /** What start_next_batch_build returned: batch `k`, after a check of every batch it left. */
  ghost predicate StoppedAt(m: Module, out: Outcome, k: nat) {
    && out.m.batch == k && m.batch <= k <= LastBatch(m.components)
    && ChecksEveryBatch(out.calls, m.components, m.batch, k)
  }

  lemma EnteredStops(m: Module, out: Outcome, k: nat)
    requires LeastUnbuilt(m.components, k) && UnbuiltAt(m.components, m.batch + 1)
    requires m.batch < k <= LastBatch(m.components) && out.m.batch == m.batch + 1
    requires |out.calls| >= 1 && out.calls[0] == Advance(Artifacts(m.components, m.batch))
    ensures StoppedAt(m, out, k)
  {}

  lemma SkipSucceeds(
    m: Module, next: Module, cfg: Config, others: nat, b: Builder, depth: nat, left: nat, deeper: Outcome)
    returns (out: Outcome)
    requires Skips(m, b) && Below(m, next, depth, left)
    requires Returns(next, cfg, others, b, left, deeper)
    ensures Returns(m, cfg, others, b, depth, out)
    ensures out == Outcome(deeper.m, [Advance(Artifacts(m.components, m.batch))] + deeper.calls)
  {
    SkipStep(m, next, cfg, others, b, depth, left);
    out := Outcome(deeper.m, [Advance(Artifacts(m.components, m.batch))] + deeper.calls);
  }

  lemma StoppedAfterSkip(m: Module, next: Module, k: nat, deeper: Outcome, out: Outcome)
    requires next == m.(batch := m.batch + 1) && StoppedAt(next, deeper, k)
    requires out == Outcome(deeper.m, [Advance(Artifacts(m.components, m.batch))] + deeper.calls)
    ensures StoppedAt(m, out, k)
  {
    CheckOneMore(deeper.calls, m.components, m.batch, k);
  }

  /** The call for the batch after a skipped one. */
  lemma {:induction false} StopsBeyond(
    m: Module, next: Module, cfg: Config, others: nat, b: Builder, depth: nat, k: nat)
    returns (deeper: Outcome)
    requires Skips(m, b) && UnbuiltOnlyAbove(m) && PassesChecks(m, b) && next == m.(batch := m.batch + 1)
    requires LeastUnbuilt(m.components, k) && m.batch < k && m.batch + 1 + depth >= k
    ensures Returns(next, cfg, others, b, depth, deeper)
    ensures StoppedAt(next, deeper, k)
    decreases depth, 2
  {
    LeastIsAbove(m, k);
    PassesChecksOn(m, b);
    if k > m.batch + 1 {
      StillAbove(m, k);
      deeper := StopsAt(next, cfg, others, b, depth, k);
    } else {
      StopsInRunningBatch(next, cfg, others, b, depth);
      deeper := Outcome(next, []);
    }
  }

  lemma {:induction false} StopsBySkipping(m: Module, cfg: Config, others: nat, b: Builder, depth: nat, k: nat)
    returns (out: Outcome)
    requires Skips(m, b) && UnbuiltOnlyAbove(m) && PassesChecks(m, b)
    requires LeastUnbuilt(m.components, k) && m.batch < k && m.batch + depth >= k
    ensures Returns(m, cfg, others, b, depth, out) && StoppedAt(m, out, k)
    decreases depth, 0
  {
    var next, left := m.(batch := m.batch + 1), depth - 1;
    var deeper := StopsBeyond(m, next, cfg, others, b, left, k);
    out := SkipSucceeds(m, next, cfg, others, b, depth, left, deeper);
    StoppedAfterSkip(m, next, k, deeper, out);
  }

  lemma {:induction false} StopsAt(m: Module, cfg: Config, others: nat, b: Builder, depth: nat, k: nat)
    returns (out: Outcome)
    requires m.batch > 0 && UnbuiltOnlyAbove(m) && PassesChecks(m, b)
    requires LeastUnbuilt(m.components, k) && m.batch + depth >= k
    ensures Returns(m, cfg, others, b, depth, out) && StoppedAt(m, out, k)
    decreases depth, 1
  {
    LeastIsAbove(m, k);
    AboveAdvances(m, b);
    if Candidates(m.components, m.batch + 1) != [] {
      CandidateIsUnbuilt(m, m.batch + 1);
      out := EntersNextBatch(m, cfg, others, b, depth);
      EnteredStops(m, out, k);
    } else {
      out := StopsBySkipping(m, cfg, others, b, depth, k);
    }
  }

  /** The least batch that holds an unbuilt component lies above a batch with nothing to build. */
  lemma LeastIsAbove(m: Module, k: nat)
    requires UnbuiltOnlyAbove(m) && LeastUnbuilt(m.components, k)
    ensures m.AnyUnbuilt() && m.batch < k <= LastBatch(m.components)
  {}

  /**
   When nothing is left to build up to the current batch and every check passes, the new current
   batch is the least one that holds an unbuilt component, whatever gaps lie between; and the
   buildroot was checked, in order, for every batch that was left behind.
   */
  lemma StopsAtLeastUnbuiltBatch(m: Module, cfg: Config, others: nat, b: Builder, depth: nat, k: nat)
    requires m.batch > 0 && UnbuiltOnlyAbove(m) && PassesChecks(m, b)
    requires LeastUnbuilt(m.components, k) && m.batch + depth >= k
    ensures var r := StartNext(m, cfg, others, b, depth);
      && r.Success? && r.value.m.batch == k && m.batch < k <= LastBatch(m.components)
      && ChecksEveryBatch(r.value.calls, m.components, m.batch, k)
  {
    LeastIsAbove(m, k);
    var out := StopsAt(m, cfg, others, b, depth, k);
  }

  lemma StillAbove(m: Module, k: nat)
    requires LeastUnbuilt(m.components, k) && k > m.batch + 1
    ensures UnbuiltOnlyAbove(m.(batch := m.batch + 1))
  {
    forall i | 0 <= i < |m.components| && m.components[i].IsUnbuilt() ensures m.components[i].batch > m.batch + 1 {
      assert UnbuiltAt(m.components, m.components[i].batch);
    }
  }

  /** A batch that holds a running component and nothing to submit is where the recursion rests. */
  lemma StopsInRunningBatch(
    m: Module, cfg: Config, others: nat, b: Builder, depth: nat)
    requires m.batch > 0 && UnbuiltAt(m.components, m.batch)
    requires Candidates(m.components, m.batch) == []
    ensures StartNext(m, cfg, others, b, depth) == Success(Outcome(m, []))
  {
    assert m.AnyUnbuilt();
    assert forall i :: 0 <= i < |m.components| && m.InBatch(i) ==> !m.components[i].IsCandidate() by {
      forall i | 0 <= i < |m.components| && m.InBatch(i) ensures !m.components[i].IsCandidate() {
        assert i !in Candidates(m.components, m.batch);
      }
    }
    assert !m.AnyWaitingInBatch();
    assert m.AnyBuildingInBatch();
  }

  /** A built module whose module-build-macros was left unbuilt below the current batch. */
  function ForgottenMacros(): Module {
    var md := ModuleMd([Rpm("foo", 0, "git://foo", Some("ref"), 1.0, false)]);
    var macros := Component(0, MACROS, "srpm", None, 1, 0.0, false, true, NotSubmitted, Some(7), None, false, false, None);
    var foo := Component(1, "foo", "git://foo", Some("ref"), 2, 1.0, false, false,
                         Complete, Some(8), Some("foo-1-1"), true, true, Some(3));
    Module(md, ChangedAndAfter, false, Lifecycle.Build, [Init, Wait, Lifecycle.Build, Lifecycle.Failed, Wait, Lifecycle.Build], 2,
           [macros, foo], None, true, Some(0))
  }

  /**
   Such an input exists: module-build-macros failed once, and on resubmission everything else was
   reused, which puts the current batch past the macros that were reset to unbuilt.
   */
  lemma ForgottenMacrosRunAway(cfg: Config, others: nat, b: Builder, depth: nat)
    requires !b.activeTasks && forall a :: b.ready(a)
    ensures StartNext(ForgottenMacros(), cfg, others, b, depth) == Failure(RecursionLimit)
  {
    var m := ForgottenMacros();
    assert m.components[0].IsUnbuilt();
    assert m.AnyUnbuilt();
    RunawayNeverReturns(m, cfg, others, b, depth);
  }
}
