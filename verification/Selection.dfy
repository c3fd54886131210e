/** What one run of continue_batch_build selects: the threshold, work conservation, heaviest first. */
module SelectionTheorems {
  import opened Wrappers
  import opened Records
  import opened Batches

  predicate NoDuplicates(order: seq<nat>) {
    forall j, k :: 0 <= j < k < |order| ==> order[j] != order[k]
  }

  predicate HeaviestFirst(cs: seq<Component>, order: seq<nat>)
    requires Indices(order, |cs|)
  {
    forall j, k :: 0 <= j < k < |order| ==> cs[order[j]].weight >= cs[order[k]].weight
  }

  // ---- counting ----

  function Weighs(c: Component, withMacros: bool): nat {
    if c.IsBuilding() && c.reused == None && (withMacros || !c.IsMacros()) then 1 else 0
  }

  lemma {:induction false} CountUpdate(cs: seq<Component>, i: nat, c: Component, withMacros: bool)
    requires i < |cs|
    ensures CountBuilding(cs[i := c], withMacros) + Weighs(cs[i], withMacros)
         == CountBuilding(cs, withMacros) + Weighs(c, withMacros)
  {
    var u := cs[i := c];
    if i == 0 {
      assert u[1..] == cs[1..];
    } else {
      assert u[1..] == cs[1..][i - 1 := c];
      CountUpdate(cs[1..], i - 1, c, withMacros);
    }
  }

  /** Where no component starts to count, the count does not grow. */
  lemma {:induction false} CountPointwise(cs: seq<Component>, ds: seq<Component>, withMacros: bool)
    requires |cs| == |ds|
    requires forall i :: 0 <= i < |cs| ==> Weighs(ds[i], withMacros) <= Weighs(cs[i], withMacros)
    ensures CountBuilding(ds, withMacros) <= CountBuilding(cs, withMacros)
  {
    if cs != [] {
      forall i | 0 <= i < |cs[1..]| ensures Weighs(ds[1..][i], withMacros) <= Weighs(cs[1..][i], withMacros) {
        assert ds[1..][i] == ds[i + 1] && cs[1..][i] == cs[i + 1];
      }
      CountPointwise(cs[1..], ds[1..], withMacros);
    }
  }

  lemma {:induction false} CountWithoutMacros(cs: seq<Component>)
    ensures CountBuilding(cs, false) <= CountBuilding(cs, true)
  {
    if cs != [] { CountWithoutMacros(cs[1..]); }
  }

  // ---- sorting ----

  lemma {:induction false} InsertPermutes(cs: seq<Component>, i: nat, order: seq<nat>)
    requires i < |cs| && Indices(order, |cs|)
    ensures multiset(InsertByWeight(cs, i, order)) == multiset(order) + multiset{i}
  {
    if order != [] && !(cs[order[0]].weight <= cs[i].weight) {
      assert order == [order[0]] + order[1..];
      InsertPermutes(cs, i, order[1..]);
    }
  }

  lemma {:induction false} SortPermutes(cs: seq<Component>, order: seq<nat>)
    requires Indices(order, |cs|)
    ensures multiset(SortByWeight(cs, order)) == multiset(order)
    ensures forall i :: i in SortByWeight(cs, order) <==> i in order
  {
    if order != [] {
      assert order == [order[0]] + order[1..];
      SortPermutes(cs, order[1..]);
      InsertPermutes(cs, order[0], SortByWeight(cs, order[1..]));
    }
    forall i ensures i in SortByWeight(cs, order) <==> i in order {
      assert i in SortByWeight(cs, order) <==> i in multiset(SortByWeight(cs, order));
    }
  }

  lemma {:induction false} InsertSorted(cs: seq<Component>, i: nat, order: seq<nat>)
    requires i < |cs| && Indices(order, |cs|) && HeaviestFirst(cs, order)
    ensures HeaviestFirst(cs, InsertByWeight(cs, i, order))
  {
    if order != [] && !(cs[order[0]].weight <= cs[i].weight) {
      var rest := InsertByWeight(cs, i, order[1..]);
      InsertSorted(cs, i, order[1..]);
      InsertPermutes(cs, i, order[1..]);
      forall k | 0 <= k < |rest| ensures cs[order[0]].weight >= cs[rest[k]].weight {
        assert rest[k] in multiset(rest);
        if rest[k] != i {
          assert rest[k] in order[1..];
          var n :| 0 <= n < |order[1..]| && order[1..][n] == rest[k];
          assert order[n + 1] == rest[k];
        }
      }
    }
  }

  lemma {:induction false} SortSorted(cs: seq<Component>, order: seq<nat>)
    requires Indices(order, |cs|)
    ensures HeaviestFirst(cs, SortByWeight(cs, order))
  {
    if order != [] {
      SortSorted(cs, order[1..]);
      InsertSorted(cs, order[0], SortByWeight(cs, order[1..]));
    }
  }

  lemma NoDuplicatesMultiset(order: seq<nat>, other: seq<nat>)
    requires multiset(order) == multiset(other) && NoDuplicates(order)
    ensures NoDuplicates(other)
  {
    forall j, k | 0 <= j < k < |other| ensures other[j] != other[k] {
      if other[j] == other[k] {
        MultisetTwice(other, j, k);
        assert multiset(order)[other[j]] >= 2;
        MultisetOnce(order, other[j]);
      }
    }
  }

  lemma MultisetTwice(s: seq<nat>, j: nat, k: nat)
    requires j < k < |s| && s[j] == s[k]
    ensures multiset(s)[s[j]] >= 2
  {
    assert s == s[..k] + [s[k]] + s[k + 1..];
    assert s[..k][j] == s[j];
    assert s[j] in multiset(s[..k]);
  }

  lemma {:induction false} MultisetOnce(s: seq<nat>, x: nat)
    requires NoDuplicates(s)
    ensures multiset(s)[x] <= 1
  {
    if s != [] {
      assert s == [s[0]] + s[1..];
      MultisetOnce(s[1..], x);
      if s[0] == x { assert x !in s[1..]; }
    }
  }

  lemma {:induction false} CandidatesIncrease(cs: seq<Component>, b: nat, k: nat)
    requires k <= |cs|
    ensures NoDuplicates(Candidates(cs, b, k))
    decreases |cs| - k
  {
    if k < |cs| {
      CandidatesIncrease(cs, b, k + 1);
      ConsNoDuplicates(k, Candidates(cs, b, k + 1));
    }
  }

  lemma ConsNoDuplicates(x: nat, rest: seq<nat>)
    requires NoDuplicates(rest) && x !in rest
    ensures NoDuplicates([x] + rest)
  {
    assert forall n :: 0 <= n < |rest| ==> rest[n] in rest;
  }

  lemma {:induction false} NotReusedDistinct(names: seq<nat>, b: Builder)
    requires NoDuplicates(names)
    ensures NoDuplicates(NotReused(names, b))
  {
    if names != [] {
      NotReusedDistinct(names[1..], b);
      var rest := NotReused(names[1..], b);
      forall n | 0 <= n < |rest| ensures rest[n] != names[0] {
        assert rest[n] in rest;
        var k :| 0 <= k < |names[1..]| && names[1..][k] == rest[n];
        assert names[k + 1] == rest[n];
      }
    }
  }

  // ---- the selection loop ----

  /** Exactly the chosen components were set to building, and none of them was complete. */
  lemma {:induction false} SelectMarksChosen(cs: seq<Component>, order: seq<nat>, cfg: Config, others: nat)
    requires Indices(order, |cs|) && NoDuplicates(order)
    ensures var r := Select(cs, order, cfg, others);
      && NoDuplicates(r.chosen)
      && (forall i :: i in r.chosen ==> i in order)
      && (forall i :: 0 <= i < |cs| ==>
           r.components[i] == if i in r.chosen then cs[i].(state := Building) else cs[i])
      && (forall i :: i in r.chosen ==> i < |cs| && !cs[i].IsCompleted())
    decreases |order|
  {
    if order == [] {
    } else if cs[order[0]].IsCompleted() {
      SelectMarksChosen(cs, order[1..], cfg, others);
    } else if !AtThreshold(cfg, others, cs) {
      var i := order[0];
      var next := cs[i := cs[i].(state := Building)];
      SelectMarksChosen(next, order[1..], cfg, others);
      var rest := Select(next, order[1..], cfg, others);
      assert i !in order[1..];
      assert Select(cs, order, cfg, others) == Selection(rest.components, [i] + rest.chosen);
    }
  }

  /** Work conservation: a candidate is only left over when the threshold is met at the end. */
  lemma {:induction false} SelectWorkConserving(cs: seq<Component>, order: seq<nat>, cfg: Config, others: nat, n: nat)
    requires Indices(order, |cs|) && NoDuplicates(order) && n < |order|
    ensures var r := Select(cs, order, cfg, others);
      cs[order[n]].IsCompleted() || order[n] in r.chosen || AtThreshold(cfg, others, r.components)
    decreases |order|
  {
    if n == 0 || cs[order[0]].IsCompleted() || AtThreshold(cfg, others, cs) {
      if n > 0 && cs[order[0]].IsCompleted() {
        SelectWorkConserving(cs, order[1..], cfg, others, n - 1);
      }
    } else {
      var i := order[0];
      SelectWorkConserving(cs[i := cs[i].(state := Building)], order[1..], cfg, others, n - 1);
    }
  }

  lemma SelectRest(cs: seq<Component>, order: seq<nat>, cfg: Config, others: nat, i: nat, j: nat)
    returns (next: seq<Component>)
    requires Indices(order, |cs|) && order != [] && !cs[order[0]].IsCompleted()
    requires i in Select(cs, order, cfg, others).chosen && j !in Select(cs, order, cfg, others).chosen
    ensures next == cs[order[0] := cs[order[0]].(state := Building)] && j != order[0]
    ensures i == order[0] || i in Select(next, order[1..], cfg, others).chosen
    ensures j !in Select(next, order[1..], cfg, others).chosen
  {
    next := cs[order[0] := cs[order[0]].(state := Building)];
    var rest := Select(next, order[1..], cfg, others);
    assert Select(cs, order, cfg, others).chosen == [order[0]] + rest.chosen;
  }

  lemma HeaviestFirstTail(cs: seq<Component>, ds: seq<Component>, order: seq<nat>, j: nat)
    requires |ds| == |cs| && forall i :: 0 <= i < |cs| ==> ds[i].weight == cs[i].weight
    requires Indices(order, |cs|) && order != [] && NoDuplicates(order) && HeaviestFirst(cs, order) && j in order
    ensures NoDuplicates(order[1..]) && HeaviestFirst(ds, order[1..])
    ensures j == order[0] || j in order[1..]
    ensures cs[order[0]].weight >= cs[j].weight
  {
    var n :| 0 <= n < |order| && order[n] == j;
    if n > 0 { assert order[1..][n - 1] == j; }
  }

  /** Heaviest first: what is started weighs at least as much as anything left waiting. */
  lemma {:induction false} SelectHeaviestFirst(
    cs: seq<Component>, order: seq<nat>, cfg: Config, others: nat, i: nat, j: nat)
    requires Indices(order, |cs|) && NoDuplicates(order) && HeaviestFirst(cs, order)
    requires i in Select(cs, order, cfg, others).chosen
    requires j in order && !cs[j].IsCompleted() && j !in Select(cs, order, cfg, others).chosen
    ensures cs[i].weight >= cs[j].weight
    decreases |order|
  {
    if cs[order[0]].IsCompleted() {
      HeaviestFirstTail(cs, cs, order, j);
      SelectHeaviestFirst(cs, order[1..], cfg, others, i, j);
    } else {
      var next := SelectRest(cs, order, cfg, others, i, j);
      HeaviestFirstTail(cs, next, order, j);
      if i != order[0] { SelectHeaviestFirst(next, order[1..], cfg, others, i, j); }
    }
  }

  /** The limit: the loop selects nothing, or leaves at most `limit` running builds that count. */
  lemma {:induction false} SelectWithinLimit(cs: seq<Component>, order: seq<nat>, cfg: Config, others: nat)
    requires Indices(order, |cs|) && cfg.limit != 0
    ensures var r := Select(cs, order, cfg, others);
      r == Selection(cs, []) || others + CountBuilding(r.components, true) <= cfg.limit
    decreases |order|
  {
    if order == [] {
    } else if cs[order[0]].IsCompleted() {
      SelectWithinLimit(cs, order[1..], cfg, others);
    } else if !AtThreshold(cfg, others, cs) {
      var i := order[0];
      CountUpdate(cs, i, cs[i].(state := Building), true);
      SelectWithinLimit(cs[i := cs[i].(state := Building)], order[1..], cfg, others);
    }
  }

  // ---- submission ----

  lemma SubmitOneTouches(m: Module, k: nat, b: Builder)
    requires k < |m.components| && KojiAnswer(b.submit(k))
    ensures var r := SubmitOne(m, k, b);
      && |r.components| == |m.components|
      && r == m.(components := r.components, state := r.state, trace := r.trace)
      && (forall i :: 0 <= i < |m.components| ==> Submitted(m.components[i], r.components[i], i == k))
      && FailsOnly(m, r)
  {
    var r := SubmitOne(m, k, b);
    var c, a := m.components[k], b.submit(k);
    var d :=
      if a == Raised then c.(state := FailedBuild)
      else if a.task == None && a.state == Building then c.(task := None, state := FailedBuild, nvr := a.nvr)
      else c.(task := a.task, state := a.state, nvr := a.nvr);
    assert r.components == m.components[k := d];
    assert Submitted(c, d, true);
  }

  /** Submission touches the chosen components only, and leaves them running or failed. */
  lemma {:induction false} SubmitAllTouchesChosen(m: Module, chosen: seq<nat>, b: Builder)
    requires Indices(chosen, |m.components|)
    requires forall i :: KojiAnswer(b.submit(i))
    ensures var r := SubmitAll(m, chosen, b);
      && r == m.(components := r.components, state := r.state, trace := r.trace)
      && (forall i :: 0 <= i < |m.components| ==> Submitted(m.components[i], r.components[i], i in chosen))
      && FailsOnly(m, r)
    decreases |chosen|
  {
    if chosen != [] {
      var next := SubmitOne(m, chosen[0], b);
      SubmitOneTouches(m, chosen[0], b);
      SubmitAllTouchesChosen(next, chosen[1..], b);
      var r := SubmitAll(next, chosen[1..], b);
      FailsOnlyTwice(m, next, r);
      forall i | 0 <= i < |m.components| ensures Submitted(m.components[i], r.components[i], i in chosen) {
        SubmittedTwice(m.components[i], next.components[i], r.components[i], i == chosen[0], i in chosen[1..]);
      }
    }
  }

  lemma FailsOnlyTwice(m: Module, m': Module, m'': Module)
    requires FailsOnly(m, m') && FailsOnly(m', m'')
    ensures FailsOnly(m, m'')
  {
    assert m''.trace[..|m.trace|] == m''.trace[..|m'.trace|][..|m.trace|];
    forall j | |m.trace| <= j < |m''.trace| ensures m''.trace[j] == Lifecycle.Failed {
      if j < |m'.trace| { assert m''.trace[j] == m''.trace[..|m'.trace|][j]; }
    }
  }

  lemma SubmittedTwice(c: Component, d: Component, e: Component, first: bool, later: bool)
    requires Submitted(c, d, first) && Submitted(d, e, later)
    ensures Submitted(c, e, first || later)
  {}

  predicate Submitted(c: Component, d: Component, chosen: bool) {
    && d == c.(state := d.state, task := d.task, nvr := d.nvr)
    && (!chosen ==> d == c)
    && (chosen ==> d.state == Building || d.state == FailedBuild)
  }

  /** The selection made by Continue. */
  function Selected(m: Module, seeds: seq<nat>, cfg: Config, others: nat, b: Builder): (r: Selection)
    requires Indices(seeds, |m.components|)
  {
    var order := SortByWeight(m.components, seeds);
    Select(Recover(m.components, order, b), order, cfg, others)
  }

  lemma {:induction false} SubmitCallsOf(chosen: seq<nat>, i: nat)
    ensures Call.Submit(i) in SubmitCalls(chosen) <==> i in chosen
    ensures forall c :: c in SubmitCalls(chosen) ==> c.Submit?
  {
    if chosen != [] {
      SubmitCallsOf(chosen[1..], i);
      assert SubmitCalls(chosen) == [Call.Submit(chosen[0])] + SubmitCalls(chosen[1..]);
    }
  }

  /** What the loop leaves waiting finds the threshold met, and nothing lighter than it was started. */
  lemma SelectLeaves(cs: seq<Component>, order: seq<nat>, cfg: Config, others: nat, j: nat)
    requires Indices(order, |cs|) && NoDuplicates(order) && HeaviestFirst(cs, order)
    requires j in order && !cs[j].IsCompleted() && j !in Select(cs, order, cfg, others).chosen
    ensures var r := Select(cs, order, cfg, others);
      && AtThreshold(cfg, others, r.components)
      && (forall i :: i in r.chosen ==> i < |cs| && cs[i].weight >= cs[j].weight)
  {
    var n :| 0 <= n < |order| && order[n] == j;
    SelectWorkConserving(cs, order, cfg, others, n);
    var r := Select(cs, order, cfg, others);
    forall i | i in r.chosen ensures i < |cs| && cs[i].weight >= cs[j].weight {
      SelectHeaviestFirst(cs, order, cfg, others, i, j);
    }
  }

  lemma RecoveredInOrder(cs: seq<Component>, seeds: seq<nat>, order: seq<nat>, ds: seq<Component>, b: Builder)
    requires Indices(seeds, |cs|) && NoDuplicates(seeds)
    requires order == SortByWeight(cs, seeds) && ds == Recover(cs, order, b)
    ensures Indices(order, |ds|) && NoDuplicates(order) && HeaviestFirst(ds, order)
    ensures forall i :: i in order <==> i in seeds
  {
    SortSorted(cs, seeds);
    SortPermutes(cs, seeds);
    NoDuplicatesMultiset(seeds, order);
    assert forall i :: 0 <= i < |cs| ==> ds[i].weight == cs[i].weight;
  }

  /**
   Work conservation and order of one whole continue_batch_build: a seed ends recovered, is submitted,
   or the threshold is met by what counts when selection ends; and what is submitted is at least as
   heavy as what is left waiting.
   */
  lemma ContinueIsWorkConservingAndHeaviestFirst(
    m: Module, seeds: seq<nat>, cfg: Config, others: nat, b: Builder, j: nat)
    requires Indices(seeds, |m.components|) && NoDuplicates(seeds) && j in seeds
    requires !m.components[j].IsCompleted()
    ensures var out := Continue(m, seeds, cfg, others, b);
      var left := Call.Submit(j) !in out.calls;
      && (left ==>
           || (m.components[j].IsWaitingForBuild() && b.orphan(j).Some?)
           || AtThreshold(cfg, others, Selected(m, seeds, cfg, others, b).components))
      && (left && !(m.components[j].IsWaitingForBuild() && b.orphan(j).Some?) ==>
           forall i: nat :: Call.Submit(i) in out.calls && i < |m.components| ==>
             m.components[i].weight >= m.components[j].weight)
  {
    var order := SortByWeight(m.components, seeds);
    var cs := Recover(m.components, order, b);
    RecoveredInOrder(m.components, seeds, order, cs, b);
    var r := Select(cs, order, cfg, others);
    SubmitCallsOf(r.chosen, j);
    if !cs[j].IsCompleted() && j !in r.chosen {
      SelectLeaves(cs, order, cfg, others, j);
      forall i: nat | Call.Submit(i) in SubmitCalls(r.chosen) && i < |cs| ensures m.components[i].weight >= m.components[j].weight {
        SubmitCallsOf(r.chosen, i);
      }
    }
  }

  // ---- the order among components of one weight, and what is counted ----

  /** The candidates of one weight, in their order. */
  function OfWeight(cs: seq<Component>, order: seq<nat>, weight: real): seq<nat>
    requires Indices(order, |cs|)
  {
    if order == [] then []
    else (if cs[order[0]].weight == weight then [order[0]] else []) + OfWeight(cs, order[1..], weight)
  }

  lemma {:induction false} InsertKeepsWeight(cs: seq<Component>, i: nat, order: seq<nat>, weight: real)
    requires i < |cs| && Indices(order, |cs|) && HeaviestFirst(cs, order)
    ensures OfWeight(cs, InsertByWeight(cs, i, order), weight)
         == (if cs[i].weight == weight then [i] else []) + OfWeight(cs, order, weight)
  {
    if order == [] || cs[order[0]].weight <= cs[i].weight {
      assert ([i] + order)[1..] == order;
    } else {
      var rest := InsertByWeight(cs, i, order[1..]);
      assert ([order[0]] + rest)[1..] == rest;
      TailIsHeaviestFirst(cs, order);
      InsertKeepsWeight(cs, i, order[1..], weight);
      assert OfWeight(cs, InsertByWeight(cs, i, order), weight)
          == (if cs[order[0]].weight == weight then [order[0]] else []) + OfWeight(cs, rest, weight);
    }
  }

  lemma TailIsHeaviestFirst(cs: seq<Component>, order: seq<nat>)
    requires order != [] && Indices(order, |cs|) && HeaviestFirst(cs, order)
    ensures HeaviestFirst(cs, order[1..])
  {
    var tail := order[1..];
    assert forall i :: 0 <= i < |tail| ==> tail[i] == order[i + 1];
  }

  /** Candidates of one weight keep their order. */
  lemma {:induction false} SortIsStable(cs: seq<Component>, order: seq<nat>, weight: real)
    requires Indices(order, |cs|)
    ensures OfWeight(cs, SortByWeight(cs, order), weight) == OfWeight(cs, order, weight)
  {
    if order != [] {
      SortIsStable(cs, order[1..], weight);
      SortSorted(cs, order[1..]);
      InsertKeepsWeight(cs, order[0], SortByWeight(cs, order[1..]), weight);
    }
  }

  /** The indices of the components that count: running, and not reused. */
  function Counted(cs: seq<Component>): set<nat> {
    set i | 0 <= i < |cs| && cs[i].state == Building && cs[i].reused == None
  }

  /** The threshold counts exactly the running components that were not reused, and no limit is never met. */
  lemma {:induction false} ThresholdCounts(cs: seq<Component>, cfg: Config, others: nat)
    ensures CountBuilding(cs, true) == |Counted(cs)|
    ensures AtThreshold(cfg, others, cs) <==> cfg.limit != 0 && others + |Counted(cs)| >= cfg.limit
    decreases |cs|
  {
    if cs == [] {
      assert Counted(cs) == {};
    } else {
      var n := |cs| - 1;
      CountLast(cs);
      ThresholdCounts(cs[..n], cfg, others);
      if cs[n].state == Building && cs[n].reused == None {
        assert Counted(cs) == Counted(cs[..n]) + {n} && n !in Counted(cs[..n]);
      } else {
        assert Counted(cs) == Counted(cs[..n]);
      }
    }
  }

  lemma {:induction false} CountLast(cs: seq<Component>)
    requires cs != []
    ensures CountBuilding(cs, true) == CountBuilding(cs[..|cs| - 1], true) + Weighs(cs[|cs| - 1], true)
  {
    if |cs| > 1 {
      CountLast(cs[1..]);
      assert cs[1..][..|cs| - 2] == cs[..|cs| - 1][1..];
      assert cs[1..][|cs| - 2] == cs[|cs| - 1];
    } else {
      assert cs[..0] == [] && cs[1..] == [];
    }
  }
}
