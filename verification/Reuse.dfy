/**
 Which component builds may be reused (get_reusable_component in
 module_build_service/scheduler/reuse.py), and what reusing a whole module build does.
 */
module Reuse {
  import opened Wrappers
  import opened Records
  import opened Batches
  import opened Handlers
  import Planning
  import Numbering

  /**
   One of the two module builds that are compared: its rows, the RPM macros of its build options, and
   the architectures its modulemd lists for an RPM.
   */
  datatype Side = Side(components: seq<Component>, macros: Option<string>, arches: map<string, seq<string>>)

  /** (name, ref, arches) of a component; a sorted tuple of architectures is their multiset. */
  datatype Key = Key(package: string, ref: Option<string>, arches: multiset<string>)

  /** A ref that is missing or empty is no ref. */
  predicate HasRef(c: Component) {
    c.ref.Some? && c.ref.value != ""
  }

  /** A row that was found, has a batch and a ref. */
  predicate Comparable(cs: seq<Component>, found: Option<nat>) {
    found.Some? && found.value < |cs| && cs[found.value].batch != 0 && HasRef(cs[found.value])
  }

  predicate AllListed(side: Side, batch: nat) {
    forall i :: 0 <= i < |side.components| && side.components[i].batch == batch ==>
      side.components[i].package in side.arches
  }

  function KeyOf(side: Side, i: nat): Key
    requires i < |side.components| && side.components[i].package in side.arches
  {
    var c := side.components[i];
    Key(c.package, c.ref, multiset(side.arches[c.package]))
  }

  /** The components of one batch; a component the modulemd does not list raises an exception. */
  function BatchKeys(side: Side, batch: nat): Result<set<Key>, PyError> {
    if !AllListed(side, batch) then Failure(NoSuchRpmComponent)
    else Success(set i | 0 <= i < |side.components| && side.components[i].batch == batch :: KeyOf(side, i))
  }

  /** The sets of the batches 2 to `batch` - 1, in order, of both module builds. */
  datatype Earlier = Earlier(cur: seq<set<Key>>, prev: seq<set<Key>>)

  function EarlierBatches(cur: Side, prev: Side, batch: nat): Result<Earlier, PyError> {
    if batch <= 2 then Success(Earlier([], []))
    else
      match EarlierBatches(cur, prev, batch - 1)
      case Failure(e) => Failure(e)
      case Success(before) =>
        var n, o := BatchKeys(cur, batch - 1), BatchKeys(prev, batch - 1);
        if n.Failure? then Failure(n.error)
        else if o.Failure? then Failure(o.error)
        else Success(Earlier(before.cur + [n.value], before.prev + [o.value]))
  }

  predicate One(cs: seq<Component>, package: string) {
    exists i :: 0 <= i < |cs| && cs[i].package == package
      && forall j :: 0 <= j < |cs| && cs[j].package == package ==> j == i
  }

  /** What changed-and-after compares beside the ref: batch, macros, and the batches before. */
  function ComparedBefore(cur: Side, prev: Side, c: Component, p: Component): Result<bool, PyError> {
    if p.batch != c.batch || cur.macros != prev.macros then Success(false)
    else
      match EarlierBatches(cur, prev, c.batch)
      case Failure(e) => Failure(e)
      case Success(earlier) => Success(earlier.cur == earlier.prev)
  }

  function SameArches(cur: Side, prev: Side, package: string): Result<bool, PyError> {
    if package !in cur.arches || package !in prev.arches then Failure(NoSuchRpmComponent)
    else Success((set a | a in cur.arches[package]) == (set a | a in prev.arches[package]))
  }

  /** The checks on two rows of one name. */
  function Examine(cur: Side, prev: Side, strategy: Strategy, package: string, c: Component, p: Component)
    : Result<Option<Component>, PyError>
  {
    if p.ref != c.ref then Success(None)
    else
      match if strategy == ChangedAndAfter then ComparedBefore(cur, prev, c, p) else Success(true)
      case Failure(e) => Failure(e)
      case Success(equal) =>
        if !equal then Success(None)
        else
          match SameArches(cur, prev, package)
          case Failure(e) => Failure(e)
          case Success(same) =>
            if !same then Success(None)
            else if !One(prev.components, package) then Failure(NotExactlyOneRow)
            else Success(Some(p))
  }

  /** get_reusable_component on Koji, with a module build to reuse from. */
  function ReusableComponent(cur: Side, prev: Side, strategy: Strategy, package: string)
    : Result<Option<Component>, PyError>
  {
    var i, j := Planning.Find(cur.components, package), Planning.Find(prev.components, package);
    if strategy == All || !Comparable(cur.components, i) || !Comparable(prev.components, j) then Success(None)
    else Examine(cur, prev, strategy, package, cur.components[i.value], prev.components[j.value])
  }

  /** What get_rpm_component finds: RPMs of the modulemd itself, not those of included ones. */
  function ArchesOf(es: seq<Entry>): map<string, seq<string>> {
    if es == [] then map[]
    else
      match es[0]
      case Rpm(name, _, _, _, _, _, arches) => ArchesOf(es[1..])[name := arches]
      case Included(_, _) => ArchesOf(es[1..])
  }

  function SideOf(m: Module): Side {
    Side(m.components, m.mmd.macros, ArchesOf(m.mmd.entries))
  }

  /** What is offered for component `i` when `prev` is reused from; module-build-macros is never looked up. */
  function Offer(m: Module, prev: Module, i: nat): Option<Component>
    requires i < |m.components|
  {
    if m.components[i].IsMacros() then None
    else
      match ReusableComponent(SideOf(m), SideOf(prev), m.strategy, m.components[i].package)
      case Success(found) => found
      case Failure(_) => None
  }

  /** get_reusable_component as it runs: the sets of the earlier batches are collected in a loop. */
  method GetReusableComponent(cur: Side, prev: Side, strategy: Strategy, package: string)
    returns (r: Result<Option<Component>, PyError>)
    ensures r == ReusableComponent(cur, prev, strategy, package)
  {
    if strategy == All { return Success(None); }
    var i := Planning.Find(cur.components, package);
    if !Comparable(cur.components, i) { return Success(None); }
    var j := Planning.Find(prev.components, package);
    if !Comparable(prev.components, j) { return Success(None); }
    var c, p := cur.components[i.value], prev.components[j.value];
    if p.ref != c.ref { return Success(None); }
    if strategy == ChangedAndAfter {
      if p.batch != c.batch { return Success(None); }
      if cur.macros != prev.macros { return Success(None); }
      var newSets: seq<set<Key>>, oldSets: seq<set<Key>> := [], [];
      var k := 0;
      while k < c.batch - 1
        invariant 0 <= k <= c.batch - 1
        invariant EarlierBatches(cur, prev, k + 1) == Success(Earlier(newSets, oldSets))
      {
        if k != 0 {
          var n := BatchKeys(cur, k + 1);
          if n.Failure? {
            FailsFrom(cur, prev, k + 2, c.batch);
            return Failure(n.error);
          }
          var o := BatchKeys(prev, k + 1);
          if o.Failure? {
            FailsFrom(cur, prev, k + 2, c.batch);
            return Failure(o.error);
          }
          newSets, oldSets := newSets + [n.value], oldSets + [o.value];
        }
        k := k + 1;
      }
      if oldSets != newSets { return Success(None); }
    }
    var same := SameArches(cur, prev, package);
    if same.Failure? { return Failure(same.error); }
    if !same.value { return Success(None); }
    if !One(prev.components, package) { return Failure(NotExactlyOneRow); }
    r := Success(Some(p));
  }

  lemma {:induction false} FailsFrom(cur: Side, prev: Side, k: nat, batch: nat)
    requires k <= batch && EarlierBatches(cur, prev, k).Failure?
    ensures EarlierBatches(cur, prev, batch) == EarlierBatches(cur, prev, k)
    decreases batch - k
  {
    if k < batch { FailsFrom(cur, prev, k + 1, batch); }
  }

  // ---- changed-and-after ----

  /** Element `k` - 2 of the lists is the set of batch `k`. */
  lemma {:induction false} EarlierHolds(cur: Side, prev: Side, batch: nat, k: nat)
    requires EarlierBatches(cur, prev, batch).Success? && 2 <= k < batch
    ensures var e := EarlierBatches(cur, prev, batch).value;
      && |e.cur| == |e.prev| == batch - 2
      && BatchKeys(cur, k) == Success(e.cur[k - 2]) && BatchKeys(prev, k) == Success(e.prev[k - 2])
      && EarlierBatches(cur, prev, k) == Success(Earlier(e.cur[..k - 2], e.prev[..k - 2]))
    decreases batch
  {
    EarlierLength(cur, prev, batch - 1);
    if k < batch - 1 {
      EarlierHolds(cur, prev, batch - 1, k);
      var e, before := EarlierBatches(cur, prev, batch).value, EarlierBatches(cur, prev, batch - 1).value;
      assert e.cur[..k - 2] == before.cur[..k - 2] && e.prev[..k - 2] == before.prev[..k - 2];
    }
  }

  lemma {:induction false} EarlierLength(cur: Side, prev: Side, batch: nat)
    requires EarlierBatches(cur, prev, batch).Success?
    ensures var e := EarlierBatches(cur, prev, batch).value;
      |e.cur| == |e.prev| == if batch <= 2 then 0 else batch - 2
  {
    if batch > 2 { EarlierLength(cur, prev, batch - 1); }
  }

  predicate SameBatchContents(cur: Side, prev: Side, k: nat) {
    BatchKeys(cur, k).Success? && BatchKeys(cur, k) == BatchKeys(prev, k)
  }

  /** What a reusable component says about the batches before its own. */
  lemma EarlierUnchanged(cur: Side, prev: Side, package: string, k: nat)
    requires ReusableComponent(cur, prev, ChangedAndAfter, package).Success?
    requires ReusableComponent(cur, prev, ChangedAndAfter, package).value.Some?
    requires 2 <= k < cur.components[Planning.Find(cur.components, package).value].batch
    ensures SameBatchContents(cur, prev, k) && cur.macros == prev.macros
    ensures var e := EarlierBatches(cur, prev, k); e.Success? && e.value.cur == e.value.prev
  {
    EarlierHolds(cur, prev, cur.components[Planning.Find(cur.components, package).value].batch, k);
  }

  lemma UniqueIsOne(cs: seq<Component>, i: nat)
    requires Numbering.Unique(cs) && i < |cs|
    ensures One(cs, cs[i].package) && Planning.Find(cs, cs[i].package) == Some(i)
  {
    Numbering.FindUnique(cs, i);
  }

  lemma SameMultisetSameSet(a: seq<string>, b: seq<string>)
    requires multiset(a) == multiset(b)
    ensures (set x | x in a) == (set x | x in b)
  {
    forall x ensures x in a <==> x in b {
      assert x in a <==> x in multiset(a);
      assert x in b <==> x in multiset(b);
    }
  }

  /** A component in a batch of the same contents has its counterpart there. */
  lemma HasCounterpart(cur: Side, prev: Side, i: nat) returns (j: nat)
    requires i < |cur.components| && SameBatchContents(cur, prev, cur.components[i].batch)
    ensures j < |prev.components| && prev.components[j].batch == cur.components[i].batch
    ensures prev.components[j].package == cur.components[i].package && prev.components[j].ref == cur.components[i].ref
    ensures SameArches(cur, prev, cur.components[i].package) == Success(true)
  {
    var b := cur.components[i].batch;
    assert KeyOf(cur, i) in BatchKeys(cur, b).value;
    j :| 0 <= j < |prev.components| && prev.components[j].batch == b && KeyOf(prev, j) == KeyOf(cur, i);
    SameMultisetSameSet(cur.arches[cur.components[i].package], prev.arches[cur.components[i].package]);
  }

  /**
   Changed-and-after is downward closed: with one row per package and every ref set, if any component
   of batch b can be reused then so can every component of the batches 2 to b - 1, and both module
   builds hold exactly the same names, refs and architectures in each of these batches.
   */
  lemma ChangedAndAfterIsDownwardClosed(cur: Side, prev: Side, package: string, i: nat)
    requires Numbering.Unique(cur.components) && Numbering.Unique(prev.components)
    requires forall k :: 0 <= k < |cur.components| && cur.components[k].batch >= 2 ==> HasRef(cur.components[k])
    requires ReusableComponent(cur, prev, ChangedAndAfter, package).Success?
    requires ReusableComponent(cur, prev, ChangedAndAfter, package).value.Some?
    requires i < |cur.components|
    requires 2 <= cur.components[i].batch < cur.components[Planning.Find(cur.components, package).value].batch
    ensures var r := ReusableComponent(cur, prev, ChangedAndAfter, cur.components[i].package);
      r.Success? && r.value.Some? && r.value.value.batch == cur.components[i].batch
    ensures SameBatchContents(cur, prev, cur.components[i].batch)
  {
    EarlierUnchanged(cur, prev, package, cur.components[i].batch);
    var j := HasCounterpart(cur, prev, i);
    UniqueIsOne(cur.components, i);
    UniqueIsOne(prev.components, j);
  }

  /** Hence, once something in a batch cannot be reused, nothing in a later batch can. */
  lemma NothingReusableAfterAChange(cur: Side, prev: Side, i: nat, j: nat)
    requires Numbering.Unique(cur.components) && Numbering.Unique(prev.components)
    requires forall k :: 0 <= k < |cur.components| && cur.components[k].batch >= 2 ==> HasRef(cur.components[k])
    requires i < |cur.components| && j < |cur.components|
    requires 2 <= cur.components[i].batch < cur.components[j].batch
    ensures var r := ReusableComponent(cur, prev, ChangedAndAfter, cur.components[i].package);
      var later := ReusableComponent(cur, prev, ChangedAndAfter, cur.components[j].package);
      !(r.Success? && r.value.Some?) ==> !(later.Success? && later.value.Some?)
  {
    var later := ReusableComponent(cur, prev, ChangedAndAfter, cur.components[j].package);
    UniqueIsOne(cur.components, j);
    if later.Success? && later.value.Some? {
      ChangedAndAfterIsDownwardClosed(cur, prev, cur.components[j].package, i);
    }
  }

  // ---- exactly when a component is offered ----

  /** The first row of that name. */
  predicate FirstRow(cs: seq<Component>, i: nat, package: string) {
    i < |cs| && cs[i].package == package && forall j :: 0 <= j < i ==> cs[j].package != package
  }

  lemma {:induction false} FindsFirst(cs: seq<Component>, i: nat, package: string)
    requires FirstRow(cs, i, package)
    ensures Planning.Find(cs, package) == Some(i)
  {
    if i > 0 {
      assert forall j :: 0 <= j < i - 1 ==> cs[1..][j] == cs[j + 1];
      FindsFirst(cs[1..], i - 1, package);
    }
  }

  /** Every component of the batch is an RPM of the modulemd itself. */
  predicate Listed(side: Side, k: nat) {
    forall i :: 0 <= i < |side.components| && side.components[i].batch == k ==>
      side.components[i].package in side.arches
  }

  /** Same name, ref and architectures. */
  predicate SameKey(a: Side, i: nat, c: Side, j: nat)
    requires i < |a.components| && j < |c.components|
  {
    var x, y := a.components[i], c.components[j];
    && x.package == y.package && x.ref == y.ref && x.package in a.arches && y.package in c.arches
    && multiset(a.arches[x.package]) == multiset(c.arches[y.package])
  }

  /** Every component of batch `k` of the one has its like in batch `k` of the other. */
  predicate BatchWithin(a: Side, c: Side, k: nat) {
    forall i :: 0 <= i < |a.components| && a.components[i].batch == k ==>
      exists j :: 0 <= j < |c.components| && c.components[j].batch == k && SameKey(a, i, c, j)
  }

  predicate SameBatch(cur: Side, prev: Side, k: nat) {
    BatchWithin(cur, prev, k) && BatchWithin(prev, cur, k)
  }

  lemma KeysWithin(a: Side, c: Side, k: nat)
    requires Listed(a, k) && Listed(c, k)
    ensures BatchKeys(a, k).Success? && BatchKeys(c, k).Success?
    ensures BatchKeys(a, k).value <= BatchKeys(c, k).value <==> BatchWithin(a, c, k)
  {
    var x, y := BatchKeys(a, k).value, BatchKeys(c, k).value;
    if x <= y {
      forall i | 0 <= i < |a.components| && a.components[i].batch == k
        ensures exists j :: 0 <= j < |c.components| && c.components[j].batch == k && SameKey(a, i, c, j)
      {
        assert KeyOf(a, i) in x;
        var j :| 0 <= j < |c.components| && c.components[j].batch == k && KeyOf(c, j) == KeyOf(a, i);
        assert SameKey(a, i, c, j);
      }
    }
    if BatchWithin(a, c, k) {
      forall key | key in x ensures key in y {
        var i :| 0 <= i < |a.components| && a.components[i].batch == k && KeyOf(a, i) == key;
        var j :| 0 <= j < |c.components| && c.components[j].batch == k && SameKey(a, i, c, j);
        assert KeyOf(c, j) == key;
      }
    }
  }

  lemma KeysSameIff(cur: Side, prev: Side, k: nat)
    requires Listed(cur, k) && Listed(prev, k)
    ensures BatchKeys(cur, k) == BatchKeys(prev, k) <==> SameBatch(cur, prev, k)
  {
    KeysWithin(cur, prev, k);
    KeysWithin(prev, cur, k);
    var x, y := BatchKeys(cur, k).value, BatchKeys(prev, k).value;
    assert x <= y && y <= x <==> x == y;
  }

  predicate ListedBefore(cur: Side, prev: Side, batch: nat) {
    forall k :: 2 <= k < batch ==> Listed(cur, k) && Listed(prev, k)
  }

  predicate SameBefore(cur: Side, prev: Side, batch: nat) {
    forall k :: 2 <= k < batch ==> SameBatch(cur, prev, k)
  }

  lemma {:induction false} EarlierIff(cur: Side, prev: Side, batch: nat)
    ensures var e := EarlierBatches(cur, prev, batch);
      if ListedBefore(cur, prev, batch) then
        e.Success? && (e.value.cur == e.value.prev <==> SameBefore(cur, prev, batch))
      else e == Failure(NoSuchRpmComponent)
  {
    if batch > 2 {
      EarlierIff(cur, prev, batch - 1);
      if ListedBefore(cur, prev, batch) {
        KeysSameIff(cur, prev, batch - 1);
        EarlierLength(cur, prev, batch - 1);
        var e := EarlierBatches(cur, prev, batch - 1).value;
        var n, o := BatchKeys(cur, batch - 1).value, BatchKeys(prev, batch - 1).value;
        AppendedEqual(e.cur, e.prev, n, o);
      }
    }
  }

  lemma AppendedEqual<T>(s: seq<T>, t: seq<T>, x: T, y: T)
    requires |s| == |t|
    ensures s + [x] == t + [y] <==> s == t && x == y
  {
    if s + [x] == t + [y] {
      assert s == (s + [x])[..|s|] && t == (t + [y])[..|t|];
      assert (s + [x])[|s|] == (t + [y])[|t|];
    }
  }

  /** Both rows have a batch and a ref, the same ref, and under changed-and-after the same batch and the same macros. */
  predicate Comparables(cur: Side, prev: Side, strategy: Strategy, c: Component, p: Component) {
    && strategy != All && c.batch != 0 && p.batch != 0
    && c.ref.Some? && c.ref.value != "" && p.ref == c.ref
    && (strategy == ChangedAndAfter ==> p.batch == c.batch && cur.macros == prev.macros)
  }

  /** Under changed-and-after, all batches from 2 up to that of the component are unchanged. */
  predicate UnchangedBefore(cur: Side, prev: Side, strategy: Strategy, c: Component) {
    strategy == ChangedAndAfter ==> ListedBefore(cur, prev, c.batch) && SameBefore(cur, prev, c.batch)
  }

  predicate InBoth(cur: Side, prev: Side, package: string) {
    package in cur.arches && package in prev.arches
  }

  /** The modulemds build the RPM for the same architectures. */
  ghost predicate ArchesAgree(cur: Side, prev: Side, package: string)
    requires InBoth(cur, prev, package)
  {
    forall a :: a in cur.arches[package] <==> a in prev.arches[package]
  }

  lemma SameArchesIff(cur: Side, prev: Side, package: string)
    ensures var r := SameArches(cur, prev, package);
      if InBoth(cur, prev, package) then r == Success(ArchesAgree(cur, prev, package))
      else r == Failure(NoSuchRpmComponent)
  {
    if InBoth(cur, prev, package) {
      var x, y := (set a | a in cur.arches[package]), (set a | a in prev.arches[package]);
      assert forall a :: (a in x <==> a in cur.arches[package]) && (a in y <==> a in prev.arches[package]);
    }
  }

  predicate OnlyRow(cs: seq<Component>, j: nat, package: string) {
    forall k :: 0 <= k < |cs| && cs[k].package == package ==> k == j
  }

  lemma ComparedIff(cur: Side, prev: Side, c: Component, p: Component)
    requires p.batch == c.batch && cur.macros == prev.macros
    ensures var r := ComparedBefore(cur, prev, c, p);
      if ListedBefore(cur, prev, c.batch) then r == Success(SameBefore(cur, prev, c.batch))
      else r == Failure(NoSuchRpmComponent)
  {
    EarlierIff(cur, prev, c.batch);
  }

  /**
   Exactly when a component is offered for reuse, and when the look-up raises instead. It is offered, and then as
   the first row of its name in the other build, if both rows have a batch and the same ref, nothing before changed
   under changed-and-after, the architectures agree, and the other build has no second row of that name.
   */
  lemma OfferedIff(cur: Side, prev: Side, strategy: Strategy, package: string, i: nat, j: nat)
    requires FirstRow(cur.components, i, package) && FirstRow(prev.components, j, package)
    ensures var r, c, p := ReusableComponent(cur, prev, strategy, package), cur.components[i], prev.components[j];
      if !Comparables(cur, prev, strategy, c, p) then r == Success(None)
      else if strategy == ChangedAndAfter && !ListedBefore(cur, prev, c.batch) then r == Failure(NoSuchRpmComponent)
      else if !UnchangedBefore(cur, prev, strategy, c) then r == Success(None)
      else if !InBoth(cur, prev, package) then r == Failure(NoSuchRpmComponent)
      else if !ArchesAgree(cur, prev, package) then r == Success(None)
      else if !OnlyRow(prev.components, j, package) then r == Failure(NotExactlyOneRow)
      else r == Success(Some(p))
  {
    LooksUpAs(cur, prev, strategy, package, i, j);
    SameArchesIff(cur, prev, package);
    OneIff(prev.components, j, package);
    var c, p := cur.components[i], prev.components[j];
    if Comparables(cur, prev, strategy, c, p) && strategy == ChangedAndAfter { ComparedIff(cur, prev, c, p); }
  }

  /** What the look-up makes of its three checks, in their order. */
  function Verdict(before: Result<bool, PyError>, arches: Result<bool, PyError>, one: bool, p: Component)
    : Result<Option<Component>, PyError>
  {
    if before.Failure? then Failure(before.error)
    else if !before.value then Success(None)
    else if arches.Failure? then Failure(arches.error)
    else if !arches.value then Success(None)
    else if !one then Failure(NotExactlyOneRow)
    else Success(Some(p))
  }

  lemma ExaminedAs(cur: Side, prev: Side, strategy: Strategy, package: string, c: Component, p: Component)
    requires strategy != All && c.batch != 0 && p.batch != 0 && HasRef(c)
    ensures Examine(cur, prev, strategy, package, c, p) ==
        if !Comparables(cur, prev, strategy, c, p) then Success(None)
        else Verdict(if strategy == ChangedAndAfter then ComparedBefore(cur, prev, c, p) else Success(true),
                     SameArches(cur, prev, package), One(prev.components, package), p)
  {
    if strategy == ChangedAndAfter && (p.batch != c.batch || cur.macros != prev.macros) {
      assert ComparedBefore(cur, prev, c, p) == Success(false);
    }
  }

  lemma LooksUpAs(cur: Side, prev: Side, strategy: Strategy, package: string, i: nat, j: nat)
    requires FirstRow(cur.components, i, package) && FirstRow(prev.components, j, package)
    ensures var c, p := cur.components[i], prev.components[j];
      ReusableComponent(cur, prev, strategy, package) ==
        if !Comparables(cur, prev, strategy, c, p) then Success(None)
        else Verdict(if strategy == ChangedAndAfter then ComparedBefore(cur, prev, c, p) else Success(true),
                     SameArches(cur, prev, package), One(prev.components, package), p)
  {
    FindsFirst(cur.components, i, package);
    FindsFirst(prev.components, j, package);
    var c, p := cur.components[i], prev.components[j];
    if strategy != All && c.batch != 0 && p.batch != 0 && HasRef(c) { ExaminedAs(cur, prev, strategy, package, c, p); }
  }

  lemma OneIff(cs: seq<Component>, j: nat, package: string)
    requires FirstRow(cs, j, package)
    ensures One(cs, package) <==> OnlyRow(cs, j, package)
  {}

  lemma NoRowNoOffer(cur: Side, prev: Side, strategy: Strategy, package: string)
    requires (forall i :: 0 <= i < |cur.components| ==> cur.components[i].package != package)
          || (forall j :: 0 <= j < |prev.components| ==> prev.components[j].package != package)
    ensures ReusableComponent(cur, prev, strategy, package) == Success(None)
  {}

  /** What is offered for reuse is the row of the same package, ref and architectures in the other module build. */
  lemma OfferedIsCounterpart(cur: Side, prev: Side, strategy: Strategy, package: string)
    requires ReusableComponent(cur, prev, strategy, package).Success?
    requires ReusableComponent(cur, prev, strategy, package).value.Some?
    ensures var p := ReusableComponent(cur, prev, strategy, package).value.value;
      && p in prev.components && p.package == package && HasRef(p)
      && exists i :: 0 <= i < |cur.components| && cur.components[i].package == package && cur.components[i].ref == p.ref
    ensures InBoth(cur, prev, package) && ArchesAgree(cur, prev, package)
  {
    var i := Planning.Find(cur.components, package).value;
    assert cur.components[i].package == package;
    SameArchesIff(cur, prev, package);
  }

  // ---- attempt_to_reuse_all_components ----

  lemma {:induction false} LastReusedIsMaximum(cs: seq<Component>, batch: nat)
    ensures var last := LastReusedBatch(cs, batch);
      && batch <= last
      && (forall i :: 0 <= i < |cs| && !cs[i].IsMacros() ==> cs[i].batch <= last)
      && (last == batch || exists i :: 0 <= i < |cs| && !cs[i].IsMacros() && cs[i].batch == last)
  {
    if cs != [] {
      var next := if !cs[0].IsMacros() && cs[0].batch > batch then cs[0].batch else batch;
      LastReusedIsMaximum(cs[1..], next);
      assert forall i :: 1 <= i < |cs| ==> cs[i] == cs[1..][i - 1];
      var last := LastReusedBatch(cs[1..], next);
      if last != next {
        var i :| 0 <= i < |cs[1..]| && !cs[1..][i].IsMacros() && cs[1..][i].batch == last;
        assert cs[i + 1].batch == last;
      }
    }
  }

  lemma {:induction false} ReusedNvrsAre(cs: seq<Component>, nvr: Option<Nvr>)
    ensures nvr in ReusedNvrs(cs) <==> exists i :: 0 <= i < |cs| && !cs[i].IsMacros() && cs[i].nvr == nvr
  {
    if cs != [] {
      ReusedNvrsAre(cs[1..], nvr);
      assert forall i :: 1 <= i < |cs| ==> cs[i] == cs[1..][i - 1];
      if nvr in ReusedNvrs(cs[1..]) {
        var i :| 0 <= i < |cs[1..]| && !cs[1..][i].IsMacros() && cs[1..][i].nvr == nvr;
        assert cs[i + 1].nvr == nvr;
      }
    }
  }

  /** A component that carries what its counterpart was built as. */
  predicate Carries(c: Component, d: Component, p: Component) {
    d == c.(reused := Some(p.id), task := p.task, nvr := p.nvr, state := p.state)
  }

  /**
   Reusing a whole module build is all or nothing. On failure no component, no batch number and no tag
   changes; on success every component but module-build-macros carries the id, task, NVR and state of
   its own counterpart, the batch is the maximum of the old one and all their batches, and exactly
   their NVRs are tagged, in the build tag and in the final tag.
   */
  lemma ReuseIsAllOrNothing(m: Module, b: Builder)
    ensures var a := ReuseAll(m, b);
      var cs, ds := m.components, a.outcome.m.components;
      && (!a.reused ==> ds == cs && a.outcome.m.batch == m.batch && a.outcome.calls == [])
      && (a.reused <==> b.previous.Some? && forall i :: 0 <= i < |cs| && !cs[i].IsMacros() ==> b.reusable(i).Some?)
      && (a.reused ==>
           && |ds| == |cs|
           && (forall i :: 0 <= i < |cs| ==>
                if cs[i].IsMacros() then ds[i] == cs[i] else Carries(cs[i], ds[i], b.reusable(i).value))
           && m.batch <= a.outcome.m.batch
           && (forall i :: 0 <= i < |cs| && !cs[i].IsMacros() ==> cs[i].batch <= a.outcome.m.batch)
           && (a.outcome.m.batch == m.batch
               || exists i :: 0 <= i < |cs| && !cs[i].IsMacros() && cs[i].batch == a.outcome.m.batch)
           && (exists nvrs ::
                && a.outcome.calls == [AddToBuildroot(nvrs, false), TagFinal(nvrs)]
                && forall nvr :: nvr in nvrs <==> exists i :: 0 <= i < |cs| && !cs[i].IsMacros() && ds[i].nvr == nvr))
  {
    var a := ReuseAll(m, b);
    if a.reused {
      LastReusedIsMaximum(m.components, m.batch);
      var nvrs := ReusedNvrs(a.outcome.m.components);
      forall nvr ensures nvr in nvrs <==>
        exists i :: 0 <= i < |m.components| && !m.components[i].IsMacros() && a.outcome.m.components[i].nvr == nvr
      {
        ReusedNvrsAre(a.outcome.m.components, nvr);
      }
      assert a.outcome.calls == [AddToBuildroot(nvrs, false), TagFinal(nvrs)];
    }
  }
}
