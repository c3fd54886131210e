/**
 Batch numbering: the order in which a modulemd asks for its components is the order of their batches,
 through any nesting of included modules.
 */
module Numbering {
  import opened Wrappers
  import opened Records
  import opened Planning

  datatype Leaf = Leaf(package: string, batch: nat)

  /** What a traversal plans, and the batch number it ends with: None once an included modulemd was empty. */
  datatype Walked = Walked(leaves: seq<Leaf>, batch: Option<nat>)

  // ---- the traversal, without the database ----

  /** One more when the buildorder changes; an unknown number stays unknown. */
  function Enter(e: Entry, batch: Option<nat>, previous: Option<int>): Option<nat> {
    if previous == Some(e.order) || batch == None then batch else Some(batch.value + 1)
  }

  function WalkEntry(e: Entry, batch: Option<nat>): Walked
    decreases EntrySize(e), 0
  {
    match e
    case Rpm(name, _, _, _, _, _, _) => Walked([Leaf(name, Column(batch))], batch)
    case Included(order, md) =>
      assert EntrySize(e) == 1 + ListSize(md.entries);
      WalkModule(md, batch, Some(order))
  }

  function WalkModule(md: ModuleMd, batch: Option<nat>, previous: Option<int>): Walked
    decreases ListSize(md.entries), 2
  {
    SortKeepsSize(md.entries);
    if md.entries == [] then Walked([], None) else Walk(SortByOrder(md.entries), batch, previous)
  }

  function Walk(es: seq<Entry>, batch: Option<nat>, previous: Option<int>): Walked
    decreases ListSize(es), 1
  {
    if es == [] then Walked([], batch)
    else
      var w := WalkEntry(es[0], Enter(es[0], batch, previous));
      var r := Walk(es[1..], w.batch, Some(es[0].order));
      Walked(w.leaves + r.leaves, r.batch)
  }

  /** All the RPMs a modulemd brings, with the batches its main call gives them. */
  function Plan(md: ModuleMd): Walked {
    WalkModule(md, Some(1), None)
  }

  // ---- included modules without components ----

  /** Every included module, at any depth, has components. */
  predicate NonEmpty(es: seq<Entry>)
    decreases es
  {
    es == [] || (EntryNonEmpty(es[0]) && NonEmpty(es[1..]))
  }

  predicate EntryNonEmpty(e: Entry)
    decreases e
  {
    match e
    case Rpm(_, _, _, _, _, _, _) => true
    case Included(_, md) => md.entries != [] && NonEmpty(md.entries)
  }

  // ---- sorting keeps the entries ----

  predicate Sorted(es: seq<Entry>) {
    forall i, j :: 0 <= i < j < |es| ==> es[i].order <= es[j].order
  }

  lemma {:induction false} InsertPermutes(e: Entry, es: seq<Entry>)
    ensures multiset(InsertByOrder(e, es)) == multiset(es) + multiset{e}
    ensures forall x :: x in InsertByOrder(e, es) <==> x == e || x in es
  {
    if es != [] && e.order > es[0].order {
      InsertPermutes(e, es[1..]);
      assert es == [es[0]] + es[1..];
    }
  }

  lemma {:induction false} InsertSorted(e: Entry, es: seq<Entry>)
    requires Sorted(es)
    ensures Sorted(InsertByOrder(e, es))
  {
    if es != [] && e.order > es[0].order {
      InsertSorted(e, es[1..]);
      InsertPermutes(e, es[1..]);
      HeadFirst(es, InsertByOrder(e, es[1..]), e);
    }
  }

  lemma HeadFirst(es: seq<Entry>, rest: seq<Entry>, e: Entry)
    requires es != [] && Sorted(es) && es[0].order <= e.order && Sorted(rest)
    requires forall x :: x in rest ==> x == e || x in es[1..]
    ensures Sorted([es[0]] + rest)
  {
    forall k | 0 <= k < |rest| ensures es[0].order <= rest[k].order {
      assert rest[k] in rest;
    }
  }

  lemma {:induction false} InsertNonEmpty(e: Entry, es: seq<Entry>)
    requires EntryNonEmpty(e) && NonEmpty(es)
    ensures NonEmpty(InsertByOrder(e, es))
  {
    if es == [] || e.order <= es[0].order {
      assert ([e] + es)[1..] == es;
    } else {
      InsertNonEmpty(e, es[1..]);
      assert ([es[0]] + InsertByOrder(e, es[1..]))[1..] == InsertByOrder(e, es[1..]);
    }
  }

  lemma {:induction false} SortFacts(es: seq<Entry>)
    ensures multiset(SortByOrder(es)) == multiset(es)
    ensures forall e :: e in SortByOrder(es) <==> e in es
    ensures Sorted(SortByOrder(es))
    ensures NonEmpty(es) ==> NonEmpty(SortByOrder(es))
    ensures |SortByOrder(es)| == |es|
  {
    if es != [] {
      assert es == [es[0]] + es[1..];
      SortFacts(es[1..]);
      InsertPermutes(es[0], SortByOrder(es[1..]));
      InsertSorted(es[0], SortByOrder(es[1..]));
      if NonEmpty(es) { InsertNonEmpty(es[0], SortByOrder(es[1..])); }
    }
    forall e ensures e in SortByOrder(es) <==> e in es {
      assert e in SortByOrder(es) <==> e in multiset(SortByOrder(es));
    }
    assert |multiset(SortByOrder(es))| == |SortByOrder(es)|;
    assert |multiset(es)| == |es|;
  }

  // ---- numbers never fall, and the last one is the batch returned ----

  /** Planned between `lo` and `hi`, if with a number at all; none falls, and after an unknown one all are unknown. */
  predicate Rising(leaves: seq<Leaf>, lo: nat, hi: Option<nat>) {
    && (forall i :: 0 <= i < |leaves| ==> leaves[i].batch == 0 || lo <= leaves[i].batch)
    && (forall i, j :: 0 <= i < j < |leaves| ==> leaves[j].batch == 0 || lo <= leaves[i].batch <= leaves[j].batch)
    && (hi.Some? ==> lo <= hi.value && forall i :: 0 <= i < |leaves| ==> lo <= leaves[i].batch <= hi.value)
  }

  /** The number returned, if there is one, is that of the last RPM. */
  predicate EndsWith(leaves: seq<Leaf>, hi: Option<nat>) {
    hi.Some? ==> leaves != [] && leaves[|leaves| - 1].batch == hi.value
  }

  predicate AllUnknown(w: Walked) {
    w.batch == None && forall i :: 0 <= i < |w.leaves| ==> w.leaves[i].batch == 0
  }

  lemma RisingConcat(a: seq<Leaf>, b: seq<Leaf>, lo: nat, mid: nat, mid': nat, hi: Option<nat>)
    requires Rising(a, lo, Some(mid)) && Rising(b, mid', hi) && mid <= mid'
    ensures Rising(a + b, lo, hi)
  {}

  lemma EndsConcat(a: seq<Leaf>, b: seq<Leaf>, hi: Option<nat>)
    requires EndsWith(b, hi)
    ensures EndsWith(a + b, hi)
  {}

  lemma RisingThenUnknown(a: seq<Leaf>, b: seq<Leaf>, lo: nat)
    requires Rising(a, lo, None) && forall i :: 0 <= i < |b| ==> b[i].batch == 0
    ensures Rising(a + b, lo, None)
  {}

  /** Without a number at the start there is none anywhere. */
  lemma {:induction false} EntryUnknown(e: Entry)
    ensures AllUnknown(WalkEntry(e, None))
    decreases EntrySize(e), 0
  {
    if e.Included? {
      assert EntrySize(e) == 1 + ListSize(e.mmd.entries);
      SortKeepsSize(e.mmd.entries);
      WalkUnknown(SortByOrder(e.mmd.entries), Some(e.order));
    }
  }

  lemma {:induction false} WalkUnknown(es: seq<Entry>, previous: Option<int>)
    ensures AllUnknown(Walk(es, None, previous))
    decreases ListSize(es), 1
  {
    if es != [] {
      EntryUnknown(es[0]);
      WalkUnknown(es[1..], Some(es[0].order));
    }
  }

  lemma {:induction false} EntryRises(e: Entry, batch: nat)
    ensures var w := WalkEntry(e, Some(batch)); Rising(w.leaves, batch, w.batch) && EndsWith(w.leaves, w.batch)
    decreases EntrySize(e), 0
  {
    if e.Included? && e.mmd.entries != [] {
      assert EntrySize(e) == 1 + ListSize(e.mmd.entries);
      SortKeepsSize(e.mmd.entries);
      SortFacts(e.mmd.entries);
      var es := SortByOrder(e.mmd.entries);
      WalkRises(es, batch, Some(e.order));
      StartsLower(Walk(es, Some(batch), Some(e.order)).leaves, batch, Enter(es[0], Some(batch), Some(e.order)).value,
                  Walk(es, Some(batch), Some(e.order)).batch);
    }
  }

  lemma StartsLower(leaves: seq<Leaf>, lo: nat, lo': nat, hi: Option<nat>)
    requires lo <= lo' && Rising(leaves, lo', hi)
    ensures Rising(leaves, lo, hi)
  {}

  /**
   Along the traversal the numbers start no lower than the initial batch (one higher when the first entry
   changes the buildorder), never fall, and end at the batch that is returned; once a number is unknown,
   after an included modulemd without components, all are.
   */
  lemma {:induction false} WalkRises(es: seq<Entry>, batch: nat, previous: Option<int>)
    requires es != []
    ensures var w := Walk(es, Some(batch), previous);
      Rising(w.leaves, Enter(es[0], Some(batch), previous).value, w.batch) && EndsWith(w.leaves, w.batch)
    decreases ListSize(es), 1
  {
    var lo := Enter(es[0], Some(batch), previous).value;
    var w, tail := WalkEntry(es[0], Some(lo)), es[1..];
    var r := Walk(tail, w.batch, Some(es[0].order));
    EntryRises(es[0], lo);
    if w.batch == None {
      WalkUnknown(tail, Some(es[0].order));
      RisingThenUnknown(w.leaves, r.leaves, lo);
    } else if tail == [] {
      assert w.leaves + r.leaves == w.leaves;
    } else {
      WalkRises(tail, w.batch.value, Some(es[0].order));
      EndsConcat(w.leaves, r.leaves, r.batch);
      RisingConcat(w.leaves, r.leaves, lo, w.batch.value, Enter(tail[0], w.batch, Some(es[0].order)).value, r.batch);
    }
  }

  /** An entry that ends with a number started with one that is no larger. */
  lemma EntryEndsHigher(e: Entry, batch: Option<nat>)
    ensures var w := WalkEntry(e, batch); w.batch.Some? ==> batch.Some? && batch.value <= w.batch.value
  {
    if batch == None { EntryUnknown(e); } else { EntryRises(e, batch.value); }
  }

  // ---- a smaller buildorder is a smaller batch ----

  /** The batch in which entry `i` of the list is entered. */
  function EnteredAt(es: seq<Entry>, batch: Option<nat>, previous: Option<int>, i: nat): Option<nat>
    requires i < |es|
    decreases |es|
  {
    var b := Enter(es[0], batch, previous);
    if i == 0 then b else EnteredAt(es[1..], WalkEntry(es[0], b).batch, Some(es[0].order), i - 1)
  }

  /** What entry `i` contributes. */
  function Share(es: seq<Entry>, batch: Option<nat>, previous: Option<int>, i: nat): Walked
    requires i < |es|
  {
    WalkEntry(es[i], EnteredAt(es, batch, previous, i))
  }

  lemma {:induction false} ShareIsPart(es: seq<Entry>, batch: Option<nat>, previous: Option<int>, i: nat, leaf: Leaf)
    requires i < |es| && leaf in Share(es, batch, previous, i).leaves
    ensures leaf in Walk(es, batch, previous).leaves
    decreases |es|
  {
    var w := WalkEntry(es[0], Enter(es[0], batch, previous));
    if i > 0 {
      assert es[1..][i - 1] == es[i];
      ShareIsPart(es[1..], w.batch, Some(es[0].order), i - 1, leaf);
    }
  }

  /** A number `b` that is known comes after a known one that is smaller, or at least not larger. */
  predicate After(a: Option<nat>, b: Option<nat>, strictly: bool) {
    b.Some? ==> a.Some? && a.value <= b.value && (strictly ==> a.value < b.value)
  }

  lemma {:induction false} EnteredNotBefore(es: seq<Entry>, batch: Option<nat>, previous: Option<int>, i: nat)
    requires i < |es| && Sorted(es)
    ensures After(batch, EnteredAt(es, batch, previous, i), false)
    ensures previous.Some? && previous.value < es[i].order && (forall k :: 0 <= k < |es| ==> previous.value <= es[k].order)
      ==> After(batch, EnteredAt(es, batch, previous, i), true)
    decreases |es|
  {
    var b := Enter(es[0], batch, previous);
    var w := WalkEntry(es[0], b);
    EntryEndsHigher(es[0], b);
    if i > 0 {
      assert es[1..][i - 1] == es[i];
      assert forall k :: 0 <= k < |es[1..]| ==> es[1..][k] == es[k + 1];
      EnteredNotBefore(es[1..], w.batch, Some(es[0].order), i - 1);
    }
  }

  lemma InTail(es: seq<Entry>, batch: Option<nat>, previous: Option<int>, i: nat)
    requires 0 < i < |es|
    ensures var w := WalkEntry(es[0], Enter(es[0], batch, previous));
      && EnteredAt(es, batch, previous, i) == EnteredAt(es[1..], w.batch, Some(es[0].order), i - 1)
      && Share(es, batch, previous, i) == Share(es[1..], w.batch, Some(es[0].order), i - 1)
  {
    assert es[1..][i - 1] == es[i];
  }

  lemma TailOrder(es: seq<Entry>, i: nat)
    requires 0 < i < |es| && Sorted(es)
    ensures Sorted(es[1..]) && es[1..][i - 1] == es[i] && es[0].order <= es[i].order
    ensures forall k :: 0 <= k < |es[1..]| ==> es[0].order <= es[1..][k].order
  {
    assert forall k :: 0 <= k < |es[1..]| ==> es[1..][k] == es[k + 1];
  }

  /** Two entries of one list: the earlier one ends before the later one starts, if its buildorder is smaller. */
  lemma {:induction false} SharesInOrder(es: seq<Entry>, batch: Option<nat>, previous: Option<int>, i: nat, j: nat)
    requires i < j < |es| && Sorted(es) && es[i].order < es[j].order
    ensures After(Share(es, batch, previous, i).batch, EnteredAt(es, batch, previous, j), true)
    decreases |es|
  {
    var w := WalkEntry(es[0], Enter(es[0], batch, previous));
    TailOrder(es, j);
    InTail(es, batch, previous, j);
    if i > 0 {
      TailOrder(es, i);
      InTail(es, batch, previous, i);
      SharesInOrder(es[1..], w.batch, Some(es[0].order), i - 1, j - 1);
    } else {
      EnteredNotBefore(es[1..], w.batch, Some(es[0].order), j - 1);
    }
  }

  /** The RPMs under an entry, included modules flattened. */
  predicate Under(package: string, e: Entry)
    decreases e
  {
    match e
    case Rpm(name, _, _, _, _, _, _) => name == package
    case Included(_, md) => exists x :: x in md.entries && Under(package, x)
  }

  lemma {:induction false} UnderIsWalked(package: string, e: Entry, batch: Option<nat>) returns (leaf: Leaf)
    requires Under(package, e)
    ensures leaf in WalkEntry(e, batch).leaves && leaf.package == package
    decreases EntrySize(e)
  {
    match e
    case Rpm(name, _, _, _, _, _, _) => leaf := Leaf(name, Column(batch));
    case Included(order, md) =>
      var x :| x in md.entries && Under(package, x);
      SortFacts(md.entries);
      SortKeepsSize(md.entries);
      var es := SortByOrder(md.entries);
      var i :| 0 <= i < |es| && es[i] == x;
      SizeAt(es, i);
      leaf := UnderIsWalked(package, x, EnteredAt(es, batch, Some(order), i));
      ShareIsPart(es, batch, Some(order), i, leaf);
  }

  lemma {:induction false} SizeAt(es: seq<Entry>, i: nat)
    requires i < |es|
    ensures EntrySize(es[i]) <= ListSize(es)
  {
    if i > 0 {
      assert es[1..][i - 1] == es[i];
      SizeAt(es[1..], i - 1);
    }
  }

  /** `node` is `md` itself or a modulemd included in it at some depth. */
  predicate Inside(node: ModuleMd, md: ModuleMd)
    decreases md
  {
    node == md || exists e :: e in md.entries && e.Included? && Inside(node, e.mmd)
  }

  /** p and q are both planned, p somewhere in a strictly smaller batch than q, unless q has no batch number. */
  predicate Precedes(leaves: seq<Leaf>, p: string, q: string) {
    exists i, j :: 0 <= i < |leaves| && 0 <= j < |leaves|
      && leaves[i].package == p && leaves[j].package == q && (leaves[j].batch == 0 || leaves[i].batch < leaves[j].batch)
  }

  lemma PrecedesFrom(part: seq<Leaf>, whole: seq<Leaf>, p: string, q: string)
    requires Precedes(part, p, q) && forall l :: l in part ==> l in whole
    ensures Precedes(whole, p, q)
  {
    var i, j :| 0 <= i < |part| && 0 <= j < |part|
      && part[i].package == p && part[j].package == q && (part[j].batch == 0 || part[i].batch < part[j].batch);
    assert part[i] in part && part[j] in part;
    var i' :| 0 <= i' < |whole| && whole[i'] == part[i];
    var j' :| 0 <= j' < |whole| && whole[j'] == part[j];
  }

  /** An RPM under entry `i` of a list, if it has a number, is planned between the batch the entry starts and ends in. */
  lemma LeafAt(es: seq<Entry>, batch: Option<nat>, previous: Option<int>, i: nat, p: string) returns (leaf: Leaf)
    requires i < |es| && Under(p, es[i])
    ensures leaf in Walk(es, batch, previous).leaves && leaf.package == p
    ensures var first, last := EnteredAt(es, batch, previous, i), Share(es, batch, previous, i).batch;
      leaf.batch != 0 ==> first.Some? && first.value <= leaf.batch && (last.Some? ==> leaf.batch <= last.value)
  {
    var first := EnteredAt(es, batch, previous, i);
    if first == None { EntryUnknown(es[i]); } else { EntryRises(es[i], first.value); }
    leaf := UnderIsWalked(p, es[i], first);
    ShareIsPart(es, batch, previous, i, leaf);
  }

  lemma ListOrder(es: seq<Entry>, batch: Option<nat>, previous: Option<int>, x: Entry, y: Entry, p: string, q: string)
    requires Sorted(es) && x in es && y in es && x.order < y.order
    requires Under(p, x) && Under(q, y)
    ensures Precedes(Walk(es, batch, previous).leaves, p, q)
  {
    var i :| 0 <= i < |es| && es[i] == x;
    var j :| 0 <= j < |es| && es[j] == y;
    SharesInOrder(es, batch, previous, i, j);
    var lp := LeafAt(es, batch, previous, i, p);
    var lq := LeafAt(es, batch, previous, j, q);
    LeavesPrecede(Walk(es, batch, previous).leaves, lp, lq);
  }

  lemma LeavesPrecede(leaves: seq<Leaf>, l: Leaf, m: Leaf)
    requires l in leaves && m in leaves && (m.batch == 0 || l.batch < m.batch)
    ensures Precedes(leaves, l.package, m.package)
  {
    var n :| 0 <= n < |leaves| && leaves[n] == l;
    var k :| 0 <= k < |leaves| && leaves[k] == m;
  }

  /**
   Within any modulemd of the tree, an RPM under an entry of smaller buildorder is planned for a
   strictly smaller batch than an RPM under an entry of larger buildorder, if that has a batch number.
   */
  lemma {:induction false} BuildorderIsBatchOrder(
    md: ModuleMd, batch: Option<nat>, previous: Option<int>, node: ModuleMd, x: Entry, y: Entry, p: string, q: string)
    requires Inside(node, md)
    requires x in node.entries && y in node.entries && x.order < y.order && Under(p, x) && Under(q, y)
    ensures Precedes(WalkModule(md, batch, previous).leaves, p, q)
    decreases ListSize(md.entries)
  {
    var es := SortByOrder(md.entries);
    SortFacts(md.entries);
    SortKeepsSize(md.entries);
    if node == md {
      ListOrder(es, batch, previous, x, y, p, q);
    } else {
      var e :| e in md.entries && e.Included? && Inside(node, e.mmd);
      var i :| 0 <= i < |es| && es[i] == e;
      SizeAt(es, i);
      assert EntrySize(e) == 1 + ListSize(e.mmd.entries);
      var b := EnteredAt(es, batch, previous, i);
      BuildorderIsBatchOrder(e.mmd, b, Some(e.order), node, x, y, p, q);
      forall l | l in WalkEntry(e, b).leaves ensures l in Walk(es, batch, previous).leaves {
        ShareIsPart(es, batch, previous, i, l);
      }
      PrecedesFrom(WalkEntry(e, b).leaves, Walk(es, batch, previous).leaves, p, q);
    }
  }

  // ---- plain RPMs of one buildorder share a batch ----

  /** Among entries of one buildorder the RPMs come first, as they do in `rpms + modules` sorted stably. */
  predicate RpmsFirst(es: seq<Entry>) {
    forall i, j :: 0 <= i < j < |es| && es[i].order == es[j].order && es[j].Rpm? ==> es[i].Rpm?
  }

  predicate RpmsThenModules(es: seq<Entry>) {
    forall i, j :: 0 <= i < j < |es| && es[j].Rpm? ==> es[i].Rpm?
  }

  lemma ConsRpmsFirst(x: Entry, rest: seq<Entry>)
    requires RpmsFirst(rest) && forall y :: y in rest && y.order == x.order && y.Rpm? ==> x.Rpm?
    ensures RpmsFirst([x] + rest)
  {
    var r := [x] + rest;
    forall i, j | 0 <= i < j < |r| && r[i].order == r[j].order && r[j].Rpm? ensures r[i].Rpm? {
      assert r[j] == rest[j - 1] && rest[j - 1] in rest;
      if i > 0 { assert r[i] == rest[i - 1]; }
    }
  }

  lemma HeadBeforeRpms(es: seq<Entry>, y: Entry)
    requires RpmsFirst(es) && es != [] && y in es[1..] && y.order == es[0].order && y.Rpm?
    ensures es[0].Rpm?
  {
    var n :| 0 <= n < |es[1..]| && es[1..][n] == y;
    assert es[n + 1] == y;
  }

  lemma {:induction false} InsertKeepsRpmsFirst(e: Entry, es: seq<Entry>)
    requires Sorted(es) && RpmsFirst(es) && (e.Included? ==> forall k :: 0 <= k < |es| ==> es[k].Included?)
    ensures RpmsFirst(InsertByOrder(e, es))
  {
    if es == [] || e.order <= es[0].order {
      ConsRpmsFirst(e, es);
    } else {
      assert forall k :: 0 <= k < |es[1..]| ==> es[1..][k] == es[k + 1];
      InsertKeepsRpmsFirst(e, es[1..]);
      InsertPermutes(e, es[1..]);
      var rest := InsertByOrder(e, es[1..]);
      forall y | y in rest && y.order == es[0].order && y.Rpm? ensures es[0].Rpm? {
        HeadBeforeRpms(es, y);
      }
      ConsRpmsFirst(es[0], rest);
    }
  }

  lemma {:induction false} SortKeepsRpmsFirst(es: seq<Entry>)
    requires RpmsThenModules(es)
    ensures RpmsFirst(SortByOrder(es))
  {
    if es != [] {
      var tail := es[1..];
      assert forall k :: 0 <= k < |tail| ==> tail[k] == es[k + 1];
      SortKeepsRpmsFirst(tail);
      SortFacts(tail);
      var sorted := SortByOrder(tail);
      if es[0].Included? {
        forall k | 0 <= k < |sorted| ensures sorted[k].Included? {
          assert sorted[k] in sorted && sorted[k] in tail;
          var n :| 0 <= n < |tail| && tail[n] == sorted[k];
        }
      }
      InsertKeepsRpmsFirst(es[0], sorted);
    }
  }

  lemma {:induction false} RpmsShareEntry(es: seq<Entry>, batch: Option<nat>, previous: Option<int>, i: nat, j: nat)
    requires i < j < |es| && Sorted(es) && RpmsFirst(es) && es[j].Rpm? && es[i].order == es[j].order
    ensures EnteredAt(es, batch, previous, i) == EnteredAt(es, batch, previous, j)
    decreases |es|
  {
    assert es[i].Rpm?;
    var b := Enter(es[0], batch, previous);
    var tail := es[1..];
    assert forall k :: 0 <= k < |tail| ==> tail[k] == es[k + 1];
    if i > 0 {
      RpmsShareEntry(tail, WalkEntry(es[0], b).batch, Some(es[0].order), i - 1, j - 1);
    } else {
      SameOrderRun(tail, b, es[0].order, j - 1);
    }
  }

  lemma {:induction false} SameOrderRun(es: seq<Entry>, batch: Option<nat>, order: int, j: nat)
    requires j < |es| && Sorted(es) && RpmsFirst(es) && es[j].Rpm? && es[j].order == order
    requires forall k :: 0 <= k < |es| ==> order <= es[k].order
    ensures EnteredAt(es, batch, Some(order), j) == batch
    decreases j
  {
    if j > 0 {
      assert es[0].order == order && es[0].Rpm?;
      var tail := es[1..];
      assert forall k :: 0 <= k < |tail| ==> tail[k] == es[k + 1];
      SameOrderRun(tail, batch, order, j - 1);
    }
  }

  lemma RpmAt(es: seq<Entry>, batch: Option<nat>, previous: Option<int>, i: nat)
    requires i < |es| && es[i].Rpm?
    ensures Leaf(es[i].name, Column(EnteredAt(es, batch, previous, i))) in Walk(es, batch, previous).leaves
  {
    ShareIsPart(es, batch, previous, i, Leaf(es[i].name, Column(EnteredAt(es, batch, previous, i))));
  }

  /** Two RPM entries of one modulemd with the same buildorder are planned for the same batch. */
  lemma EqualOrderSameBatch(md: ModuleMd, batch: Option<nat>, previous: Option<int>, x: Entry, y: Entry) returns (b: nat)
    requires RpmsThenModules(md.entries) && x in md.entries && y in md.entries
    requires x.Rpm? && y.Rpm? && x.order == y.order
    ensures var leaves := Walk(SortByOrder(md.entries), batch, previous).leaves;
      Leaf(x.name, b) in leaves && Leaf(y.name, b) in leaves
  {
    var es := SortByOrder(md.entries);
    SortFacts(md.entries);
    SortKeepsRpmsFirst(md.entries);
    b := SameBatchInList(es, batch, previous, x, y);
  }

  lemma SameBatchInList(es: seq<Entry>, batch: Option<nat>, previous: Option<int>, x: Entry, y: Entry) returns (b: nat)
    requires Sorted(es) && RpmsFirst(es) && x in es && y in es
    requires x.Rpm? && y.Rpm? && x.order == y.order
    ensures var leaves := Walk(es, batch, previous).leaves; Leaf(x.name, b) in leaves && Leaf(y.name, b) in leaves
  {
    var i :| 0 <= i < |es| && es[i] == x;
    var j :| 0 <= j < |es| && es[j] == y;
    if i < j { RpmsShareEntry(es, batch, previous, i, j); }
    if j < i { RpmsShareEntry(es, batch, previous, j, i); }
    b := Column(EnteredAt(es, batch, previous, i));
    RpmAt(es, batch, previous, i);
    RpmAt(es, batch, previous, j);
  }

  // ---- what is recorded is what was planned ----

  predicate Unique(rows: seq<Component>) {
    forall i, j :: 0 <= i < j < |rows| ==> rows[i].package != rows[j].package
  }

  predicate HasRow(rows: seq<Component>, leaf: Leaf) {
    exists i :: 0 <= i < |rows| && rows[i].package == leaf.package && rows[i].batch == leaf.batch
  }

  predicate Fresh(c: Component) {
    c.state == NotSubmitted && c.task == None && c.nvr == None && c.reused == None
    && !c.tagged && !c.taggedInFinal && !c.buildTimeOnly
  }

  /** `rows'` extends `rows` by unsubmitted components, each for one of `leaves`, and has a row for each of them. */
  predicate Extends(rows: seq<Component>, rows': seq<Component>, leaves: seq<Leaf>) {
    && rows <= rows' && Unique(rows')
    && (forall k :: |rows| <= k < |rows'| ==> Fresh(rows'[k]) && Leaf(rows'[k].package, rows'[k].batch) in leaves)
    && (forall l :: l in leaves ==> HasRow(rows', l))
  }

  lemma ExtendsTwice(a: seq<Component>, b: seq<Component>, c: seq<Component>, l: seq<Leaf>, l': seq<Leaf>)
    requires Extends(a, b, l) && Extends(b, c, l')
    ensures Extends(a, c, l + l')
  {
    forall x | x in l ensures HasRow(c, x) {
      var i :| 0 <= i < |b| && b[i].package == x.package && b[i].batch == x.batch;
      assert c[i] == b[i];
    }
    forall k | |a| <= k < |c| ensures Fresh(c[k]) && Leaf(c[k].package, c[k].batch) in l + l' {
      if k < |b| { assert c[k] == b[k]; }
    }
  }

  lemma RpmExtends(e: Entry, rows: seq<Component>, batch: Option<nat>)
    requires e.Rpm? && Unique(rows) && RecordRpm(e, rows, batch).Success?
    ensures Extends(rows, RecordRpm(e, rows, batch).value, [Leaf(e.name, Column(batch))])
  {
    var rows' := RecordRpm(e, rows, batch).value;
    var found := Find(rows, e.name);
    if found == None {
      assert rows'[|rows|] == NewRow(e, Column(batch), |rows|);
    }
  }

  lemma BumpEnters(e: Entry, batch: Option<nat>, previous: Option<int>)
    requires Bump(e, batch, previous).Success?
    ensures Bump(e, batch, previous) == Success(Enter(e, batch, previous))
  {}

  /** A successful recording leaves exactly the planned rows, and ends at the planned batch. */
  lemma {:induction false} RecordEntriesFollowsWalk(
    es: seq<Entry>, main: seq<Entry>, rows: seq<Component>, batch: Option<nat>, previous: Option<int>)
    requires Unique(rows) && RecordEntries(es, main, rows, batch, previous).Success?
    ensures var r := RecordEntries(es, main, rows, batch, previous).value;
      var w := Walk(es, batch, previous);
      r.batch == w.batch && Extends(rows, r.rows, w.leaves)
    decreases ListSize(es), 0
  {
    if es != [] {
      var e := es[0];
      BumpEnters(e, batch, previous);
      var b := Enter(e, batch, previous);
      var w := WalkEntry(e, b);
      var rest := Walk(es[1..], w.batch, Some(e.order));
      if e.Included? {
        assert EntrySize(e) == 1 + ListSize(e.mmd.entries);
        RecordModuleFollowsWalk(e.mmd, Some(main), rows, b, Some(e.order));
        var mid := RecordModule(e.mmd, Some(main), rows, b, Some(e.order)).value;
        RecordEntriesFollowsWalk(es[1..], main, mid.rows, w.batch, Some(e.order));
        ExtendsTwice(rows, mid.rows, RecordEntries(es[1..], main, mid.rows, mid.batch, Some(e.order)).value.rows,
                     w.leaves, rest.leaves);
      } else {
        RpmExtends(e, rows, b);
        var mid := RecordRpm(e, rows, b).value;
        RecordEntriesFollowsWalk(es[1..], main, mid, b, Some(e.order));
        ExtendsTwice(rows, mid, RecordEntries(es[1..], main, mid, b, Some(e.order)).value.rows,
                     w.leaves, rest.leaves);
      }
    }
  }

  lemma {:induction false} RecordModuleFollowsWalk(
    md: ModuleMd, main: Option<seq<Entry>>, rows: seq<Component>, batch: Option<nat>, previous: Option<int>)
    requires Unique(rows) && RecordModule(md, main, rows, batch, previous).Success?
    ensures var r := RecordModule(md, main, rows, batch, previous).value;
      var w := WalkModule(md, batch, previous);
      r.batch == w.batch && Extends(rows, r.rows, w.leaves)
    decreases ListSize(md.entries), 1
  {
    if md.entries != [] {
      SortKeepsSize(md.entries);
      RecordEntriesFollowsWalk(
        SortByOrder(md.entries), if main.Some? then main.value else md.entries, rows, batch, previous);
    }
  }

  /** Whatever the modulemd, new rows are unsubmitted, and lie in batch `lo` or later or have no batch number. */
  lemma {:induction false} RecordEntriesAddsFresh(
    es: seq<Entry>, main: seq<Entry>, rows: seq<Component>, batch: Option<nat>, previous: Option<int>, lo: nat)
    requires batch.Some? ==> batch.value >= lo || (previous == None && batch.value + 1 >= lo)
    requires RecordEntries(es, main, rows, batch, previous).Success?
    ensures var r := RecordEntries(es, main, rows, batch, previous).value;
      && rows <= r.rows
      && (forall k :: |rows| <= k < |r.rows| ==> Fresh(r.rows[k]) && (r.rows[k].batch == 0 || r.rows[k].batch >= lo))
      && (es != [] && r.batch.Some? ==> r.batch.value >= lo)
    decreases ListSize(es), 0
  {
    if es != [] {
      var e := es[0];
      var b := Bump(e, batch, previous).value;
      if e.Included? {
        assert EntrySize(e) == 1 + ListSize(e.mmd.entries);
        RecordModuleAddsFresh(e.mmd, Some(main), rows, b, Some(e.order), lo);
        var mid := RecordModule(e.mmd, Some(main), rows, b, Some(e.order)).value;
        RecordEntriesAddsFresh(es[1..], main, mid.rows, mid.batch, Some(e.order), lo);
      } else {
        RecordEntriesAddsFresh(es[1..], main, RecordRpm(e, rows, b).value, b, Some(e.order), lo);
      }
    }
  }

  lemma {:induction false} RecordModuleAddsFresh(
    md: ModuleMd, main: Option<seq<Entry>>, rows: seq<Component>, batch: Option<nat>, previous: Option<int>, lo: nat)
    requires batch.Some? ==> batch.value >= lo || (previous == None && batch.value + 1 >= lo)
    requires RecordModule(md, main, rows, batch, previous).Success?
    ensures var r := RecordModule(md, main, rows, batch, previous).value;
      && rows <= r.rows
      && (forall k :: |rows| <= k < |r.rows| ==> Fresh(r.rows[k]) && (r.rows[k].batch == 0 || r.rows[k].batch >= lo))
      && (r.batch.Some? ==> r.batch.value >= lo)
    decreases ListSize(md.entries), 1
  {
    if md.entries != [] {
      SortKeepsSize(md.entries);
      SortFacts(md.entries);
      RecordEntriesAddsFresh(
        SortByOrder(md.entries), if main.Some? then main.value else md.entries, rows, batch, previous, lo);
    }
  }

  /** The rows of a module build: what the init handler records into an empty table. */
  predicate PlannedRows(md: ModuleMd, rows: seq<Component>) {
    var r := RecordComponentBuilds(md, []);
    r.Success? && r.value.rows == rows
  }

  lemma PlanRises(md: ModuleMd)
    ensures var w := Plan(md); Rising(w.leaves, 2, w.batch) && EndsWith(w.leaves, w.batch)
  {
    if md.entries != [] {
      SortFacts(md.entries);
      WalkRises(SortByOrder(md.entries), 1, None);
    }
  }

  lemma LeafOfRow(rows: seq<Component>, leaves: seq<Leaf>, i: nat) returns (n: nat)
    requires Extends([], rows, leaves) && i < |rows|
    ensures n < |leaves| && leaves[n].batch == rows[i].batch && Fresh(rows[i])
  {
    assert Leaf(rows[i].package, rows[i].batch) in leaves;
    n :| 0 <= n < |leaves| && leaves[n] == Leaf(rows[i].package, rows[i].batch);
  }

  lemma LastLeafHasRow(rows: seq<Component>, leaves: seq<Leaf>)
    requires Extends([], rows, leaves) && leaves != []
    ensures exists i :: 0 <= i < |rows| && rows[i].batch == leaves[|leaves| - 1].batch
  {
    assert HasRow(rows, leaves[|leaves| - 1]);
  }

  /**
   Planning gives one unsubmitted row per package, in batches from 2 up or without a batch number (batch 0).
   If it returns a batch, every row is in one of the batches 2 up to that, which is the largest assigned.
   */
  lemma PlannedBatches(md: ModuleMd, rows: seq<Component>)
    requires PlannedRows(md, rows)
    ensures Unique(rows)
    ensures forall i :: 0 <= i < |rows| ==> Fresh(rows[i]) && (rows[i].batch == 0 || 2 <= rows[i].batch)
    ensures var last := RecordComponentBuilds(md, []).value.batch;
      last.Some? ==> (forall i :: 0 <= i < |rows| ==> 2 <= rows[i].batch <= last.value)
                     && exists i :: 0 <= i < |rows| && rows[i].batch == last.value
  {
    RecordModuleFollowsWalk(md, None, [], Some(1), None);
    PlanRises(md);
    var w := Plan(md);
    forall i | 0 <= i < |rows|
      ensures Fresh(rows[i]) && (rows[i].batch == 0 || 2 <= rows[i].batch)
      ensures w.batch.Some? ==> 2 <= rows[i].batch <= w.batch.value
    {
      var n := LeafOfRow(rows, w.leaves, i);
    }
    if w.batch.Some? { LastLeafHasRow(rows, w.leaves); }
  }

  lemma RowOfLeaf(rows: seq<Component>, leaf: Leaf, i: nat)
    requires Unique(rows) && HasRow(rows, leaf) && i < |rows| && rows[i].package == leaf.package
    ensures rows[i].batch == leaf.batch
  {}

  /**
   The numbering theorem: for any modulemd in the tree, a recorded RPM under an entry of smaller buildorder
   is in a strictly smaller batch than one under an entry of larger buildorder, if and only if the latter
   has a batch number.
   */
  lemma BuildorderRespected(
    md: ModuleMd, rows: seq<Component>, node: ModuleMd, x: Entry, y: Entry, i: nat, j: nat)
    requires PlannedRows(md, rows) && Inside(node, md)
    requires x in node.entries && y in node.entries && x.order < y.order
    requires i < |rows| && j < |rows| && Under(rows[i].package, x) && Under(rows[j].package, y)
    ensures rows[i].batch < rows[j].batch <==> rows[j].batch != 0
  {
    RecordModuleFollowsWalk(md, None, [], Some(1), None);
    var p, q := rows[i].package, rows[j].package;
    BuildorderIsBatchOrder(md, Some(1), None, node, x, y, p, q);
    var leaves := Plan(md).leaves;
    var n, k :| 0 <= n < |leaves| && 0 <= k < |leaves| && leaves[n].package == p && leaves[k].package == q
      && (leaves[k].batch == 0 || leaves[n].batch < leaves[k].batch);
    assert leaves[n] in leaves && leaves[k] in leaves;
    RowOfLeaf(rows, leaves[n], i);
    RowOfLeaf(rows, leaves[k], j);
  }

  /** Every RPM under any entry of the tree has a row. */
  lemma EveryRpmRecorded(md: ModuleMd, rows: seq<Component>, e: Entry, package: string)
    requires PlannedRows(md, rows) && e in md.entries && Under(package, e)
    ensures exists i :: 0 <= i < |rows| && rows[i].package == package
  {
    RecordModuleFollowsWalk(md, None, [], Some(1), None);
    SortFacts(md.entries);
    var es := SortByOrder(md.entries);
    var i :| 0 <= i < |es| && es[i] == e;
    var leaf := UnderIsWalked(package, e, EnteredAt(es, Some(1), None, i));
    ShareIsPart(es, Some(1), None, i, leaf);
    assert HasRow(rows, leaf);
  }

  // ---- recording again, on resubmission ----

  /** Every row of `rows` is the row that `rows'` holds for its package. */
  predicate Contains(rows': seq<Component>, rows: seq<Component>) {
    forall i :: 0 <= i < |rows| ==> SameRow(Find(rows', rows[i].package), rows', rows[i])
  }

  predicate SameRow(found: Option<nat>, rows: seq<Component>, row: Component) {
    found.Some? && found.value < |rows|
    && rows[found.value].batch == row.batch && rows[found.value].url == row.url && rows[found.value].ref == row.ref
  }

  lemma {:induction false} FindUnique(rows: seq<Component>, i: nat)
    requires i < |rows| && Unique(rows)
    ensures Find(rows, rows[i].package) == Some(i)
  {
    if i > 0 {
      assert rows[1..][i - 1] == rows[i];
      assert rows[0].package != rows[i].package;
      FindUnique(rows[1..], i - 1);
    }
  }

  /** The rows from `n` on all have a batch number. */
  predicate NumberedFrom(rows: seq<Component>, n: nat) {
    forall k :: n <= k < |rows| ==> rows[k].batch != 0
  }

  /** Recording into rows that hold all of them already: nothing changes, unless one has no batch number. */
  predicate Repeats(again: Result<Recorded, PyError>, r: Recorded, before: seq<Component>, full: seq<Component>) {
    if NumberedFrom(r.rows, |before|) then again == Success(Recorded(full, r.batch)) else again.Failure?
  }

  lemma {:induction false} RecordEntriesAgain(
    es: seq<Entry>, main: seq<Entry>, rows: seq<Component>, batch: Option<nat>, previous: Option<int>, full: seq<Component>)
    requires Unique(rows) && RecordEntries(es, main, rows, batch, previous).Success?
    requires batch.Some? ==> batch.value >= 1
    ensures var r := RecordEntries(es, main, rows, batch, previous).value;
      && rows <= r.rows && Unique(r.rows) && (r.batch.Some? ==> r.batch.value >= 1)
      && (Contains(full, r.rows) ==> Repeats(RecordEntries(es, main, full, batch, previous), r, rows, full))
    decreases ListSize(es), 0
  {
    if es != [] {
      var e := es[0];
      var b := Bump(e, batch, previous).value;
      if e.Included? {
        assert EntrySize(e) == 1 + ListSize(e.mmd.entries);
        RecordModuleAgain(e.mmd, Some(main), rows, b, Some(e.order), full);
        var mid := RecordModule(e.mmd, Some(main), rows, b, Some(e.order)).value;
        RecordEntriesAgain(es[1..], main, mid.rows, mid.batch, Some(e.order), full);
        var last := RecordEntries(es[1..], main, mid.rows, mid.batch, Some(e.order)).value.rows;
        ContainsPrefix(full, mid.rows, last);
        NumberedParts(rows, mid.rows, last);
      } else {
        RpmExtends(e, rows, b);
        var mid := RecordRpm(e, rows, b).value;
        RecordEntriesAgain(es[1..], main, mid, b, Some(e.order), full);
        var last := RecordEntries(es[1..], main, mid, b, Some(e.order)).value.rows;
        ContainsPrefix(full, mid, last);
        NumberedParts(rows, mid, last);
        if Contains(full, last) { RpmAgain(e, rows, b, full); }
      }
    }
  }

  lemma NumberedParts(a: seq<Component>, b: seq<Component>, c: seq<Component>)
    requires a <= b <= c
    ensures NumberedFrom(c, |a|) <==> NumberedFrom(b, |a|) && NumberedFrom(c, |b|)
  {
    assert forall k :: 0 <= k < |b| ==> b[k] == c[k];
  }

  lemma ContainsPrefix(full: seq<Component>, part: seq<Component>, whole: seq<Component>)
    requires part <= whole
    ensures Contains(full, whole) ==> Contains(full, part)
  {
    if Contains(full, whole) {
      forall i | 0 <= i < |part| ensures SameRow(Find(full, part[i].package), full, part[i]) {
        assert whole[i] == part[i];
      }
    }
  }

  lemma RpmAgain(e: Entry, rows: seq<Component>, batch: Option<nat>, full: seq<Component>)
    requires e.Rpm? && RecordRpm(e, rows, batch).Success? && Contains(full, RecordRpm(e, rows, batch).value)
    requires batch.Some? ==> batch.value >= 1
    ensures var rows' := RecordRpm(e, rows, batch).value;
      if NumberedFrom(rows', |rows|) then RecordRpm(e, full, batch) == Success(full) else RecordRpm(e, full, batch).Failure?
  {
    var rows' := RecordRpm(e, rows, batch).value;
    var found := Find(rows, e.name);
    var i := if found == None then |rows| else found.value;
    assert rows'[i].package == e.name;
    assert SameRow(Find(full, rows'[i].package), full, rows'[i]);
  }

  lemma {:induction false} RecordModuleAgain(
    md: ModuleMd, main: Option<seq<Entry>>, rows: seq<Component>, batch: Option<nat>, previous: Option<int>,
    full: seq<Component>)
    requires Unique(rows) && RecordModule(md, main, rows, batch, previous).Success?
    requires batch.Some? ==> batch.value >= 1
    ensures var r := RecordModule(md, main, rows, batch, previous).value;
      && rows <= r.rows && Unique(r.rows) && (r.batch.Some? ==> r.batch.value >= 1)
      && (Contains(full, r.rows) ==> Repeats(RecordModule(md, main, full, batch, previous), r, rows, full))
    decreases ListSize(md.entries), 1
  {
    if md.entries != [] {
      SortKeepsSize(md.entries);
      RecordEntriesAgain(SortByOrder(md.entries), if main.Some? then main.value else md.entries, rows, batch, previous, full);
    }
  }

  /**
   Recording a second time, as a resubmission does, adds nothing, refuses nothing and ends at the same
   batch, if and only if every RPM was recorded with a batch number.
   */
  lemma RecordingTwice(md: ModuleMd)
    requires RecordComponentBuilds(md, []).Success?
    ensures var r := RecordComponentBuilds(md, []).value;
      RecordComponentBuilds(md, r.rows) == Success(r) <==> forall i :: 0 <= i < |r.rows| ==> r.rows[i].batch != 0
  {
    var r := RecordComponentBuilds(md, []).value;
    RecordModuleAgain(md, None, [], Some(1), None, r.rows);
    forall i | 0 <= i < |r.rows| ensures SameRow(Find(r.rows, r.rows[i].package), r.rows, r.rows[i]) {
      FindUnique(r.rows, i);
    }
    assert Contains(r.rows, r.rows);
  }

  /** An included module without components leaves the traversal without a batch number; here a larger buildorder follows. */
  lemma EmptyIncludedModuleFails()
    ensures RecordComponentBuilds(
      ModuleMd([Rpm("late", 1, "u", None, 1.0, false), Included(0, ModuleMd([]))]), []) == Failure(PlanningError)
  {
    var late, empty := Rpm("late", 1, "u", None, 1.0, false), Included(0, ModuleMd([]));
    assert SortByOrder([empty]) == [empty] by { assert [empty][1..] == []; }
    assert [late, empty][1..] == [empty];
    assert [empty][1..] == [];
    assert InsertByOrder(late, [empty]) == [empty] + InsertByOrder(late, []);
    assert SortByOrder([late, empty]) == [empty, late];
    assert [empty, late][1..] == [late];
    var main := [late, empty];
    assert RecordModule(ModuleMd([]), Some(main), [], Some(2), Some(0)) == Success(Recorded([], None));
    assert RecordEntries([late], main, [], None, Some(0)) == Failure(PlanningError);
  }
}
