/**
 Exactly when planning succeeds and what it records, for every modulemd: also when names occur twice, or an
 included modulemd repeats an RPM of the outermost one.
 */
module PlanningExact {
  import opened Wrappers
  import opened Records
  import opened Planning
  import opened Numbering
  import opened PlanningSuccess

  /** An RPM as the traversal meets it, with the batch number known there. */
  datatype Item = Item(rpm: Entry, batch: Option<nat>)

  function EntryItems(e: Entry, batch: Option<nat>): seq<Item>
    decreases EntrySize(e), 0
  {
    match e
    case Rpm(_, _, _, _, _, _, _) => [Item(e, batch)]
    case Included(order, md) =>
      assert EntrySize(e) == 1 + ListSize(md.entries);
      SortKeepsSize(md.entries);
      Items(SortByOrder(md.entries), batch, Some(order))
  }

  /** All RPMs below these entries, in the order of the traversal. */
  function Items(es: seq<Entry>, batch: Option<nat>, previous: Option<int>): seq<Item>
    decreases ListSize(es), 1
  {
    if es == [] then []
    else
      var entered := Enter(es[0], batch, previous);
      EntryItems(es[0], entered) + Items(es[1..], WalkEntry(es[0], entered).batch, Some(es[0].order))
  }

  function AllItems(md: ModuleMd): seq<Item> {
    Items(SortByOrder(md.entries), Some(1), None)
  }

  // ---- recording the RPMs one after the other ----

  function RecordItems(items: seq<Item>, rows: seq<Component>): Result<seq<Component>, PyError>
    requires AllRpms(items)
    decreases |items|
  {
    if items == [] then Success(rows)
    else
      match RecordRpm(items[0].rpm, rows, items[0].batch)
      case Failure(e) => Failure(e)
      case Success(rows') => RecordItems(items[1..], rows')
  }

  predicate AllRpms(items: seq<Item>) {
    forall i :: 0 <= i < |items| ==> items[i].rpm.Rpm?
  }

  lemma {:induction false} RecordItemsConcat(a: seq<Item>, b: seq<Item>, rows: seq<Component>)
    requires AllRpms(a) && AllRpms(b)
    ensures AllRpms(a + b)
    ensures RecordItems(a + b, rows) ==
      match RecordItems(a, rows)
      case Failure(e) => Failure(e)
      case Success(rows') => RecordItems(b, rows')
    decreases |a|
  {
    if a == [] {
      assert a + b == b;
    } else {
      assert (a + b)[0] == a[0] && (a + b)[1..] == a[1..] + b;
      assert forall i :: 0 <= i < |a[1..]| ==> a[1..][i] == a[i + 1];
      var first := RecordRpm(a[0].rpm, rows, a[0].batch);
      if first.Success? { RecordItemsConcat(a[1..], b, first.value); }
      assert AllRpms(a + b) by {
        assert forall i :: 0 <= i < |a + b| ==> (a + b)[i] == if i < |a| then a[i] else b[i - |a|];
      }
    }
  }

  // ---- the traversal of the code, split into its three reasons to fail ----

  predicate Apart(es: seq<Entry>, main: set<string>) {
    forall x :: x in es && x.Rpm? ==> x.name !in main
  }

  /** No modulemd included in `md`, at any depth, has an RPM whose name is in `main`. */
  predicate NoClash(md: ModuleMd, main: set<string>)
    decreases md
  {
    forall e :: e in md.entries && e.Included? ==> Apart(e.mmd.entries, main) && NoClash(e.mmd, main)
  }

  predicate NoClashIn(es: seq<Entry>, main: set<string>) {
    forall e :: e in es && e.Included? ==> Apart(e.mmd.entries, main) && NoClash(e.mmd, main)
  }

  lemma ApartIff(es: seq<Entry>, main: set<string>)
    ensures main * RpmNames(es) == {} <==> Apart(es, main)
  {
    if main * RpmNames(es) == {} {
      forall x | x in es && x.Rpm? ensures x.name !in main {
        assert x.name in RpmNames(es);
        assert x.name in main * RpmNames(es) <==> x.name in main;
      }
    }
  }

  /** What a recording comes to: three conditions for success, and the rows and the batch then. */
  predicate RecordsAs(
    r: Result<Recorded, PyError>, passes: bool, apart: bool, items: seq<Item>, rows: seq<Component>, batch: Option<nat>)
  {
    && AllRpms(items)
    && (r.Success? <==> passes && apart && RecordItems(items, rows).Success?)
    && (r.Success? ==> r.value == Recorded(RecordItems(items, rows).value, batch))
    && (r.Failure? ==> r.error == PlanningError)
  }

  lemma OneItem(e: Entry, rows: seq<Component>, batch: Option<nat>)
    requires e.Rpm?
    ensures AllRpms([Item(e, batch)]) && RecordItems([Item(e, batch)], rows) == RecordRpm(e, rows, batch)
  {
    var items := [Item(e, batch)];
    assert items[1..] == [];
    var r := RecordRpm(e, rows, batch);
    if r.Success? { assert RecordItems(items[1..], r.value) == Success(r.value); }
  }

  lemma BumpIs(e: Entry, batch: Option<nat>, previous: Option<int>)
    ensures var bump := Bump(e, batch, previous);
      if previous != Some(e.order) && batch == None then bump == Failure(PlanningError)
      else bump == Success(Enter(e, batch, previous)) && (Enter(e, batch, previous).Some? <==> batch.Some?)
  {}

  lemma {:induction false} EntryRecords(
    e: Entry, main: seq<Entry>, rows: seq<Component>, batch: Option<nat>, previous: Option<int>)
    ensures var entered := Enter(e, batch, previous);
      RecordsAs(RecordEntry(e, main, rows, batch, previous),
                Passes(EntryVisits(e, previous != Some(e.order)), batch.Some?, false),
                NoClashIn([e], RpmNames(main)), EntryItems(e, entered), rows, WalkEntry(e, entered).batch)
    ensures WalkEntry(e, Enter(e, batch, previous)).batch.Some?
       <==> batch.Some? && !AnyEmpty(EntryVisits(e, previous != Some(e.order)))
    decreases EntrySize(e), 0
  {
    var bumps, entered := previous != Some(e.order), Enter(e, batch, previous);
    BumpIs(e, batch, previous);
    if e.Rpm? {
      OneVisit(MeetsRpm(e.name, bumps), batch.Some?, false);
      OneItem(e, rows, entered);
    } else {
      assert EntrySize(e) == 1 + ListSize(e.mmd.entries);
      ModuleRecords(e.mmd, main, rows, entered, Some(e.order));
      ModuleVisits(e, bumps, batch.Some?, false);
      ClashInOne(e, RpmNames(main));
    }
  }

  lemma ClashInOne(e: Entry, main: set<string>)
    requires e.Included?
    ensures NoClashIn([e], main) <==> Apart(e.mmd.entries, main) && NoClash(e.mmd, main)
  {
    assert e in [e];
  }

  lemma {:induction false} ModuleRecords(
    md: ModuleMd, main: seq<Entry>, rows: seq<Component>, batch: Option<nat>, previous: Option<int>)
    ensures var r, w := RecordModule(md, Some(main), rows, batch, previous), WalkModule(md, batch, previous);
      && RecordsAs(r, Passes(Inner(md, previous), batch.Some?, false),
                   Apart(md.entries, RpmNames(main)) && NoClash(md, RpmNames(main)),
                   Items(SortByOrder(md.entries), batch, previous), rows, w.batch)
      && (md.entries != [] ==> (w.batch.Some? <==> batch.Some? && !AnyEmpty(Inner(md, previous))))
    decreases ListSize(md.entries), 2
  {
    SortKeepsSize(md.entries);
    ApartIff(md.entries, RpmNames(main));
    if md.entries == [] {
      assert SortByOrder(md.entries) == [];
    } else {
      SortFacts(md.entries);
      EntriesRecord(SortByOrder(md.entries), main, rows, batch, previous);
      assert NoClashIn(SortByOrder(md.entries), RpmNames(main)) <==> NoClash(md, RpmNames(main));
    }
  }

  lemma ClashSplits(es: seq<Entry>, main: set<string>)
    requires es != []
    ensures NoClashIn(es, main) <==> NoClashIn([es[0]], main) && NoClashIn(es[1..], main)
  {
    assert forall e :: e in es <==> e in [es[0]] || e in es[1..];
  }

  lemma {:induction false} EntriesRecord(
    es: seq<Entry>, main: seq<Entry>, rows: seq<Component>, batch: Option<nat>, previous: Option<int>)
    ensures var r, w := RecordEntries(es, main, rows, batch, previous), Walk(es, batch, previous);
      && RecordsAs(r, Passes(Visits(es, previous), batch.Some?, false), NoClashIn(es, RpmNames(main)),
                   Items(es, batch, previous), rows, w.batch)
      && (w.batch.Some? <==> batch.Some? && !AnyEmpty(Visits(es, previous)))
    decreases ListSize(es), 1
  {
    if es != [] {
      var e, rest, entered := es[0], es[1..], Enter(es[0], batch, previous);
      var known, vs := WalkEntry(e, entered).batch, EntryVisits(e, previous != Some(e.order));
      EntryRecords(e, main, rows, batch, previous);
      OneEntry(es, main, rows, batch, previous);
      PassesConcat(vs, Visits(rest, Some(e.order)), batch.Some?, false);
      ClashSplits(es, RpmNames(main));
      var first := RecordItems(EntryItems(e, entered), rows);
      var mid := if first.Success? then first.value else rows;
      EntriesRecord(rest, main, mid, known, Some(e.order));
      RecordItemsConcat(EntryItems(e, entered), Items(rest, known, Some(e.order)), rows);
    }
  }

  // ---- when one name occurs twice ----

  /** The second of two RPMs of one name is taken for the first: same source and ref, and the batch that is recorded. */
  predicate Agree(x: Item, y: Item)
    requires x.rpm.Rpm? && y.rpm.Rpm?
  {
    y.rpm.url == x.rpm.url && y.rpm.ref == x.rpm.ref && y.batch == Some(Column(x.batch))
  }

  /** The first occurrence of its name. */
  predicate FirstOf(items: seq<Item>, n: nat)
    requires AllRpms(items)
  {
    n < |items| && forall k :: 0 <= k < n ==> items[k].rpm.name != items[n].rpm.name
  }

  /** If the name of item `k` occurred before, the item agrees with the first occurrence. */
  predicate AgreesAt(items: seq<Item>, k: nat)
    requires AllRpms(items) && k < |items|
  {
    forall n :: 0 <= n < k && FirstOf(items, n) && items[k].rpm.name == items[n].rpm.name ==> Agree(items[n], items[k])
  }

  /** Every repeated name agrees with its first occurrence. */
  predicate RepeatsAgree(items: seq<Item>)
    requires AllRpms(items)
  {
    forall k :: 0 <= k < |items| ==> AgreesAt(items, k)
  }

  /** A row as it is recorded for an RPM: not submitted, and with all the attributes the modulemd gives. */
  predicate RowOf(row: Component, x: Item)
    requires x.rpm.Rpm?
  {
    && row.package == x.rpm.name && row.url == x.rpm.url && row.ref == x.rpm.ref
    && row.weight == x.rpm.weight && row.buildonly == x.rpm.buildonly && !row.buildTimeOnly
    && row.batch == (if x.batch.Some? then x.batch.value else 0)
    && row.state == NotSubmitted && row.task == None && row.nvr == None && !row.tagged && !row.taggedInFinal
    && row.reused == None
  }

  /** The row is that of the first occurrence of its name among the first `m` items. */
  predicate IsRowOf(row: Component, items: seq<Item>, m: nat)
    requires AllRpms(items)
  {
    exists n :: 0 <= n < |items| && n < m && FirstOf(items, n) && RowOf(row, items[n])
  }

  predicate HasRowOf(rows: seq<Component>, x: Item)
    requires x.rpm.Rpm?
  {
    exists i :: 0 <= i < |rows| && RowOf(rows[i], x)
  }

  /** One row, in its own place, for the first occurrence of each name among the first `m` items. */
  predicate RowsOf(rows: seq<Component>, items: seq<Item>, m: nat)
    requires AllRpms(items)
  {
    OnlyRowsOf(rows, items, m) && AllRowsOf(rows, items, m) && Unique(rows)
  }

  predicate OnlyRowsOf(rows: seq<Component>, items: seq<Item>, m: nat)
    requires AllRpms(items)
  {
    forall i :: 0 <= i < |rows| ==> rows[i].id == i && IsRowOf(rows[i], items, m)
  }

  predicate AllRowsOf(rows: seq<Component>, items: seq<Item>, m: nat)
    requires AllRpms(items)
  {
    forall n :: 0 <= n < |items| && n < m && FirstOf(items, n) ==> HasRowOf(rows, items[n])
  }

  lemma {:induction false} FirstOccurrence(items: seq<Item>, k: nat) returns (n: nat)
    requires AllRpms(items) && k < |items|
    ensures n <= k && FirstOf(items, n) && items[n].rpm.name == items[k].rpm.name
    decreases k
  {
    if j: nat :| j < k && items[j].rpm.name == items[k].rpm.name {
      n := FirstOccurrence(items, j);
    } else {
      n := k;
    }
  }

  /** Where no row has the name, it did not occur before. */
  lemma UnknownIsFirst(rows: seq<Component>, items: seq<Item>, m: nat)
    requires AllRpms(items) && m < |items| && RowsOf(rows, items, m) && Find(rows, items[m].rpm.name) == None
    ensures FirstOf(items, m)
  {
    forall k | 0 <= k < m ensures items[k].rpm.name != items[m].rpm.name {
      var n := FirstOccurrence(items, k);
      assert HasRowOf(rows, items[n]);
      var i :| 0 <= i < |rows| && RowOf(rows[i], items[n]);
      assert rows[i].package == items[k].rpm.name;
    }
  }

  /** A first occurrence adds its row. */
  lemma NewRowOf(rows: seq<Component>, items: seq<Item>, m: nat)
    requires AllRpms(items) && m < |items| && RowsOf(rows, items, m) && Find(rows, items[m].rpm.name) == None
    ensures var x := items[m]; var r := RecordRpm(x.rpm, rows, x.batch);
      r.Success? && RowsOf(r.value, items, m + 1) && AgreesAt(items, m)
  {
    var x := items[m];
    UnknownIsFirst(rows, items, m);
    OneMoreRowOf(rows, NewRow(x.rpm, Column(x.batch), |rows|), items, m);
  }

  lemma OneMoreRowOf(rows: seq<Component>, row: Component, items: seq<Item>, m: nat)
    requires AllRpms(items) && m < |items| && RowsOf(rows, items, m) && FirstOf(items, m)
    requires RowOf(row, items[m]) && row.id == |rows| && Find(rows, row.package) == None
    ensures RowsOf(rows + [row], items, m + 1)
  {
    OnlyOneMore(rows, row, items, m);
    AllOneMore(rows, row, items, m);
    OneMoreUnique(rows, row);
  }

  lemma OneMoreUnique(rows: seq<Component>, row: Component)
    requires Unique(rows) && forall i :: 0 <= i < |rows| ==> rows[i].package != row.package
    ensures Unique(rows + [row])
  {}

  lemma OnlyOneMore(rows: seq<Component>, row: Component, items: seq<Item>, m: nat)
    requires AllRpms(items) && m < |items| && OnlyRowsOf(rows, items, m)
    requires FirstOf(items, m) && RowOf(row, items[m]) && row.id == |rows|
    ensures OnlyRowsOf(rows + [row], items, m + 1)
  {
    forall i | 0 <= i < |rows| ensures IsRowOf(rows[i], items, m + 1) { IsRowStill(rows[i], items, m); }
    assert IsRowOf(row, items, m + 1);
  }

  lemma AllOneMore(rows: seq<Component>, row: Component, items: seq<Item>, m: nat)
    requires AllRpms(items) && m < |items| && AllRowsOf(rows, items, m) && RowOf(row, items[m])
    ensures AllRowsOf(rows + [row], items, m + 1)
  {
    assert (rows + [row])[|rows|] == row;
    forall n | 0 <= n < |items| && n < m + 1 && FirstOf(items, n) ensures HasRowOf(rows + [row], items[n]) {
      if n < m { HasRowStill(rows, rows + [row], items[n]); }
    }
  }

  lemma HasRowStill(rows: seq<Component>, rows': seq<Component>, x: Item)
    requires x.rpm.Rpm? && HasRowOf(rows, x) && rows <= rows'
    ensures HasRowOf(rows', x)
  {
    var i :| 0 <= i < |rows| && RowOf(rows[i], x);
    assert rows'[i] == rows[i];
  }

  /** A repeated name is compared with the row of its first occurrence, and adds none. */
  lemma OldRowOf(rows: seq<Component>, items: seq<Item>, m: nat)
    requires AllRpms(items) && m < |items| && RowsOf(rows, items, m) && Find(rows, items[m].rpm.name).Some?
    ensures var x := items[m]; var r := RecordRpm(x.rpm, rows, x.batch);
      && (r.Success? <==> AgreesAt(items, m)) && (r.Success? ==> r.value == rows) && RowsOf(rows, items, m + 1)
  {
    var i := Find(rows, items[m].rpm.name).value;
    assert IsRowOf(rows[i], items, m);
    var n :| 0 <= n < |items| && n < m && FirstOf(items, n) && RowOf(rows[i], items[n]);
    OnlyFirst(items, n, m);
    Compared(rows, items[n], items[m]);
    StillRowsOf(rows, items, m, n);
  }

  lemma Compared(rows: seq<Component>, first: Item, x: Item)
    requires first.rpm.Rpm? && x.rpm.Rpm? && Find(rows, x.rpm.name).Some?
    requires RowOf(rows[Find(rows, x.rpm.name).value], first)
    ensures var r := RecordRpm(x.rpm, rows, x.batch);
      (r.Success? <==> Agree(first, x)) && (r.Success? ==> r.value == rows)
  {}

  lemma StillRowsOf(rows: seq<Component>, items: seq<Item>, m: nat, n: nat)
    requires AllRpms(items) && n < m < |items| && RowsOf(rows, items, m) && items[n].rpm.name == items[m].rpm.name
    ensures RowsOf(rows, items, m + 1)
  {
    assert !FirstOf(items, m);
    forall j | 0 <= j < |rows| ensures IsRowOf(rows[j], items, m + 1) { IsRowStill(rows[j], items, m); }
  }

  lemma IsRowStill(row: Component, items: seq<Item>, m: nat)
    requires AllRpms(items) && IsRowOf(row, items, m)
    ensures IsRowOf(row, items, m + 1)
  {}

  lemma OnlyFirst(items: seq<Item>, n: nat, m: nat)
    requires AllRpms(items) && n < m < |items| && FirstOf(items, n) && items[n].rpm.name == items[m].rpm.name
    ensures AgreesAt(items, m) <==> Agree(items[n], items[m])
  {
    forall k | 0 <= k < m && FirstOf(items, k) && items[m].rpm.name == items[k].rpm.name ensures k == n {
      assert items[k].rpm.name == items[n].rpm.name;
    }
  }

  predicate RepeatsAgreeFrom(items: seq<Item>, m: nat)
    requires AllRpms(items)
  {
    forall k :: 0 <= k < |items| && m <= k ==> AgreesAt(items, k)
  }

  lemma RpmsFrom(items: seq<Item>, m: nat)
    requires AllRpms(items) && m <= |items|
    ensures AllRpms(items[m..])
  {
    assert forall i :: 0 <= i < |items[m..]| ==> items[m..][i] == items[m + i];
  }

  lemma RecordItemsStep(items: seq<Item>, m: nat, rows: seq<Component>)
    requires AllRpms(items) && m < |items| && AllRpms(items[m..]) && AllRpms(items[m + 1..])
    ensures var r := RecordRpm(items[m].rpm, rows, items[m].batch);
      RecordItems(items[m..], rows) == if r.Failure? then Failure(r.error) else RecordItems(items[m + 1..], r.value)
  {
    assert items[m..][0] == items[m] && items[m..][1..] == items[m + 1..];
  }

  /** One item is recorded exactly if its name is new or it agrees with the first of its name. */
  lemma RecordsOne(items: seq<Item>, m: nat, rows: seq<Component>)
    requires AllRpms(items) && m < |items| && RowsOf(rows, items, m)
    ensures var r := RecordRpm(items[m].rpm, rows, items[m].batch);
      (r.Success? <==> AgreesAt(items, m)) && (r.Success? ==> RowsOf(r.value, items, m + 1))
  {
    if Find(rows, items[m].rpm.name) == None { NewRowOf(rows, items, m); } else { OldRowOf(rows, items, m); }
  }

  lemma RepeatsSplit(items: seq<Item>, m: nat)
    requires AllRpms(items) && m < |items|
    ensures RepeatsAgreeFrom(items, m) <==> AgreesAt(items, m) && RepeatsAgreeFrom(items, m + 1)
  {}

  lemma {:induction false} RecordsFrom(items: seq<Item>, m: nat, rows: seq<Component>)
    requires AllRpms(items) && m <= |items| && RowsOf(rows, items, m)
    ensures AllRpms(items[m..])
    ensures var r := RecordItems(items[m..], rows);
      (r.Success? <==> RepeatsAgreeFrom(items, m)) && (r.Success? ==> RowsOf(r.value, items, |items|))
    decreases |items| - m
  {
    RpmsFrom(items, m);
    if m < |items| {
      RpmsFrom(items, m + 1);
      RecordItemsStep(items, m, rows);
      RecordsOne(items, m, rows);
      RepeatsSplit(items, m);
      var r := RecordRpm(items[m].rpm, rows, items[m].batch);
      if r.Success? { RecordsFrom(items, m + 1, r.value); }
    }
  }

  // ---- planning ----

  /** No included modulemd, at any depth, has an RPM of the outermost one. */
  predicate NothingRepeated(md: ModuleMd) {
    NoClash(md, set e | e in md.entries && e.Rpm? :: e.name)
  }

  lemma PlansAs(md: ModuleMd)
    ensures AllRpms(AllItems(md))
    ensures var r := RecordComponentBuilds(md, []);
      && (r.Success? <==> NoChangeAfterEmpty(md) && NothingRepeated(md) && RecordItems(AllItems(md), []).Success?)
      && (r.Success? ==> r.value.rows == RecordItems(AllItems(md), []).value)
  {
    if md.entries == [] {
      assert SortByOrder(md.entries) == [];
      assert AllVisits(md) == [] && AllItems(md) == [];
    } else {
      SortFacts(md.entries);
      EntriesRecord(SortByOrder(md.entries), md.entries, [], Some(1), None);
      assert RpmNames(md.entries) == set e | e in md.entries && e.Rpm? :: e.name;
    }
  }

  /**
   Exactly when planning succeeds, for every modulemd: after an included modulemd without components the buildorder
   never changes, no included modulemd repeats an RPM of the outermost one, and any other repeated name has the
   source, the ref and the batch of its first occurrence.
   */
  lemma PlanningSucceedsExactly(md: ModuleMd)
    ensures AllRpms(AllItems(md))
    ensures RecordComponentBuilds(md, []).Success?
       <==> NoChangeAfterEmpty(md) && NothingRepeated(md) && RepeatsAgree(AllItems(md))
  {
    PlansAs(md);
    RecordsAll(AllItems(md));
  }

  lemma RecordsAll(items: seq<Item>)
    requires AllRpms(items)
    ensures var r := RecordItems(items, []);
      (r.Success? <==> RepeatsAgree(items)) && (r.Success? ==> RowsOf(r.value, items, |items|))
  {
    assert RowsOf([], items, 0);
    RecordsFrom(items, 0, []);
    assert items[0..] == items;
  }

  /**
   What planning records: for the first occurrence of each name in the traversal one row, not submitted, with the
   source, ref, weight and build-only flag of the modulemd and the batch number known there, 0 if none is.
   */
  lemma PlannedRowsAreFirsts(md: ModuleMd, rows: seq<Component>)
    requires PlannedRows(md, rows)
    ensures AllRpms(AllItems(md)) && RowsOf(rows, AllItems(md), |AllItems(md)|)
  {
    PlansAs(md);
    RecordsAll(AllItems(md));
  }

  // ---- sorting is stable ----

  /** The entries of one buildorder, in their order. */
  function OfOrder(es: seq<Entry>, order: int): seq<Entry> {
    if es == [] then [] else IfOrder(es[0], order) + OfOrder(es[1..], order)
  }

  function IfOrder(e: Entry, order: int): seq<Entry> {
    if e.order == order then [e] else []
  }

  lemma OfOrderCons(e: Entry, es: seq<Entry>, order: int)
    ensures OfOrder([e] + es, order) == IfOrder(e, order) + OfOrder(es, order)
  {
    assert ([e] + es)[1..] == es;
  }

  lemma {:induction false} InsertKeepsOrder(e: Entry, es: seq<Entry>, order: int)
    requires Sorted(es)
    ensures OfOrder(InsertByOrder(e, es), order) == IfOrder(e, order) + OfOrder(es, order)
  {
    if es == [] || e.order <= es[0].order {
      OfOrderCons(e, es, order);
    } else {
      TailIsSorted(es);
      InsertKeepsOrder(e, es[1..], order);
      OfOrderCons(es[0], InsertByOrder(e, es[1..]), order);
      Exchange(IfOrder(es[0], order), IfOrder(e, order), OfOrder(es[1..], order));
    }
  }

  lemma Exchange(a: seq<Entry>, b: seq<Entry>, rest: seq<Entry>)
    requires a == [] || b == []
    ensures a + (b + rest) == b + (a + rest)
  {
    if a == [] { assert a + (b + rest) == b + rest && a + rest == rest; }
    else { assert b + rest == rest && b + (a + rest) == a + rest; }
  }

  lemma TailIsSorted(es: seq<Entry>)
    requires es != [] && Sorted(es)
    ensures Sorted(es[1..])
  {
    var tail := es[1..];
    forall i, j | 0 <= i < j < |tail| ensures tail[i].order <= tail[j].order {
      assert tail[i] == es[i + 1] && tail[j] == es[j + 1];
    }
  }

  /** Entries of one buildorder keep the order of the modulemd: RPMs come before included modulemds. */
  lemma {:induction false} SortIsStable(es: seq<Entry>, order: int)
    ensures OfOrder(SortByOrder(es), order) == OfOrder(es, order)
  {
    if es != [] {
      SortIsStable(es[1..], order);
      SortFacts(es[1..]);
      InsertKeepsOrder(es[0], SortByOrder(es[1..]), order);
    }
  }
}
