/** When planning succeeds, and when it numbers every RPM: what an included modulemd without components leaves behind. */
module PlanningSuccess {
  import opened Wrappers
  import opened Records
  import opened Planning
  import opened Numbering

  /** What the traversal meets, in its order; `bumps` says that the buildorder changed. */
  datatype Visit =
    | MeetsRpm(name: string, bumps: bool)
    | MeetsModule(bumps: bool)
    | MeetsEmpty(bumps: bool)

  function EntryVisits(e: Entry, bumps: bool): seq<Visit>
    decreases EntrySize(e), 0
  {
    match e
    case Rpm(name, _, _, _, _, _, _) => [MeetsRpm(name, bumps)]
    case Included(order, md) =>
      assert EntrySize(e) == 1 + ListSize(md.entries);
      SortKeepsSize(md.entries);
      if md.entries == [] then [MeetsEmpty(bumps)]
      else [MeetsModule(bumps)] + Visits(SortByOrder(md.entries), Some(order))
  }

  function Visits(es: seq<Entry>, previous: Option<int>): seq<Visit>
    decreases ListSize(es), 1
  {
    if es == [] then []
    else EntryVisits(es[0], previous != Some(es[0].order)) + Visits(es[1..], Some(es[0].order))
  }

  /** Needs a batch number: an RPM, to be recorded with it, or anything at which the buildorder changes, to raise it. */
  predicate Needs(v: Visit, rpms: bool) {
    if rpms then v.MeetsRpm? else v.bumps
  }

  predicate Quiet(vs: seq<Visit>, rpms: bool) {
    forall i :: 0 <= i < |vs| ==> !Needs(vs[i], rpms)
  }

  predicate AnyEmpty(vs: seq<Visit>) {
    exists i :: 0 <= i < |vs| && vs[i].MeetsEmpty?
  }

  /** Nothing that needs a batch number comes after an included modulemd without components. */
  predicate EmptyOnesLast(vs: seq<Visit>, rpms: bool) {
    forall i, j :: 0 <= i < j < |vs| && vs[i].MeetsEmpty? ==> !Needs(vs[j], rpms)
  }

  /** The same, from a point where a batch number is known or not. */
  predicate Passes(vs: seq<Visit>, known: bool, rpms: bool) {
    EmptyOnesLast(vs, rpms) && (!known ==> Quiet(vs, rpms))
  }

  lemma PassesConcat(a: seq<Visit>, b: seq<Visit>, known: bool, rpms: bool)
    ensures Passes(a + b, known, rpms) <==> Passes(a, known, rpms) && Passes(b, known && !AnyEmpty(a), rpms)
    ensures AnyEmpty(a + b) <==> AnyEmpty(a) || AnyEmpty(b)
  {
    var c := a + b;
    assert forall i :: 0 <= i < |a| ==> c[i] == a[i];
    assert forall i :: 0 <= i < |b| ==> b[i] == c[|a| + i];
    if Passes(c, known, rpms) {
      assert forall i, j :: 0 <= i < j < |a| && a[i].MeetsEmpty? ==> c[i].MeetsEmpty? && !Needs(c[j], rpms);
      forall i, j | 0 <= i < j < |b| && b[i].MeetsEmpty? ensures !Needs(b[j], rpms) {
        assert c[|a| + i].MeetsEmpty? && !Needs(c[|a| + j], rpms);
      }
      if AnyEmpty(a) {
        var i :| 0 <= i < |a| && a[i].MeetsEmpty?;
        forall j | 0 <= j < |b| ensures !Needs(b[j], rpms) { assert c[i].MeetsEmpty? && !Needs(c[|a| + j], rpms); }
      }
    }
    if AnyEmpty(b) {
      var i :| 0 <= i < |b| && b[i].MeetsEmpty?;
      assert c[|a| + i].MeetsEmpty?;
    }
  }

  lemma OneVisit(v: Visit, known: bool, rpms: bool)
    ensures Passes([v], known, rpms) <==> known || !Needs(v, rpms)
    ensures AnyEmpty([v]) <==> v.MeetsEmpty?
  {
    assert [v][0] == v;
    assert Quiet([v], rpms) <==> !Needs([v][0], rpms);
  }

  // ---- distinct names ----

  /** How often each name occurs among the RPMs of the tree. */
  function EntryNames(e: Entry): multiset<string>
    decreases EntrySize(e), 0
  {
    match e
    case Rpm(name, _, _, _, _, _, _) => multiset{name}
    case Included(_, md) =>
      assert EntrySize(e) == 1 + ListSize(md.entries);
      Names(md.entries)
  }

  function Names(es: seq<Entry>): multiset<string>
    decreases ListSize(es), 1
  {
    if es == [] then multiset{} else EntryNames(es[0]) + Names(es[1..])
  }

  predicate DistinctNames(es: seq<Entry>) {
    forall n :: n in Names(es) ==> Names(es)[n] == 1
  }

  lemma {:induction false} InsertKeepsNames(e: Entry, es: seq<Entry>)
    ensures Names(InsertByOrder(e, es)) == EntryNames(e) + Names(es)
  {
    if es == [] || e.order <= es[0].order {
      assert ([e] + es)[1..] == es;
    } else {
      InsertKeepsNames(e, es[1..]);
      assert ([es[0]] + InsertByOrder(e, es[1..]))[1..] == InsertByOrder(e, es[1..]);
    }
  }

  lemma {:induction false} SortKeepsNames(es: seq<Entry>)
    ensures Names(SortByOrder(es)) == Names(es)
  {
    if es != [] {
      SortKeepsNames(es[1..]);
      InsertKeepsNames(es[0], SortByOrder(es[1..]));
    }
  }

  lemma {:induction false} NameOfRpm(es: seq<Entry>, n: string)
    requires n in RpmNames(es)
    ensures n in Names(es)
  {
    var e :| e in es && e.Rpm? && e.name == n;
    if e != es[0] {
      assert e in es[1..];
      NameOfRpm(es[1..], n);
    }
  }

  /** An RPM of a modulemd itself is none of one it includes. */
  lemma {:induction false} OwnAndIncluded(es: seq<Entry>, e: Entry, n: string)
    requires e in es && e.Included? && n in RpmNames(es)
    ensures Names(es)[n] >= 1 + EntryNames(e)[n]
  {
    var r :| r in es && r.Rpm? && r.name == n;
    if e == es[0] {
      assert r in es[1..];
      NameOfRpm(es[1..], n);
    } else {
      assert e in es[1..];
      if r == es[0] {
        IncludedNames(es[1..], e, n);
      } else {
        assert r in es[1..];
        OwnAndIncluded(es[1..], e, n);
      }
    }
  }

  lemma {:induction false} IncludedNames(es: seq<Entry>, e: Entry, n: string)
    requires e in es
    ensures Names(es)[n] >= EntryNames(e)[n]
  {
    if e != es[0] { IncludedNames(es[1..], e, n); }
  }

  // ---- recording ----

  /** No RPM of the entries has a row already. */
  predicate NotRecorded(rows: seq<Component>, names: multiset<string>) {
    forall i :: 0 <= i < |rows| ==> rows[i].package !in names
  }

  /** No RPM of the included modulemds is one of the outermost modulemd itself. */
  predicate ApartFrom(main: seq<Entry>, names: multiset<string>) {
    forall n :: n in RpmNames(main) ==> n !in names
  }

  predicate IncludedApart(main: seq<Entry>, es: seq<Entry>) {
    forall e :: e in es && e.Included? ==> ApartFrom(main, EntryNames(e))
  }

  /** New rows are for RPMs of the entries. */
  predicate RowsGrowBy(rows: seq<Component>, rows': seq<Component>, names: multiset<string>) {
    forall i :: 0 <= i < |rows'| ==> rows'[i].package in names || exists j :: 0 <= j < |rows| && rows[j].package == rows'[i].package
  }

  /** What a recording must come to: it succeeds exactly if the visits pass, and then knows its batch exactly if none was empty. */
  predicate AsVisited(
    r: Result<Recorded, PyError>, vs: seq<Visit>, known: bool, rows: seq<Component>, names: multiset<string>)
  {
    && (r.Success? <==> Passes(vs, known, false))
    && (r.Success? ==> RowsGrowBy(rows, r.value.rows, names) && (r.value.batch.Some? <==> known && !AnyEmpty(vs)))
  }

  lemma StillNotRecorded(
    rows: seq<Component>, rows': seq<Component>, first: multiset<string>, rest: multiset<string>)
    requires RowsGrowBy(rows, rows', first) && NotRecorded(rows, first + rest)
    requires forall n :: n in first + rest ==> (first + rest)[n] == 1
    ensures NotRecorded(rows', rest)
  {
    forall i | 0 <= i < |rows'| ensures rows'[i].package !in rest {
      var n := rows'[i].package;
      assert n in first ==> (first + rest)[n] == first[n] + rest[n];
    }
  }

  lemma GrowTwice(a: seq<Component>, b: seq<Component>, c: seq<Component>, first: multiset<string>, rest: multiset<string>)
    requires RowsGrowBy(a, b, first) && RowsGrowBy(b, c, rest)
    ensures RowsGrowBy(a, c, first + rest)
  {}

  lemma RpmRecorded(e: Entry, rows: seq<Component>, batch: Option<nat>)
    requires e.Rpm? && NotRecorded(rows, multiset{e.name})
    ensures RecordRpm(e, rows, batch) == Success(rows + [NewRow(e, Column(batch), |rows|)])
    ensures RowsGrowBy(rows, rows + [NewRow(e, Column(batch), |rows|)], multiset{e.name})
  {}

  /** One entry, once the buildorder is compared. */
  function RecordEntry(e: Entry, main: seq<Entry>, rows: seq<Component>, batch: Option<nat>, previous: Option<int>)
    : Result<Recorded, PyError>
  {
    match Bump(e, batch, previous)
    case Failure(error) => Failure(error)
    case Success(bumped) =>
      if e.Included? then RecordModule(e.mmd, Some(main), rows, bumped, Some(e.order))
      else
        match RecordRpm(e, rows, bumped)
        case Failure(error) => Failure(error)
        case Success(rows') => Success(Recorded(rows', bumped))
  }

  lemma OneEntry(es: seq<Entry>, main: seq<Entry>, rows: seq<Component>, batch: Option<nat>, previous: Option<int>)
    requires es != []
    ensures RecordEntries(es, main, rows, batch, previous) ==
      match RecordEntry(es[0], main, rows, batch, previous)
      case Failure(error) => Failure(error)
      case Success(r) => RecordEntries(es[1..], main, r.rows, r.batch, Some(es[0].order))
  {}

  lemma {:induction false} EntryAsVisited(
    e: Entry, main: seq<Entry>, rows: seq<Component>, batch: Option<nat>, previous: Option<int>)
    requires NotRecorded(rows, EntryNames(e)) && (e.Included? ==> ApartFrom(main, EntryNames(e)))
    requires forall n :: n in EntryNames(e) ==> EntryNames(e)[n] == 1
    ensures AsVisited(RecordEntry(e, main, rows, batch, previous), EntryVisits(e, previous != Some(e.order)),
                      batch.Some?, rows, EntryNames(e))
    decreases EntrySize(e), 0
  {
    var bumps := previous != Some(e.order);
    if e.Rpm? {
      OneVisit(MeetsRpm(e.name, bumps), batch.Some?, false);
      if Bump(e, batch, previous).Success? { RpmRecorded(e, rows, Bump(e, batch, previous).value); }
    } else {
      assert EntrySize(e) == 1 + ListSize(e.mmd.entries);
      var bump := Bump(e, batch, previous);
      if bump.Success? { ModuleAsVisited(e.mmd, main, rows, bump.value, Some(e.order)); }
      ModuleVisits(e, bumps, batch.Some?, false);
    }
  }

  /** The visits inside an included modulemd. */
  function Inner(md: ModuleMd, order: Option<int>): seq<Visit> {
    Visits(SortByOrder(md.entries), order)
  }

  lemma ModuleVisits(e: Entry, bumps: bool, known: bool, rpms: bool)
    requires e.Included?
    ensures var vs, here := EntryVisits(e, bumps), known || rpms || !bumps;
      if e.mmd.entries == [] then (Passes(vs, known, rpms) <==> here) && AnyEmpty(vs)
      else (Passes(vs, known, rpms) <==> here && Passes(Inner(e.mmd, Some(e.order)), known, rpms))
           && (AnyEmpty(vs) <==> AnyEmpty(Inner(e.mmd, Some(e.order))))
  {
    if e.mmd.entries == [] {
      OneVisit(MeetsEmpty(bumps), known, rpms);
    } else {
      OneVisit(MeetsModule(bumps), known, rpms);
      PassesConcat([MeetsModule(bumps)], Inner(e.mmd, Some(e.order)), known, rpms);
    }
  }

  lemma {:induction false} ModuleAsVisited(
    md: ModuleMd, main: seq<Entry>, rows: seq<Component>, batch: Option<nat>, previous: Option<int>)
    requires NotRecorded(rows, Names(md.entries)) && ApartFrom(main, Names(md.entries)) && DistinctNames(md.entries)
    ensures var r := RecordModule(md, Some(main), rows, batch, previous);
      if md.entries == [] then r == Success(Recorded(rows, None))
      else AsVisited(r, Inner(md, previous), batch.Some?, rows, Names(md.entries))
    decreases ListSize(md.entries), 2
  {
    NoClash(main, md.entries);
    if md.entries != [] {
      SortKeepsSize(md.entries);
      SortKeepsNames(md.entries);
      SortFacts(md.entries);
      forall e | e in SortByOrder(md.entries) && e.Included? ensures ApartFrom(main, EntryNames(e)) {
        forall n ensures EntryNames(e)[n] <= Names(md.entries)[n] { IncludedNames(md.entries, e, n); }
      }
      EntriesAsVisited(SortByOrder(md.entries), main, rows, batch, previous);
    }
  }

  lemma NoClash(main: seq<Entry>, es: seq<Entry>)
    requires ApartFrom(main, Names(es))
    ensures RpmNames(main) * RpmNames(es) == {}
  {
    forall n | n in RpmNames(es) ensures n in Names(es) { NameOfRpm(es, n); }
  }

  lemma {:induction false} EntriesAsVisited(
    es: seq<Entry>, main: seq<Entry>, rows: seq<Component>, batch: Option<nat>, previous: Option<int>)
    requires NotRecorded(rows, Names(es)) && DistinctNames(es) && IncludedApart(main, es)
    ensures AsVisited(RecordEntries(es, main, rows, batch, previous), Visits(es, previous), batch.Some?, rows, Names(es))
    decreases ListSize(es), 1
  {
    if es != [] {
      var e, rest := es[0], es[1..];
      assert Names(es) == EntryNames(e) + Names(rest);
      DistinctParts(es);
      EntryAsVisited(e, main, rows, batch, previous);
      OneEntry(es, main, rows, batch, previous);
      PassesConcat(EntryVisits(e, previous != Some(e.order)), Visits(rest, Some(e.order)), batch.Some?, false);
      var first := RecordEntry(e, main, rows, batch, previous);
      if first.Success? {
        StillNotRecorded(rows, first.value.rows, EntryNames(e), Names(rest));
        EntriesAsVisited(rest, main, first.value.rows, first.value.batch, Some(e.order));
        var last := RecordEntries(rest, main, first.value.rows, first.value.batch, Some(e.order));
        if last.Success? { GrowTwice(rows, first.value.rows, last.value.rows, EntryNames(e), Names(rest)); }
      }
    }
  }

  lemma DistinctParts(es: seq<Entry>)
    requires es != [] && DistinctNames(es)
    ensures forall n :: n in EntryNames(es[0]) ==> EntryNames(es[0])[n] == 1
    ensures DistinctNames(es[1..])
  {
    var a, b := EntryNames(es[0]), Names(es[1..]);
    assert forall n :: Names(es)[n] == a[n] + b[n];
    assert forall n :: n in a || n in b ==> n in Names(es);
  }

  // ---- when planning succeeds ----

  /** All that planning meets in a modulemd. */
  function AllVisits(md: ModuleMd): seq<Visit> {
    Inner(md, None)
  }

  /** After an included modulemd without components the buildorder never changes. */
  predicate NoChangeAfterEmpty(md: ModuleMd) {
    EmptyOnesLast(AllVisits(md), false)
  }

  /** After an included modulemd without components comes no RPM. */
  predicate NoRpmAfterEmpty(md: ModuleMd) {
    EmptyOnesLast(AllVisits(md), true)
  }

  /**
   Planning a modulemd in which every RPM has a name of its own succeeds if and only if, after an included
   modulemd without components, the traversal meets no change of buildorder.
   */
  lemma PlanningSucceedsIff(md: ModuleMd)
    requires DistinctNames(md.entries)
    ensures RecordComponentBuilds(md, []).Success? <==> NoChangeAfterEmpty(md)
  {
    if md.entries != [] {
      SortKeepsNames(md.entries);
      SortFacts(md.entries);
      forall e | e in SortByOrder(md.entries) && e.Included? ensures ApartFrom(md.entries, EntryNames(e)) {
        forall n | n in RpmNames(md.entries) ensures n !in EntryNames(e) { OwnAndIncluded(md.entries, e, n); }
      }
      EntriesAsVisited(SortByOrder(md.entries), md.entries, [], Some(1), None);
    }
  }

  // ---- when every RPM gets a batch number ----

  predicate AllKnown(leaves: seq<Leaf>) {
    forall l :: l in leaves ==> l.batch != 0
  }

  /** The plan has a number for every RPM exactly if no visit to an RPM comes after an empty one. */
  predicate KnownAsVisited(w: Walked, vs: seq<Visit>, known: bool) {
    && (AllKnown(w.leaves) <==> Passes(vs, known, true))
    && (w.batch.Some? <==> known && !AnyEmpty(vs)) && (w.batch.Some? ==> w.batch.value >= 1)
  }

  lemma {:induction false} EntryKnown(e: Entry, batch: Option<nat>, bumps: bool)
    requires batch.Some? ==> batch.value >= 1
    ensures KnownAsVisited(WalkEntry(e, batch), EntryVisits(e, bumps), batch.Some?)
    decreases EntrySize(e), 0
  {
    if e.Rpm? {
      OneVisit(MeetsRpm(e.name, bumps), batch.Some?, true);
      assert AllKnown([Leaf(e.name, Column(batch))]) <==> Column(batch) != 0 by {
        assert Leaf(e.name, Column(batch)) in [Leaf(e.name, Column(batch))];
      }
    } else {
      assert EntrySize(e) == 1 + ListSize(e.mmd.entries);
      SortKeepsSize(e.mmd.entries);
      if e.mmd.entries != [] { EntriesKnown(SortByOrder(e.mmd.entries), batch, Some(e.order)); }
      ModuleVisits(e, bumps, batch.Some?, true);
    }
  }

  lemma {:induction false} EntriesKnown(es: seq<Entry>, batch: Option<nat>, previous: Option<int>)
    requires batch.Some? ==> batch.value >= 1
    ensures KnownAsVisited(Walk(es, batch, previous), Visits(es, previous), batch.Some?)
    decreases ListSize(es), 1
  {
    if es != [] {
      var bumps := previous != Some(es[0].order);
      var w := WalkEntry(es[0], Enter(es[0], batch, previous));
      EntryKnown(es[0], Enter(es[0], batch, previous), bumps);
      EntriesKnown(es[1..], w.batch, Some(es[0].order));
      PassesConcat(EntryVisits(es[0], bumps), Visits(es[1..], Some(es[0].order)), batch.Some?, true);
    }
  }

  /**
   When planning succeeds, every RPM is recorded in a batch from 2 up if and only if none comes after an
   included modulemd without components; the others are recorded in batch 0.
   */
  lemma NumberedIff(md: ModuleMd, rows: seq<Component>)
    requires PlannedRows(md, rows)
    ensures (forall i :: 0 <= i < |rows| ==> rows[i].batch >= 2) <==> NoRpmAfterEmpty(md)
  {
    PlannedBatches(md, rows);
    RecordModuleFollowsWalk(md, None, [], Some(1), None);
    if md.entries != [] { EntriesKnown(SortByOrder(md.entries), Some(1), None); }
    RowsAreLeaves(rows, Plan(md).leaves);
  }

  lemma RowsAreLeaves(rows: seq<Component>, leaves: seq<Leaf>)
    requires Extends([], rows, leaves)
    ensures (forall i :: 0 <= i < |rows| ==> rows[i].batch != 0) <==> AllKnown(leaves)
  {
    if forall i :: 0 <= i < |rows| ==> rows[i].batch != 0 {
      forall l | l in leaves ensures l.batch != 0 { assert HasRow(rows, l); }
    }
  }

  /**
   A concrete modulemd that is planned against its buildorder: "first" of order 0 goes to batch 2; of order 1
   are an empty modulemd, after which no number is known, and one with "second", recorded in batch 0.
   */
  lemma LaterOrderInBatchZero()
    ensures var first, second := Rpm("first", 0, "u", None, 1.0, false), Rpm("second", 1, "u", None, 1.0, false);
      var md := ModuleMd([first, Included(1, ModuleMd([])), Included(1, ModuleMd([second]))]);
      PlannedRows(md, [NewRow(first, 2, 0), NewRow(second, 0, 1)])
  {
    var first, second := Rpm("first", 0, "u", None, 1.0, false), Rpm("second", 1, "u", None, 1.0, false);
    var empty, full := Included(1, ModuleMd([])), Included(1, ModuleMd([second]));
    var main := [first, empty, full];
    SortsToItself(first, empty, full);
    SortsAlone(second);
    var one, two := [NewRow(first, 2, 0)], [NewRow(first, 2, 0), NewRow(second, 0, 1)];
    NameApart(first.name, second.name);
    assert RpmNames(main) * RpmNames([second]) == {};
    LastOfThree(main, second, full, one, two);
    assert main[1..] == [empty, full] && [empty, full][1..] == [full];
    assert RecordModule(ModuleMd([]), Some(main), one, Some(3), Some(1)) == Success(Recorded(one, None));
    assert RecordEntries([empty, full], main, one, Some(2), Some(0)) == Success(Recorded(two, None));
    var none: seq<Component> := [];
    assert none + [NewRow(first, 2, 0)] == one;
    assert RecordRpm(first, none, Some(2)) == Success(one);
    assert RecordEntries(main, main, [], Some(1), None) == Success(Recorded(two, None));
  }

  lemma NameApart(a: string, b: string)
    requires a == "first" && b == "second"
    ensures a != b
  {}

  lemma LastOfThree(main: seq<Entry>, second: Entry, full: Entry, one: seq<Component>, two: seq<Component>)
    requires second.Rpm? && second.order == 1 && full == Included(1, ModuleMd([second])) && |one| == 1
    requires one[0].package != second.name && two == one + [NewRow(second, 0, 1)]
    requires RpmNames(main) * RpmNames([second]) == {} && SortByOrder([second]) == [second]
    ensures RecordEntries([full], main, one, None, Some(1)) == Success(Recorded(two, None))
  {
    assert Find(one, second.name) == None;
    assert [second][1..] == [] && [full][1..] == [];
    assert RecordEntries([second], main, one, None, Some(1)) == Success(Recorded(two, None));
    assert RecordModule(full.mmd, Some(main), one, None, Some(1)) == Success(Recorded(two, None));
  }

  lemma SortsAlone(a: Entry)
    ensures SortByOrder([a]) == [a]
  {
    assert [a][1..] == [];
  }

  lemma SortsToItself(a: Entry, b: Entry, c: Entry)
    requires a.order <= b.order <= c.order
    ensures SortByOrder([a, b, c]) == [a, b, c] && SortByOrder([b, c]) == [b, c]
  {
    SortsAlone(c);
    assert [b, c][1..] == [c] && [a, b, c][1..] == [b, c];
  }

  // ---- modulemds without empty ones ----

  lemma {:induction false} NonEmptyVisits(es: seq<Entry>, previous: Option<int>)
    requires NonEmpty(es)
    ensures !AnyEmpty(Visits(es, previous))
    decreases ListSize(es), 1
  {
    if es != [] {
      var bumps := previous != Some(es[0].order);
      EntryNonEmptyVisits(es[0], bumps);
      NonEmptyVisits(es[1..], Some(es[0].order));
      PassesConcat(EntryVisits(es[0], bumps), Visits(es[1..], Some(es[0].order)), true, true);
    }
  }

  lemma {:induction false} EntryNonEmptyVisits(e: Entry, bumps: bool)
    requires EntryNonEmpty(e)
    ensures !AnyEmpty(EntryVisits(e, bumps))
    decreases EntrySize(e), 0
  {
    if e.Included? {
      assert EntrySize(e) == 1 + ListSize(e.mmd.entries);
      SortKeepsSize(e.mmd.entries);
      SortFacts(e.mmd.entries);
      NonEmptyVisits(SortByOrder(e.mmd.entries), Some(e.order));
      OneVisit(MeetsModule(bumps), true, true);
      PassesConcat([MeetsModule(bumps)], Inner(e.mmd, Some(e.order)), true, true);
    }
  }

  /** So planning succeeds and numbers every RPM when every included modulemd has components and every RPM its own name. */
  lemma NonEmptyTreesArePlanned(md: ModuleMd)
    requires NonEmpty(md.entries) && DistinctNames(md.entries)
    ensures var r := RecordComponentBuilds(md, []);
      r.Success? && forall i :: 0 <= i < |r.value.rows| ==> r.value.rows[i].batch >= 2
  {
    SortFacts(md.entries);
    NonEmptyVisits(SortByOrder(md.entries), None);
    PlanningSucceedsIff(md);
    NumberedIff(md, RecordComponentBuilds(md, []).value.rows);
  }
}
