/**
 record_component_builds (module_build_service/scheduler/submit.py): a modulemd, with the modulemds
 it includes, is flattened into component rows that carry batch numbers.
 */
module Planning {
  import opened Wrappers
  import opened Records

  // ---- sorting by buildorder ----

  /** Inserts before every entry of the same or a larger buildorder, which keeps the sort stable. */
  function InsertByOrder(e: Entry, es: seq<Entry>): (r: seq<Entry>) {
    if es == [] || e.order <= es[0].order then [e] + es else [es[0]] + InsertByOrder(e, es[1..])
  }

  /** list.sort(key=get_buildorder) */
  function SortByOrder(es: seq<Entry>): seq<Entry> {
    if es == [] then [] else InsertByOrder(es[0], SortByOrder(es[1..]))
  }

  function EntrySize(e: Entry): (r: nat)
    ensures r > 0
    decreases e
  {
    match e
    case Rpm(_, _, _, _, _, _, _) => 1
    case Included(_, md) => 1 + ListSize(md.entries)
  }

  function ListSize(es: seq<Entry>): nat
    decreases es
  {
    if es == [] then 0 else EntrySize(es[0]) + ListSize(es[1..])
  }

  lemma {:induction false} InsertKeepsSize(e: Entry, es: seq<Entry>)
    ensures ListSize(InsertByOrder(e, es)) == EntrySize(e) + ListSize(es)
  {
    if es == [] || e.order <= es[0].order {
      assert ([e] + es)[1..] == es;
    } else {
      InsertKeepsSize(e, es[1..]);
      assert ([es[0]] + InsertByOrder(e, es[1..]))[1..] == InsertByOrder(e, es[1..]);
    }
  }

  lemma {:induction false} SortKeepsSize(es: seq<Entry>)
    ensures ListSize(SortByOrder(es)) == ListSize(es)
  {
    if es != [] {
      SortKeepsSize(es[1..]);
      InsertKeepsSize(es[0], SortByOrder(es[1..]));
    }
  }

  // ---- recording ----

  function RpmNames(es: seq<Entry>): set<string> {
    set e | e in es && e.Rpm? :: e.name
  }

  /** ComponentBuild.from_component_name: the first row of that package. */
  function Find(rows: seq<Component>, package: string): (r: Option<nat>)
    ensures r.Some? ==> r.value < |rows| && rows[r.value].package == package
    ensures r == None <==> forall i :: 0 <= i < |rows| ==> rows[i].package != package
  {
    if rows == [] then None
    else if rows[0].package == package then Some(0)
    else
      var r := Find(rows[1..], package);
      assert forall i :: 1 <= i < |rows| ==> rows[i] == rows[1..][i - 1];
      if r.Some? then Some(r.value + 1) else None
  }

  function NewRow(e: Entry, batch: nat, id: nat): Component
    requires e.Rpm?
  {
    Component(id, e.name, e.url, e.ref, batch, e.weight, e.buildonly, false, NotSubmitted, None, None, false, false, None)
  }

  /** The rows recorded so far and the batch reached; an empty included module returns no batch. */
  datatype Recorded = Recorded(rows: seq<Component>, batch: Option<nat>)

  /** What the column holds for a batch number: its default is 0. */
  function Column(batch: Option<nat>): nat {
    if batch == None then 0 else batch.value
  }

  /**
   An RPM: skip it if it is recorded with the same attributes, refuse it if they differ, else add it.
   No recorded batch is equal to an unknown one.
   */
  function RecordRpm(e: Entry, rows: seq<Component>, batch: Option<nat>): Result<seq<Component>, PyError>
    requires e.Rpm?
  {
    var found := Find(rows, e.name);
    if found == None then Success(rows + [NewRow(e, Column(batch), |rows|)])
    else
      var row := rows[found.value];
      if Some(row.batch) != batch || row.url != e.url || row.ref != e.ref then Failure(PlanningError) else Success(rows)
  }

  /** The batch in which an entry is recorded: one more whenever the buildorder changes. */
  function Bump(e: Entry, batch: Option<nat>, previous: Option<int>): Result<Option<nat>, PyError> {
    if previous == Some(e.order) then Success(batch)
    else if batch == None then Failure(PlanningError)
    else Success(Some(batch.value + 1))
  }

  function RecordEntries(
    es: seq<Entry>, main: seq<Entry>, rows: seq<Component>, batch: Option<nat>, previous: Option<int>)
    : Result<Recorded, PyError>
    decreases ListSize(es), 0
  {
    if es == [] then Success(Recorded(rows, batch))
    else
      var e := es[0];
      match Bump(e, batch, previous)
      case Failure(error) => Failure(error)
      case Success(bumped) =>
        if e.Included? then
          assert EntrySize(e) == 1 + ListSize(e.mmd.entries);
          match RecordModule(e.mmd, Some(main), rows, bumped, Some(e.order))
          case Failure(error) => Failure(error)
          case Success(r) => RecordEntries(es[1..], main, r.rows, r.batch, Some(e.order))
        else
          match RecordRpm(e, rows, bumped)
          case Failure(error) => Failure(error)
          case Success(rows') => RecordEntries(es[1..], main, rows', bumped, Some(e.order))
  }

  /** `main` is the entries of the outermost modulemd, None when `md` is that modulemd itself. */
  function RecordModule(
    md: ModuleMd, main: Option<seq<Entry>>, rows: seq<Component>, initial: Option<nat>, previous: Option<int>)
    : Result<Recorded, PyError>
    decreases ListSize(md.entries), 1
  {
    if main.Some? && RpmNames(main.value) * RpmNames(md.entries) != {} then Failure(PlanningError)
    else if md.entries == [] then Success(Recorded(rows, None))
    else
      SortKeepsSize(md.entries);
      RecordEntries(SortByOrder(md.entries), if main.Some? then main.value else md.entries, rows, initial, previous)
  }

  /** The call the init handler makes. */
  function RecordComponentBuilds(md: ModuleMd, rows: seq<Component>): Result<Recorded, PyError> {
    RecordModule(md, None, rows, Some(1), None)
  }

  /** The table of component builds of one module build. */
  class ComponentTable {
    var rows: seq<Component>

    constructor ()
      ensures rows == []
    {
      rows := [];
    }

    /** One RPM: a row that exists is checked, else a row is added. */
    method RecordOne(component: Entry, batch: Option<nat>) returns (recorded: bool)
      requires component.Rpm?
      modifies this
      ensures RecordRpm(component, old(rows), batch) == if recorded then Success(rows) else Failure(PlanningError)
    {
      var existing := Find(rows, component.name);
      if existing != None {
        var row := rows[existing.value];
        if Some(row.batch) != batch || row.url != component.url || row.ref != component.ref { return false; }
      } else {
        rows := rows + [NewRow(component, Column(batch), |rows|)];
      }
      recorded := true;
    }

    /** record_component_builds: the loop over the sorted components, which calls itself for included modules. */
    method RecordComponentBuilds(
      md: ModuleMd, main: Option<seq<Entry>>, initial: Option<nat>, previous: Option<int>)
      returns (r: Result<Option<nat>, PyError>)
      modifies this
      ensures var spec := RecordModule(md, main, old(rows), initial, previous);
        && (spec.Success? ==> r == Success(spec.value.batch) && rows == spec.value.rows)
        && (spec.Failure? ==> r == Failure(spec.error))
      decreases ListSize(md.entries)
    {
      if main.Some? && RpmNames(main.value) * RpmNames(md.entries) != {} { return Failure(PlanningError); }
      var mainEntries := if main.Some? then main.value else md.entries;
      if md.entries == [] { return Success(None); }
      var all := SortByOrder(md.entries);
      SortKeepsSize(md.entries);
      var batch: Option<nat> := initial;
      var previousOrder: Option<int> := previous;
      var i := 0;
      while i < |all|
        invariant 0 <= i <= |all|
        invariant ListSize(all[i..]) <= ListSize(md.entries)
        invariant RecordEntries(all, mainEntries, old(rows), initial, previous)
               == RecordEntries(all[i..], mainEntries, rows, batch, previousOrder)
      {
        var component := all[i];
        assert all[i..][0] == component && all[i..][1..] == all[i + 1..];
        if previousOrder != Some(component.order) {
          previousOrder := Some(component.order);
          if batch == None { return Failure(PlanningError); }
          batch := Some(batch.value + 1);
        }
        if component.Included? {
          var r' := RecordComponentBuilds(component.mmd, Some(mainEntries), batch, previousOrder);
          if r'.Failure? { return Failure(r'.error); }
          batch := r'.value;
        } else {
          var recorded := RecordOne(component, batch);
          if !recorded { return Failure(PlanningError); }
        }
        i := i + 1;
      }
      assert all[i..] == [];
      r := Success(batch);
    }
  }
}
