/**
 Look-ups of reusable components repeat: what get_reusable_component answers turns on the modulemds of both
 module builds and on the rebuild strategy, and on nothing that happens to their components meanwhile.
 */
module Offers {
  import opened Wrappers
  import opened Records
  import opened Reuse
  import Planning

  /** Rows as they were planned, whatever was built since; behind them at most module-build-macros, in batch 1. */
  predicate Alike(rows: seq<Component>, cs: seq<Component>) {
    && |rows| <= |cs|
    && (forall i :: 0 <= i < |rows| ==>
         !cs[i].IsMacros() && cs[i].package == rows[i].package
         && cs[i].batch == rows[i].batch && cs[i].ref == rows[i].ref)
    && (forall i :: |rows| <= i < |cs| ==> cs[i].IsMacros() && cs[i].batch == 1)
  }

  predicate AlikeSides(planned: Side, side: Side) {
    Alike(planned.components, side.components) && side.macros == planned.macros && side.arches == planned.arches
  }

  lemma {:induction false} FindsAlike(rows: seq<Component>, cs: seq<Component>, package: string)
    requires Alike(rows, cs) && package != MACROS
    ensures Planning.Find(cs, package) == Planning.Find(rows, package)
  {
    if rows != [] {
      assert forall i :: 0 <= i < |cs[1..]| ==> cs[1..][i] == cs[i + 1];
      assert forall i :: 0 <= i < |rows[1..]| ==> rows[1..][i] == rows[i + 1];
      FindsAlike(rows[1..], cs[1..], package);
    }
  }

  lemma ListedAlike(planned: Side, side: Side, batch: nat)
    requires AlikeSides(planned, side) && batch >= 2
    ensures AllListed(side, batch) <==> AllListed(planned, batch)
  {
    var rows, cs := planned.components, side.components;
    if AllListed(side, batch) {
      forall i | 0 <= i < |rows| && rows[i].batch == batch ensures rows[i].package in planned.arches {
        assert cs[i].batch == batch;
      }
    }
  }

  lemma KeysAlike(planned: Side, side: Side, batch: nat)
    requires AlikeSides(planned, side) && batch >= 2
    ensures BatchKeys(side, batch) == BatchKeys(planned, batch)
  {
    ListedAlike(planned, side, batch);
    if AllListed(planned, batch) {
      var rows, cs := planned.components, side.components;
      var a, c := BatchKeys(planned, batch).value, BatchKeys(side, batch).value;
      forall key ensures key in a <==> key in c {
        if key in a {
          var i :| 0 <= i < |rows| && rows[i].batch == batch && KeyOf(planned, i) == key;
          assert cs[i].batch == batch && KeyOf(side, i) == key;
        }
        if key in c {
          var i :| 0 <= i < |cs| && cs[i].batch == batch && KeyOf(side, i) == key;
          assert rows[i].batch == batch && KeyOf(planned, i) == key;
        }
      }
      assert a == c;
    }
  }

  lemma {:induction false} EarlierAlike(cur: Side, cur': Side, prev: Side, prev': Side, batch: nat)
    requires AlikeSides(cur, cur') && AlikeSides(prev, prev')
    ensures EarlierBatches(cur', prev', batch) == EarlierBatches(cur, prev, batch)
  {
    if batch > 2 {
      EarlierAlike(cur, cur', prev, prev', batch - 1);
      KeysAlike(cur, cur', batch - 1);
      KeysAlike(prev, prev', batch - 1);
    }
  }

  lemma OneAlike(rows: seq<Component>, cs: seq<Component>, package: string)
    requires Alike(rows, cs) && package != MACROS
    ensures One(cs, package) <==> One(rows, package)
  {
    if One(cs, package) {
      var i :| 0 <= i < |cs| && cs[i].package == package
        && forall j :: 0 <= j < |cs| && cs[j].package == package ==> j == i;
      assert rows[i].package == package;
      forall j | 0 <= j < |rows| && rows[j].package == package ensures j == i { assert cs[j].package == package; }
    }
    if One(rows, package) {
      var i :| 0 <= i < |rows| && rows[i].package == package
        && forall j :: 0 <= j < |rows| && rows[j].package == package ==> j == i;
      assert cs[i].package == package;
      forall j | 0 <= j < |cs| && cs[j].package == package ensures j == i {
        assert j < |rows| && rows[j].package == package;
      }
    }
  }

  predicate Found(r: Result<Option<Component>, PyError>) {
    r.Success? && r.value.Some?
  }

  lemma ComparedAlike(
    cur: Side, cur': Side, prev: Side, prev': Side, c: Component, c': Component, p: Component, p': Component)
    requires AlikeSides(cur, cur') && AlikeSides(prev, prev') && c'.batch == c.batch && p'.batch == p.batch
    ensures ComparedBefore(cur', prev', c', p') == ComparedBefore(cur, prev, c, p)
  {
    EarlierAlike(cur, cur', prev, prev', c.batch);
  }

  /** Two rows agree in all that the strategy compares. */
  predicate Agree(cur: Side, prev: Side, strategy: Strategy, c: Component, p: Component) {
    p.ref == c.ref && (strategy == ChangedAndAfter ==> ComparedBefore(cur, prev, c, p) == Success(true))
  }

  lemma FoundIff(cur: Side, prev: Side, strategy: Strategy, package: string)
    ensures var i, j := Planning.Find(cur.components, package), Planning.Find(prev.components, package);
      Found(ReusableComponent(cur, prev, strategy, package)) <==>
        && strategy != All && Comparable(cur.components, i) && Comparable(prev.components, j)
        && Agree(cur, prev, strategy, cur.components[i.value], prev.components[j.value])
        && SameArches(cur, prev, package) == Success(true) && One(prev.components, package)
  {}

  /** A component is found reusable on the rows of two module builds exactly when it is on their planned rows. */
  lemma FoundAlike(cur: Side, cur': Side, prev: Side, prev': Side, strategy: Strategy, package: string)
    requires AlikeSides(cur, cur') && AlikeSides(prev, prev') && package != MACROS
    ensures Found(ReusableComponent(cur', prev', strategy, package))
       <==> Found(ReusableComponent(cur, prev, strategy, package))
  {
    FindsAlike(cur.components, cur'.components, package);
    FindsAlike(prev.components, prev'.components, package);
    OneAlike(prev.components, prev'.components, package);
    FoundIff(cur, prev, strategy, package);
    FoundIff(cur', prev', strategy, package);
    var i, j := Planning.Find(cur.components, package), Planning.Find(prev.components, package);
    if i.Some? && j.Some? {
      ComparedAlike(cur, cur', prev, prev', cur.components[i.value], cur'.components[i.value],
                    prev.components[j.value], prev'.components[j.value]);
    }
  }

  // ---- on the modulemds alone ----

  /** A module build as it is right after planning. */
  function PlannedSide(md: ModuleMd): Side {
    var r := Planning.RecordComponentBuilds(md, []);
    Side(if r.Success? then r.value.rows else [], md.macros, ArchesOf(md.entries))
  }

  /** A component of that name is reusable, as far as the modulemds and the strategy go. */
  predicate PlansOffer(md: ModuleMd, prev: ModuleMd, strategy: Strategy, package: string) {
    Found(ReusableComponent(PlannedSide(md), PlannedSide(prev), strategy, package))
  }

  lemma OfferIsPlanned(m: Module, prev: Module, i: nat)
    requires i < |m.components|
    requires AlikeSides(PlannedSide(m.mmd), SideOf(m)) && AlikeSides(PlannedSide(prev.mmd), SideOf(prev))
    ensures Offer(m, prev, i).Some?
       <==> !m.components[i].IsMacros() && PlansOffer(m.mmd, prev.mmd, m.strategy, m.components[i].package)
  {
    if !m.components[i].IsMacros() {
      var package := m.components[i].package;
      FoundAlike(PlannedSide(m.mmd), SideOf(m), PlannedSide(prev.mmd), SideOf(prev), m.strategy, package);
    }
  }
}
