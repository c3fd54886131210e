/**
 Which RPMs of a module build's tag go to the module and which to its -devel module
 (_fill_in_rpms_list in module_build_service/builder/KojiContentGenerator.py).
 */
module RpmSplit {
  import opened Wrappers

  datatype Rpm = Rpm(
    name: string, arch: string, srpmName: string, srpmNevra: string,
    excludearch: set<string>, exclusivearch: set<string>, license: Option<string>)

  /** An RPM of the tag under its NEVRA; the tag is a list of these in the order of the dictionary. */
  datatype Item = Item(nevra: string, rpm: Rpm)

  /** Of the modulemd: the whitelist, the multilib architectures of each component, and the filters. */
  datatype Contents = Contents(whitelist: set<string>, components: map<string, set<string>>, filters: set<string>)

  /** The architecture the list is made for, its multilib architectures, and those of ExclusiveArch. */
  datatype Arches = Arches(arch: string, multilib: set<string>, exclusive: set<string>)

  const DEBUG_SUFFIXES := ["-debuginfo", "-debugsource"]

  predicate EndsWith(s: string, suffix: string) {
    |s| >= |suffix| && s[|s| - |suffix|..] == suffix
  }

  /** strip_suffixes: at most one suffix is removed. */
  function StripSuffixes(s: string, suffixes: seq<string>): string {
    if suffixes == [] then s
    else if EndsWith(s, suffixes[0]) then s[..|s| - |suffixes[0]|]
    else StripSuffixes(s, suffixes[1..])
  }

  predicate IsDebugName(name: string) {
    exists i :: 0 <= i < |DEBUG_SUFFIXES| && EndsWith(name, DEBUG_SUFFIXES[i])
  }

  predicate IsDebug(r: Rpm) {
    IsDebugName(r.name)
  }

  function MainName(r: Rpm): string {
    StripSuffixes(r.name, DEBUG_SUFFIXES)
  }

  predicate IsSource(r: Rpm) { r.arch == "src" }

  /** _should_include_rpm */
  predicate ShouldInclude(r: Rpm, mmd: Contents, a: Arches) {
    && (if mmd.whitelist != {} then r.srpmName in mmd.whitelist else r.srpmName in mmd.components)
    && r.name !in mmd.filters
    && (if r.srpmName in mmd.components
        then a.arch in mmd.components[r.srpmName] || r.arch !in a.multilib
        else r.arch == "noarch" || r.arch == a.arch)
  }

  /** A binary RPM for this architecture, neither excluded on it nor exclusive for another one. */
  predicate Eligible(r: Rpm, a: Arches) {
    && !IsSource(r)
    && (r.arch in a.multilib || r.arch == a.arch || r.arch == "noarch")
    && r.excludearch * a.exclusive == {}
    && (r.exclusivearch != {} ==> r.exclusivearch * a.exclusive != {})
  }

  /** What the decision about an RPM depends on beside the RPM: the names seen and the names included so far. */
  datatype Seen = Seen(binary: set<string>, names: set<string>, srpms: set<string>)

  /** A debug RPM follows its main RPM; without one, it follows its source RPM. */
  predicate Wanted(r: Rpm, seen: Seen, mmd: Contents, a: Arches) {
    && (IsDebug(r) ==>
         MainName(r) in seen.names || (MainName(r) !in seen.binary && r.srpmName in seen.srpms))
    && ShouldInclude(r, mmd, a)
  }

  function Include(r: Rpm, seen: Seen): Seen {
    seen.(names := seen.names + {r.name}, srpms := seen.srpms + {r.srpmName})
  }

  /** The RPMs that are included and those that are not, in the order they are looked at. */
  datatype Split = Split(included: seq<Item>, left: seq<Item>)

  function SplitRpms(order: seq<Item>, seen: Seen, mmd: Contents, a: Arches): Split {
    if order == [] then Split([], [])
    else
      var x := order[0];
      if !Eligible(x.rpm, a) then SplitRpms(order[1..], seen, mmd, a)
      else if Wanted(x.rpm, seen, mmd, a) then
        var rest := SplitRpms(order[1..], Include(x.rpm, seen), mmd, a);
        Split([x] + rest.included, rest.left)
      else
        var rest := SplitRpms(order[1..], seen, mmd, a);
        Split(rest.included, [x] + rest.left)
  }

  function OnlyIf(x: Item, debug: bool): seq<Item> {
    if IsDebug(x.rpm) == debug then [x] else []
  }

  /** Debug RPMs are looked at last. */
  function Filtered(items: seq<Item>, debug: bool): seq<Item> {
    if items == [] then [] else OnlyIf(items[0], debug) + Filtered(items[1..], debug)
  }

  function BinaryNames(items: seq<Item>): set<string> {
    set x | x in items && !IsSource(x.rpm) :: x.rpm.name
  }

  /** name to NEVRA of the source RPMs: of several with one name, the last one stays. */
  function SourceRpms(items: seq<Item>): map<string, string> {
    if items == [] then map[]
    else
      var before, x := SourceRpms(items[..|items| - 1]), items[|items| - 1];
      if IsSource(x.rpm) then before[x.rpm.name := x.nevra] else before
  }

  /** name of an included RPM to the NEVRA of its source RPM: again the last one stays. */
  function SourcesOf(included: seq<Item>): map<string, string> {
    if included == [] then map[]
    else
      var x := included[|included| - 1];
      SourcesOf(included[..|included| - 1])[x.rpm.name := x.rpm.srpmNevra]
  }

  function Nevras(items: seq<Item>): set<string> {
    set x | x in items :: x.nevra
  }

  function Licenses(items: seq<Item>): set<string> {
    set x | x in items && x.rpm.license.Some? && x.rpm.license.value != "" :: x.rpm.license.value
  }

  function SplitOf(items: seq<Item>, mmd: Contents, a: Arches): Split {
    SplitRpms(Filtered(items, false) + Filtered(items, true), Seen(BinaryNames(items), {}, {}), mmd, a)
  }

  /** The artifacts of the module (`devel` false) or of its -devel module. */
  function Artifacts(items: seq<Item>, mmd: Contents, a: Arches, devel: bool): set<string> {
    var split := SplitOf(items, mmd, a);
    if devel then Nevras(split.left) + (SourceRpms(items).Values - SourcesOf(split.included).Values)
    else Nevras(split.included) + SourcesOf(split.included).Values
  }

  // ---- the loops ----

  method FillInRpmsList(items: seq<Item>, mmd: Contents, a: Arches, devel: bool)
    returns (artifacts: set<string>, licenses: set<string>)
    ensures artifacts == Artifacts(items, mmd, a, devel)
    ensures licenses == Licenses(if devel then SplitOf(items, mmd, a).left else SplitOf(items, mmd, a).included)
  {
    var debugRpms, otherRpms, sourceRpms, binaryNames := Group(items);
    var seen := Seen(binaryNames, {}, {});
    var order := otherRpms + debugRpms;
    var nonDevelSources: map<string, string> := map[];
    artifacts, licenses := {}, {};
    ghost var whole := SplitOf(items, mmd, a);
    ghost var included: seq<Item>, left: seq<Item>, taken: seq<Item> := [], [], [];
    var k := 0;
    SplitStarts(items, order, seen, mmd, a);
    while k < |order|
      invariant 0 <= k <= |order|
      invariant SplitSoFar(whole, order, k, seen, mmd, a, included, left)
      invariant nonDevelSources == SourcesOf(included)
      invariant taken == if devel then left else included
      invariant artifacts == Nevras(taken) && licenses == Licenses(taken)
    {
      var x := order[k];
      SplitOneMore(whole, order, k, seen, mmd, a, included, left);
      if Eligible(x.rpm, a) {
        var wanted := Wanted(x.rpm, seen, mmd, a);
        if wanted {
          SourcesOfMore(included, x);
          nonDevelSources := nonDevelSources[x.rpm.name := x.rpm.srpmNevra];
          included, seen := included + [x], Include(x.rpm, seen);
        } else {
          left := left + [x];
        }
        if devel != wanted {
          artifacts, licenses := TakeRpm(x, artifacts, licenses, taken);
          taken := taken + [x];
        }
      }
      k := k + 1;
    }
    SplitComplete(whole, order, seen, mmd, a, included, left);
    ArtifactsAre(items, mmd, a, included, left);
    if devel {
      artifacts := artifacts + (sourceRpms.Values - nonDevelSources.Values);
    } else {
      artifacts := artifacts + nonDevelSources.Values;
    }
  }

  lemma SplitStarts(items: seq<Item>, order: seq<Item>, seen: Seen, mmd: Contents, a: Arches)
    requires order == Filtered(items, false) + Filtered(items, true) && seen == Seen(BinaryNames(items), {}, {})
    ensures SplitSoFar(SplitOf(items, mmd, a), order, 0, seen, mmd, a, [], [])
  {
    assert order[0..] == order;
  }

  lemma ArtifactsAre(items: seq<Item>, mmd: Contents, a: Arches, included: seq<Item>, left: seq<Item>)
    requires SplitOf(items, mmd, a) == Split(included, left)
    ensures Artifacts(items, mmd, a, true) == Nevras(left) + (SourceRpms(items).Values - SourcesOf(included).Values)
    ensures Artifacts(items, mmd, a, false) == Nevras(included) + SourcesOf(included).Values
  {}

  method TakeRpm(x: Item, artifacts: set<string>, licenses: set<string>, ghost taken: seq<Item>)
    returns (artifacts': set<string>, licenses': set<string>)
    requires artifacts == Nevras(taken) && licenses == Licenses(taken)
    ensures artifacts' == Nevras(taken + [x]) && licenses' == Licenses(taken + [x])
  {
    OneMoreTaken(taken, x);
    artifacts', licenses' := artifacts + {x.nevra}, licenses;
    if x.rpm.license.Some? && x.rpm.license.value != "" { licenses' := licenses' + {x.rpm.license.value}; }
  }

  lemma OneMoreTaken(items: seq<Item>, x: Item)
    ensures Nevras(items + [x]) == Nevras(items) + {x.nevra}
    ensures Licenses(items + [x]) == Licenses(items) +
      if x.rpm.license.Some? && x.rpm.license.value != "" then {x.rpm.license.value} else {}
  {
    assert forall y :: y in items + [x] <==> y in items || y == x;
  }

  lemma SourcesOfMore(included: seq<Item>, x: Item)
    ensures SourcesOf(included + [x]) == SourcesOf(included)[x.rpm.name := x.rpm.srpmNevra]
  {
    assert (included + [x])[..|included|] == included;
  }

  /** What was included and left so far, and what the rest of the loop adds. */
  predicate SplitSoFar(
    whole: Split, order: seq<Item>, k: nat, seen: Seen, mmd: Contents, a: Arches, included: seq<Item>, left: seq<Item>)
    requires k <= |order|
  {
    var rest := SplitRpms(order[k..], seen, mmd, a);
    whole == Split(included + rest.included, left + rest.left)
  }

  lemma SplitOneMore(
    whole: Split, order: seq<Item>, k: nat, seen: Seen, mmd: Contents, a: Arches, included: seq<Item>, left: seq<Item>)
    requires k < |order| && SplitSoFar(whole, order, k, seen, mmd, a, included, left)
    ensures var x := order[k];
      if !Eligible(x.rpm, a) then SplitSoFar(whole, order, k + 1, seen, mmd, a, included, left)
      else if Wanted(x.rpm, seen, mmd, a)
      then SplitSoFar(whole, order, k + 1, Include(x.rpm, seen), mmd, a, included + [x], left)
      else SplitSoFar(whole, order, k + 1, seen, mmd, a, included, left + [x])
  {
    var x := order[k];
    assert order[k..][0] == x && order[k..][1..] == order[k + 1..];
    var wanted := Eligible(x.rpm, a) && Wanted(x.rpm, seen, mmd, a);
    var rest := SplitRpms(order[k + 1..], if wanted then Include(x.rpm, seen) else seen, mmd, a);
    assert included + ([x] + rest.included) == (included + [x]) + rest.included;
    assert left + ([x] + rest.left) == (left + [x]) + rest.left;
  }

  lemma SplitComplete(
    whole: Split, order: seq<Item>, seen: Seen, mmd: Contents, a: Arches, included: seq<Item>, left: seq<Item>)
    requires SplitSoFar(whole, order, |order|, seen, mmd, a, included, left)
    ensures whole == Split(included, left)
  {
    assert order[|order|..] == [];
    assert included + [] == included && left + [] == left;
  }

  /** The first loop: debug RPMs apart from the others, and the names in the tag. */
  method Group(items: seq<Item>)
    returns (debugRpms: seq<Item>, otherRpms: seq<Item>, sourceRpms: map<string, string>, binaryNames: set<string>)
    ensures debugRpms == Filtered(items, true) && otherRpms == Filtered(items, false)
    ensures sourceRpms == SourceRpms(items) && binaryNames == BinaryNames(items)
  {
    debugRpms, otherRpms, sourceRpms, binaryNames := [], [], map[], {};
    var k := 0;
    while k < |items|
      invariant 0 <= k <= |items|
      invariant debugRpms == Filtered(items[..k], true) && otherRpms == Filtered(items[..k], false)
      invariant sourceRpms == SourceRpms(items[..k]) && binaryNames == BinaryNames(items[..k])
    {
      var x := items[k];
      OneMoreGrouped(items, k);
      if IsSource(x.rpm) {
        sourceRpms := sourceRpms[x.rpm.name := x.nevra];
      } else {
        binaryNames := binaryNames + {x.rpm.name};
      }
      if IsDebug(x.rpm) { debugRpms := debugRpms + [x]; } else { otherRpms := otherRpms + [x]; }
      k := k + 1;
    }
    assert items[..k] == items;
  }

  lemma OneMoreGrouped(items: seq<Item>, k: nat)
    requires k < |items|
    ensures var before, after, x := items[..k], items[..k + 1], items[k];
      && Filtered(after, true) == (if IsDebug(x.rpm) then Filtered(before, true) + [x] else Filtered(before, true))
      && Filtered(after, false) == (if IsDebug(x.rpm) then Filtered(before, false) else Filtered(before, false) + [x])
      && SourceRpms(after) == (if IsSource(x.rpm) then SourceRpms(before)[x.rpm.name := x.nevra] else SourceRpms(before))
      && BinaryNames(after) == (if IsSource(x.rpm) then BinaryNames(before) else BinaryNames(before) + {x.rpm.name})
  {
    var before, after, x := items[..k], items[..k + 1], items[k];
    assert after == before + [x] && after[..|after| - 1] == before;
    FilteredMore(before, x, true);
    FilteredMore(before, x, false);
    BinaryNamesMore(before, x);
  }

  lemma BinaryNamesMore(items: seq<Item>, x: Item)
    ensures BinaryNames(items + [x]) == BinaryNames(items) + if IsSource(x.rpm) then {} else {x.rpm.name}
  {
    assert forall y :: y in items + [x] <==> y in items || y == x;
  }

  lemma FilteredOne(items: seq<Item>, x: Item, debug: bool)
    requires items == [x]
    ensures Filtered(items, debug) == OnlyIf(x, debug)
  {
    assert items[1..] == [];
  }

  lemma Regroup(a: seq<Item>, b: seq<Item>, c: seq<Item>)
    ensures a + (b + c) == (a + b) + c
  {}

  lemma {:induction false} FilteredMore(items: seq<Item>, x: Item, debug: bool)
    ensures Filtered(items + [x], debug) == Filtered(items, debug) + OnlyIf(x, debug)
  {
    if items == [] {
      FilteredOne(items + [x], x, debug);
    } else {
      assert (items + [x])[0] == items[0] && (items + [x])[1..] == items[1..] + [x];
      FilteredMore(items[1..], x, debug);
      Regroup(OnlyIf(items[0], debug), Filtered(items[1..], debug), OnlyIf(x, debug));
    }
  }

  // ---- the module and its -devel module are complementary ----

  lemma {:induction false} FilteredHolds(items: seq<Item>, debug: bool, x: Item)
    ensures x in Filtered(items, debug) <==> x in items && IsDebug(x.rpm) == debug
  {
    if items != [] {
      FilteredHolds(items[1..], debug, x);
      assert items == [items[0]] + items[1..];
    }
  }

  /** The order in which the RPMs are looked at. */
  function LookedAt(items: seq<Item>): seq<Item> {
    Filtered(items, false) + Filtered(items, true)
  }

  lemma LooksAtAll(items: seq<Item>, x: Item)
    ensures x in LookedAt(items) <==> x in items
  {
    FilteredHolds(items, true, x);
    FilteredHolds(items, false, x);
  }

  /** Every eligible RPM is included or left, and nothing else is. */
  lemma {:induction false} SplitCovers(order: seq<Item>, seen: Seen, mmd: Contents, a: Arches, x: Item)
    ensures var s := SplitRpms(order, seen, mmd, a);
      x in s.included || x in s.left <==> x in order && Eligible(x.rpm, a)
  {
    if order != [] {
      var y := order[0];
      assert order == [y] + order[1..];
      SplitCovers(order[1..], Include(y.rpm, seen), mmd, a, x);
      SplitCovers(order[1..], seen, mmd, a, x);
    }
  }

  /** One entry per NEVRA, as the keys of a dictionary are. */
  predicate Keyed(items: seq<Item>) {
    forall i, j :: 0 <= i < j < |items| ==> items[i].nevra != items[j].nevra
  }

  lemma {:induction false} SplitDisjoint(order: seq<Item>, seen: Seen, mmd: Contents, a: Arches, x: Item)
    requires Keyed(order)
    ensures var s := SplitRpms(order, seen, mmd, a); !(x in s.included && x in s.left)
  {
    if order != [] {
      var y := order[0];
      SplitDisjoint(order[1..], Include(y.rpm, seen), mmd, a, x);
      SplitDisjoint(order[1..], seen, mmd, a, x);
      SplitCovers(order[1..], Include(y.rpm, seen), mmd, a, x);
      SplitCovers(order[1..], seen, mmd, a, x);
      assert y !in order[1..];
    }
  }

  lemma {:induction false} FilteredKeyed(items: seq<Item>, debug: bool)
    requires Keyed(items)
    ensures Keyed(Filtered(items, debug))
  {
    if items != [] {
      FilteredKeyed(items[1..], debug);
      var rest := Filtered(items[1..], debug);
      forall k | 0 <= k < |rest| ensures rest[k].nevra != items[0].nevra {
        assert rest[k] in rest;
        FilteredHolds(items[1..], debug, rest[k]);
      }
    }
  }

  lemma LookedAtKeyed(items: seq<Item>)
    requires Keyed(items)
    ensures Keyed(LookedAt(items))
  {
    var main, debug := Filtered(items, false), Filtered(items, true);
    FilteredKeyed(items, false);
    FilteredKeyed(items, true);
    forall i, j | 0 <= i < |main| && 0 <= j < |debug| ensures main[i].nevra != debug[j].nevra {
      assert main[i] in main && debug[j] in debug;
      FilteredHolds(items, false, main[i]);
      FilteredHolds(items, true, debug[j]);
      if main[i].nevra == debug[j].nevra { SameNevra(items, main[i], debug[j]); }
    }
  }

  /** The NEVRA of a source RPM never is that of a binary RPM. */
  predicate SourcesAreSources(items: seq<Item>) {
    forall x, y :: x in items && y in items && y.nevra == x.rpm.srpmNevra ==> IsSource(y.rpm)
  }

  lemma SameNevra(items: seq<Item>, x: Item, y: Item)
    requires Keyed(items) && x in items && y in items && x.nevra == y.nevra
    ensures x == y
  {
    var i :| 0 <= i < |items| && items[i] == x;
    var j :| 0 <= j < |items| && items[j] == y;
  }

  lemma {:induction false} SourcesOfNames(included: seq<Item>, nevra: string)
    ensures nevra in SourcesOf(included).Values ==> exists x :: x in included && x.rpm.srpmNevra == nevra
  {
    if included != [] && nevra in SourcesOf(included).Values {
      var before, x := included[..|included| - 1], included[|included| - 1];
      SourcesOfNames(before, nevra);
      if nevra != x.rpm.srpmNevra { assert nevra in SourcesOf(before).Values; }
    }
  }

  lemma {:induction false} SourceRpmsAre(items: seq<Item>, nevra: string)
    ensures nevra in SourceRpms(items).Values ==> exists x :: x in items && IsSource(x.rpm) && x.nevra == nevra
  {
    if items != [] && nevra in SourceRpms(items).Values {
      var before, x := items[..|items| - 1], items[|items| - 1];
      SourceRpmsAre(before, nevra);
      if !(IsSource(x.rpm) && nevra == x.nevra) { assert nevra in SourceRpms(before).Values; }
    }
  }

  lemma NevraIn(items: seq<Item>, part: seq<Item>, x: Item)
    requires Keyed(items) && x in items && forall y :: y in part ==> y in items
    ensures x.nevra in Nevras(part) <==> x in part
  {
    if x.nevra in Nevras(part) {
      var y :| y in part && y.nevra == x.nevra;
      SameNevra(items, x, y);
    }
  }

  /** What is looked at, and where it ends up. */
  lemma SplitFacts(items: seq<Item>, mmd: Contents, a: Arches, x: Item)
    requires Keyed(items)
    ensures var s := SplitOf(items, mmd, a);
      && (x in s.included || x in s.left <==> x in items && Eligible(x.rpm, a))
      && !(x in s.included && x in s.left)
  {
    var seen := Seen(BinaryNames(items), {}, {});
    LooksAtAll(items, x);
    SplitCovers(LookedAt(items), seen, mmd, a, x);
    LookedAtKeyed(items);
    SplitDisjoint(LookedAt(items), seen, mmd, a, x);
  }

  lemma BinaryIsNoSource(items: seq<Item>, mmd: Contents, a: Arches, x: Item)
    requires Keyed(items) && SourcesAreSources(items) && x in items && !IsSource(x.rpm)
    ensures x.nevra !in SourceRpms(items).Values && x.nevra !in SourcesOf(SplitOf(items, mmd, a).included).Values
  {
    SourceRpmsAre(items, x.nevra);
    forall y | y in items && y.nevra == x.nevra ensures y == x { SameNevra(items, x, y); }
    var included := SplitOf(items, mmd, a).included;
    SourcesOfNames(included, x.nevra);
    if x.nevra in SourcesOf(included).Values {
      var y :| y in included && y.rpm.srpmNevra == x.nevra;
      SplitFacts(items, mmd, a, y);
    }
  }

  /**
   Every binary RPM that passes the architecture filters is in exactly one of the artifact lists of the
   module and of its -devel module; one that does not pass is in neither.
   */
  lemma BinaryRpmsAreComplementary(items: seq<Item>, mmd: Contents, a: Arches, x: Item)
    requires Keyed(items) && SourcesAreSources(items) && x in items && !IsSource(x.rpm)
    ensures var normal, devel := x.nevra in Artifacts(items, mmd, a, false), x.nevra in Artifacts(items, mmd, a, true);
      && (Eligible(x.rpm, a) ==> normal != devel)
      && (!Eligible(x.rpm, a) ==> !normal && !devel)
  {
    var s := SplitOf(items, mmd, a);
    forall y ensures (y in s.included || y in s.left <==> y in items && Eligible(y.rpm, a))
      && !(y in s.included && y in s.left)
    {
      SplitFacts(items, mmd, a, y);
    }
    NevraIn(items, s.included, x);
    NevraIn(items, s.left, x);
    BinaryIsNoSource(items, mmd, a, x);
  }

  /** No later source RPM of the tag has the same name. */
  predicate LastOfName(items: seq<Item>, s: Item) {
    exists i :: 0 <= i < |items| && items[i] == s
      && forall j :: i < j < |items| && IsSource(items[j].rpm) ==> items[j].rpm.name != s.rpm.name
  }

  lemma {:induction false} LastIsKept(items: seq<Item>, s: Item)
    requires Keyed(items) && s in items && IsSource(s.rpm)
    ensures s.nevra in SourceRpms(items).Values <==> LastOfName(items, s)
    ensures LastOfName(items, s) ==> s.rpm.name in SourceRpms(items) && SourceRpms(items)[s.rpm.name] == s.nevra
  {
    var before, x := items[..|items| - 1], items[|items| - 1];
    if x == s {
      assert LastOfName(items, s);
      assert s.rpm.name in SourceRpms(items).Keys;
    } else {
      assert s in before;
      LastIsKept(before, s);
      KeptOneMore(before, x, s);
      LastOneMore(before, x, s);
      assert items == before + [x];
    }
  }

  lemma LastOneMore(before: seq<Item>, x: Item, s: Item)
    requires Keyed(before + [x]) && s in before
    ensures LastOfName(before + [x], s) <==>
      LastOfName(before, s) && !(IsSource(x.rpm) && x.rpm.name == s.rpm.name)
  {
    var items := before + [x];
    if LastOfName(items, s) {
      var i :| 0 <= i < |items| && items[i] == s
        && forall j :: i < j < |items| && IsSource(items[j].rpm) ==> items[j].rpm.name != s.rpm.name;
      var p :| 0 <= p < |before| && before[p] == s;
      assert items[p] == s;
      assert i == p;
      assert items[|before|] == x;
      forall j | i < j < |before| && IsSource(before[j].rpm) ensures before[j].rpm.name != s.rpm.name {
        assert items[j] == before[j];
      }
    }
    if LastOfName(before, s) && !(IsSource(x.rpm) && x.rpm.name == s.rpm.name) {
      var i :| 0 <= i < |before| && before[i] == s
        && forall j :: i < j < |before| && IsSource(before[j].rpm) ==> before[j].rpm.name != s.rpm.name;
      assert items[i] == s;
    }
  }

  /** A NEVRA that is still kept was kept under the same name before. */
  lemma KeptBefore(before: seq<Item>, x: Item, s: Item, key: string)
    requires Keyed(before + [x]) && s in before && IsSource(s.rpm)
    requires key in SourceRpms(before + [x]) && SourceRpms(before + [x])[key] == s.nevra
    ensures key == s.rpm.name && key in SourceRpms(before) && SourceRpms(before)[key] == s.nevra
    ensures !(IsSource(x.rpm) && x.rpm.name == key)
  {
    var items := before + [x];
    assert items[..|items| - 1] == before && items[|before|] == x;
    var i :| 0 <= i < |before| && before[i] == s;
    assert items[i] == s;
    if IsSource(x.rpm) { assert SourceRpms(items)[x.rpm.name] == x.nevra; }
    ValueHasItsName(before, key);
    var y :| y in before && IsSource(y.rpm) && y.nevra == s.nevra && y.rpm.name == key;
    var n :| 0 <= n < |before| && before[n] == y;
    assert items[n] == y;
  }

  lemma KeptOneMore(before: seq<Item>, x: Item, s: Item)
    requires Keyed(before + [x]) && s in before && IsSource(s.rpm)
    requires s.nevra in SourceRpms(before).Values ==>
      s.rpm.name in SourceRpms(before) && SourceRpms(before)[s.rpm.name] == s.nevra
    ensures var m := SourceRpms(before + [x]);
      && (s.nevra in m.Values <==>
           s.nevra in SourceRpms(before).Values && !(IsSource(x.rpm) && x.rpm.name == s.rpm.name))
      && (s.nevra in m.Values ==> s.rpm.name in m && m[s.rpm.name] == s.nevra)
  {
    var items := before + [x];
    assert items[..|items| - 1] == before;
    var m := SourceRpms(items);
    if s.nevra in m.Values {
      var key :| key in m && m[key] == s.nevra;
      KeptBefore(before, x, s, key);
    }
    if s.nevra in SourceRpms(before).Values && !(IsSource(x.rpm) && x.rpm.name == s.rpm.name) {
      assert s.rpm.name in m.Keys && m[s.rpm.name] == s.nevra;
    }
  }

  lemma {:induction false} ValueHasItsName(items: seq<Item>, key: string)
    requires key in SourceRpms(items)
    ensures exists y :: y in items && IsSource(y.rpm) && y.nevra == SourceRpms(items)[key] && y.rpm.name == key
  {
    var before, x := items[..|items| - 1], items[|items| - 1];
    if !(IsSource(x.rpm) && x.rpm.name == key) { ValueHasItsName(before, key); }
  }

  /**
   A source RPM of the tag is never in both lists; it is in one of them exactly when it is the last source
   RPM of its name, or an included RPM was built from it.
   */
  lemma SourceRpmsAreComplementaryIff(items: seq<Item>, mmd: Contents, a: Arches, s: Item)
    requires Keyed(items) && s in items && IsSource(s.rpm)
    ensures var normal, devel := s.nevra in Artifacts(items, mmd, a, false), s.nevra in Artifacts(items, mmd, a, true);
      && !(normal && devel)
      && (normal || devel <==>
           LastOfName(items, s) || s.nevra in SourcesOf(SplitOf(items, mmd, a).included).Values)
  {
    var split := SplitOf(items, mmd, a);
    forall y ensures y in split.included || y in split.left <==> y in items && Eligible(y.rpm, a) {
      SplitFacts(items, mmd, a, y);
    }
    NevraIn(items, split.included, s);
    NevraIn(items, split.left, s);
    LastIsKept(items, s);
  }

  predicate UniqueSourceNames(items: seq<Item>) {
    forall i, j :: 0 <= i < j < |items| && IsSource(items[i].rpm) && IsSource(items[j].rpm) ==>
      items[i].rpm.name != items[j].rpm.name
  }

  lemma UniqueIsLast(items: seq<Item>, s: Item)
    requires UniqueSourceNames(items) && s in items && IsSource(s.rpm)
    ensures LastOfName(items, s)
  {
    var i :| 0 <= i < |items| && items[i] == s;
  }

  /** With one source RPM per name, every source RPM is in exactly one of the two lists. */
  lemma SourceRpmsAreComplementary(items: seq<Item>, mmd: Contents, a: Arches, s: Item)
    requires Keyed(items) && UniqueSourceNames(items) && s in items && IsSource(s.rpm)
    ensures (s.nevra in Artifacts(items, mmd, a, false)) != (s.nevra in Artifacts(items, mmd, a, true))
  {
    SourceRpmsAreComplementaryIff(items, mmd, a, s);
    UniqueIsLast(items, s);
  }

  /** Without it one may be lost: of two source RPMs of one name, the first is in neither list. */
  lemma FirstOfTwoSourcesIsLost(mmd: Contents, a: Arches)
    ensures var first := Item("foo-1-1.src", Rpm("foo", "src", "foo", "", {}, {}, None));
      var items := [first, Item("foo-2-1.src", Rpm("foo", "src", "foo", "", {}, {}, None))];
      && first.nevra !in Artifacts(items, mmd, a, false)
      && first.nevra !in Artifacts(items, mmd, a, true)
  {
    var first := Item("foo-1-1.src", Rpm("foo", "src", "foo", "", {}, {}, None));
    var items := [first, Item("foo-2-1.src", Rpm("foo", "src", "foo", "", {}, {}, None))];
    SourceRpmsAreComplementaryIff(items, mmd, a, first);
    var included := SplitOf(items, mmd, a).included;
    if included != [] {
      SplitFacts(items, mmd, a, included[0]);
      assert false;
    }
    assert items[1].nevra != first.nevra;
  }

  // ---- the order of the dictionary ----

  predicate IsMainOf(main: Rpm, debug: Rpm) {
    !IsSource(main) && !IsSource(debug) && IsDebug(debug) && main.name == MainName(debug)
  }

  /**
   Binary RPMs of one name have one source RPM, a debug RPM has that of its main RPM, and no main name
   carries a debug suffix itself.
   */
  predicate Consistent(items: seq<Item>) {
    && (forall x, y :: x in items && y in items && !IsSource(x.rpm) && !IsSource(y.rpm) && x.rpm.name == y.rpm.name ==>
         x.rpm.srpmNevra == y.rpm.srpmNevra)
    && (forall x, y :: x in items && y in items && IsMainOf(y.rpm, x.rpm) ==> x.rpm.srpmName == y.rpm.srpmName)
    && (forall x :: x in items && IsDebug(x.rpm) ==> !IsDebugName(MainName(x.rpm)))
  }

  /** Included for its own sake: a main RPM that passes every filter. */
  predicate IsMain(x: Item, mmd: Contents, a: Arches) {
    !IsDebug(x.rpm) && Eligible(x.rpm, a) && ShouldInclude(x.rpm, mmd, a)
  }

  /** What the debug RPMs are judged by, read off the tag without an order. */
  function MainSeen(items: seq<Item>, mmd: Contents, a: Arches): Seen {
    Seen(BinaryNames(items), MainNames(items, mmd, a), MainSrpms(items, mmd, a))
  }

  predicate Chosen(items: seq<Item>, mmd: Contents, a: Arches, x: Item) {
    x in items && Eligible(x.rpm, a) && Wanted(x.rpm, MainSeen(items, mmd, a), mmd, a)
  }

  /** The names and source names seen after the RPMs of `order`. */
  function SeenAfter(order: seq<Item>, seen: Seen, mmd: Contents, a: Arches): Seen {
    if order == [] then seen
    else
      var x := order[0];
      SeenAfter(order[1..], if Eligible(x.rpm, a) && Wanted(x.rpm, seen, mmd, a) then Include(x.rpm, seen) else seen, mmd, a)
  }

  lemma {:induction false} SplitInTwo(first: seq<Item>, second: seq<Item>, seen: Seen, mmd: Contents, a: Arches)
    ensures SplitRpms(first + second, seen, mmd, a).included ==
      SplitRpms(first, seen, mmd, a).included
      + SplitRpms(second, SeenAfter(first, seen, mmd, a), mmd, a).included
  {
    if first == [] {
      assert first + second == second;
    } else {
      var x := first[0];
      assert (first + second)[0] == x && (first + second)[1..] == first[1..] + second;
      var next := if Eligible(x.rpm, a) && Wanted(x.rpm, seen, mmd, a) then Include(x.rpm, seen) else seen;
      SplitInTwo(first[1..], second, next, mmd, a);
    }
  }

  /** Main RPMs are judged each by itself. */
  lemma {:induction false} MainRpms(order: seq<Item>, seen: Seen, mmd: Contents, a: Arches, x: Item)
    requires forall y :: y in order ==> !IsDebug(y.rpm)
    ensures x in SplitRpms(order, seen, mmd, a).included <==> x in order && IsMain(x, mmd, a)
  {
    if order != [] {
      var y, rest := order[0], order[1..];
      assert order == [y] + rest;
      MainRpms(rest, if IsMain(y, mmd, a) then Include(y.rpm, seen) else seen, mmd, a, x);
    }
  }

  function MainNames(order: seq<Item>, mmd: Contents, a: Arches): set<string> {
    set x | x in order && IsMain(x, mmd, a) :: x.rpm.name
  }

  function MainSrpms(order: seq<Item>, mmd: Contents, a: Arches): set<string> {
    set x | x in order && IsMain(x, mmd, a) :: x.rpm.srpmName
  }

  lemma MainSetsSplit(order: seq<Item>, mmd: Contents, a: Arches)
    requires order != []
    ensures MainNames(order, mmd, a) ==
      (if IsMain(order[0], mmd, a) then {order[0].rpm.name} else {}) + MainNames(order[1..], mmd, a)
    ensures MainSrpms(order, mmd, a) ==
      (if IsMain(order[0], mmd, a) then {order[0].rpm.srpmName} else {}) + MainSrpms(order[1..], mmd, a)
  {
    assert forall y :: y in order <==> y == order[0] || y in order[1..];
  }

  lemma MainWanted(y: Item, seen: Seen, mmd: Contents, a: Arches)
    requires !IsDebug(y.rpm)
    ensures Eligible(y.rpm, a) && Wanted(y.rpm, seen, mmd, a) <==> IsMain(y, mmd, a)
  {}

  /** What the main RPMs of `order` add to what was seen. */
  function SeenWith(seen: Seen, order: seq<Item>, mmd: Contents, a: Arches): Seen {
    Seen(seen.binary, seen.names + MainNames(order, mmd, a), seen.srpms + MainSrpms(order, mmd, a))
  }

  lemma SeenWithSplits(seen: Seen, order: seq<Item>, mmd: Contents, a: Arches)
    requires order != []
    ensures var next := if IsMain(order[0], mmd, a) then Include(order[0].rpm, seen) else seen;
      SeenWith(seen, order, mmd, a) == SeenWith(next, order[1..], mmd, a)
  {
    MainSetsSplit(order, mmd, a);
  }

  lemma {:induction false} MainSeenAfter(order: seq<Item>, seen: Seen, mmd: Contents, a: Arches)
    requires forall y :: y in order ==> !IsDebug(y.rpm)
    ensures SeenAfter(order, seen, mmd, a) == SeenWith(seen, order, mmd, a)
  {
    if order != [] {
      var y, rest := order[0], order[1..];
      MainWanted(y, seen, mmd, a);
      SeenWithSplits(seen, order, mmd, a);
      MainSeenAfter(rest, if IsMain(y, mmd, a) then Include(y.rpm, seen) else seen, mmd, a);
    }
  }

  /** While debug RPMs are looked at, nothing changes that another debug RPM is judged by. */
  ghost predicate SameForDebug(seen: Seen, base: Seen) {
    && seen.binary == base.binary && seen.srpms == base.srpms
    && forall n :: !IsDebugName(n) ==> (n in seen.names <==> n in base.names)
  }

  lemma {:induction false} DebugRpms(
    order: seq<Item>, seen: Seen, items: seq<Item>, mmd: Contents, a: Arches)
    requires forall x :: x in order ==> x in items && IsDebug(x.rpm)
    requires Consistent(items) && SameForDebug(seen, MainSeen(items, mmd, a))
    ensures forall x :: x in SplitRpms(order, seen, mmd, a).included <==> x in order && Chosen(items, mmd, a, x)
  {
    if order != [] {
      var x, rest, base := order[0], order[1..], MainSeen(items, mmd, a);
      assert order == [x] + rest;
      assert Wanted(x.rpm, seen, mmd, a) == Wanted(x.rpm, base, mmd, a);
      if Eligible(x.rpm, a) && Wanted(x.rpm, seen, mmd, a) {
        DebugKeepsSeen(x, seen, items, mmd, a);
        DebugRpms(rest, Include(x.rpm, seen), items, mmd, a);
      } else {
        DebugRpms(rest, seen, items, mmd, a);
      }
    }
  }

  lemma DebugKeepsSeen(x: Item, seen: Seen, items: seq<Item>, mmd: Contents, a: Arches)
    requires x in items && IsDebug(x.rpm) && Eligible(x.rpm, a) && Wanted(x.rpm, seen, mmd, a)
    requires Consistent(items) && SameForDebug(seen, MainSeen(items, mmd, a))
    ensures SameForDebug(Include(x.rpm, seen), MainSeen(items, mmd, a))
  {
    var base := MainSeen(items, mmd, a);
    if MainName(x.rpm) in seen.names {
      assert MainName(x.rpm) in base.names;
      var y :| y in items && IsMain(y, mmd, a) && y.rpm.name == MainName(x.rpm);
      assert x.rpm.srpmName == y.rpm.srpmName;
    }
    assert x.rpm.srpmName in base.srpms;
    assert seen.srpms + {x.rpm.srpmName} == seen.srpms;
  }

  /** Hence what is included does not depend on the order: it is what is chosen from the tag as a set. */
  lemma IncludedIsChosen(items: seq<Item>, mmd: Contents, a: Arches)
    requires Consistent(items)
    ensures forall x :: x in SplitOf(items, mmd, a).included <==> Chosen(items, mmd, a, x)
  {
    var main, debug, seen := Filtered(items, false), Filtered(items, true), Seen(BinaryNames(items), {}, {});
    forall x ensures (x in main <==> x in items && !IsDebug(x.rpm)) && (x in debug <==> x in items && IsDebug(x.rpm)) {
      FilteredHolds(items, false, x);
      FilteredHolds(items, true, x);
    }
    SplitInTwo(main, debug, seen, mmd, a);
    forall x ensures x in SplitRpms(main, seen, mmd, a).included <==> x in main && IsMain(x, mmd, a) {
      MainRpms(main, seen, mmd, a, x);
    }
    MainSeenAfter(main, seen, mmd, a);
    MainSeenIs(items, main, mmd, a);
    DebugRpms(debug, SeenAfter(main, seen, mmd, a), items, mmd, a);
    forall x ensures x in SplitOf(items, mmd, a).included <==> Chosen(items, mmd, a, x) {
      if x in items && !IsDebug(x.rpm) { assert Chosen(items, mmd, a, x) <==> IsMain(x, mmd, a); }
    }
  }

  lemma MainSeenIs(items: seq<Item>, main: seq<Item>, mmd: Contents, a: Arches)
    requires forall x :: x in main <==> x in items && !IsDebug(x.rpm)
    ensures MainNames(main, mmd, a) == MainNames(items, mmd, a) && MainSrpms(main, mmd, a) == MainSrpms(items, mmd, a)
  {}

  lemma {:induction false} SourcesOfAre(included: seq<Item>, nevra: string)
    requires forall x, y :: x in included && y in included && x.rpm.name == y.rpm.name ==> x.rpm.srpmNevra == y.rpm.srpmNevra
    ensures nevra in SourcesOf(included).Values <==> exists x :: x in included && x.rpm.srpmNevra == nevra
    ensures forall x :: x in included ==>
      x.rpm.name in SourcesOf(included) && SourcesOf(included)[x.rpm.name] == x.rpm.srpmNevra
  {
    if included != [] {
      var before, last := included[..|included| - 1], included[|included| - 1];
      assert included == before + [last];
      SourcesOfAre(before, nevra);
      SourcesOfNames(included, nevra);
      forall x | x in included ensures
        x.rpm.name in SourcesOf(included) && SourcesOf(included)[x.rpm.name] == x.rpm.srpmNevra
      {
        if x != last { assert x in before; }
      }
      if x :| x in included && x.rpm.srpmNevra == nevra {
        assert SourcesOf(included)[x.rpm.name] == nevra;
      }
    }
  }

  /** The module's own list, as a set of the tag: the chosen RPMs and their source RPMs. */
  lemma NormalArtifacts(items: seq<Item>, mmd: Contents, a: Arches, nevra: string)
    requires Consistent(items)
    ensures nevra in Artifacts(items, mmd, a, false) <==>
      exists x :: Chosen(items, mmd, a, x) && (x.nevra == nevra || x.rpm.srpmNevra == nevra)
  {
    var included := SplitOf(items, mmd, a).included;
    IncludedIsChosen(items, mmd, a);
    SourcesOfAre(included, nevra);
  }

  /** The -devel list: the eligible RPMs that are not chosen, and the source RPMs nothing chosen was built from. */
  lemma DevelArtifacts(items: seq<Item>, mmd: Contents, a: Arches, nevra: string)
    requires Consistent(items) && Keyed(items) && UniqueSourceNames(items)
    ensures nevra in Artifacts(items, mmd, a, true) <==>
      || (exists x :: x in items && Eligible(x.rpm, a) && !Chosen(items, mmd, a, x) && x.nevra == nevra)
      || (exists s :: s in items && IsSource(s.rpm) && s.nevra == nevra
                      && forall x :: Chosen(items, mmd, a, x) ==> x.rpm.srpmNevra != nevra)
  {
    var split := SplitOf(items, mmd, a);
    IncludedIsChosen(items, mmd, a);
    forall x ensures (x in split.included || x in split.left <==> x in items && Eligible(x.rpm, a))
      && !(x in split.included && x in split.left)
    {
      SplitFacts(items, mmd, a, x);
    }
    SourcesOfAre(split.included, nevra);
    SourceRpmsAre(items, nevra);
    forall s | s in items && IsSource(s.rpm) ensures s.nevra in SourceRpms(items).Values {
      UniqueIsLast(items, s);
      LastIsKept(items, s);
    }
  }

  /**
   For a consistent tag neither list depends on the order of the dictionary: two orders of the same RPMs
   give the same artifacts.
   */
  lemma OrderDoesNotMatter(items: seq<Item>, other: seq<Item>, mmd: Contents, a: Arches, devel: bool)
    requires Consistent(items) && Keyed(items) && UniqueSourceNames(items)
    requires Keyed(other) && UniqueSourceNames(other)
    requires forall x :: x in items <==> x in other
    ensures Artifacts(items, mmd, a, devel) == Artifacts(other, mmd, a, devel)
  {
    assert MainSeen(items, mmd, a) == MainSeen(other, mmd, a);
    assert forall x :: Chosen(items, mmd, a, x) <==> Chosen(other, mmd, a, x);
    forall nevra ensures nevra in Artifacts(items, mmd, a, devel) <==> nevra in Artifacts(other, mmd, a, devel) {
      if devel {
        DevelArtifacts(items, mmd, a, nevra);
        DevelArtifacts(other, mmd, a, nevra);
      } else {
        NormalArtifacts(items, mmd, a, nevra);
        NormalArtifacts(other, mmd, a, nevra);
      }
    }
  }

  // ---- exactly which RPMs the module lists ----

  /** Its component is one the module brings; a whitelist that is not empty decides instead of the components. */
  predicate OfModule(r: Rpm, mmd: Contents) {
    (mmd.whitelist != {} && r.srpmName in mmd.whitelist) || (mmd.whitelist == {} && r.srpmName in mmd.components)
  }

  /** Built for this architecture, or for a multilib one if the component asks for multilib on this architecture. */
  predicate RightArch(r: Rpm, mmd: Contents, a: Arches) {
    && r.arch != "src"
    && (r.arch in a.multilib ==> r.srpmName in mmd.components ==> a.arch in mmd.components[r.srpmName])
    && (r.srpmName !in mmd.components ==> r.arch == a.arch || r.arch == "noarch")
    && (r.arch == a.arch || r.arch == "noarch" || r.arch in a.multilib)
  }

  predicate NotExcluded(r: Rpm, a: Arches) {
    && (forall x :: x in r.excludearch ==> x !in a.exclusive)
    && (r.exclusivearch != {} ==> exists x :: x in r.exclusivearch && x in a.exclusive)
  }

  predicate HasSuffix(s: string, suffix: string) {
    exists n :: 0 <= n <= |s| && s[n..] == suffix
  }

  predicate DebugNamed(r: Rpm) {
    HasSuffix(r.name, "-debuginfo") || HasSuffix(r.name, "-debugsource")
  }

  /** A main RPM that the module lists. */
  predicate ListedMain(items: seq<Item>, mmd: Contents, a: Arches, y: Item) {
    y in items && !DebugNamed(y.rpm) && Admitted(y.rpm, mmd, a)
  }

  predicate Admitted(r: Rpm, mmd: Contents, a: Arches) {
    OfModule(r, mmd) && r.name !in mmd.filters && RightArch(r, mmd, a) && NotExcluded(r, a)
  }

  /** `n` is the name of debug RPM `r` without its suffix. */
  predicate NamedAfter(r: Rpm, n: string) {
    r.name == n + "-debuginfo" || r.name == n + "-debugsource"
  }

  /** The main RPM is listed, or there is none in the tag and another RPM of the same source is. */
  ghost predicate FollowsMain(items: seq<Item>, mmd: Contents, a: Arches, r: Rpm) {
    exists n :: NamedAfter(r, n) && (
      || (exists y :: y in items && ListedMain(items, mmd, a, y) && y.rpm.name == n)
      || ((forall z :: z in items && z.rpm.arch != "src" ==> z.rpm.name != n)
          && exists y :: y in items && ListedMain(items, mmd, a, y) && y.rpm.srpmName == r.srpmName))
  }

  lemma SuffixIs(s: string, suffix: string)
    ensures EndsWith(s, suffix) <==> HasSuffix(s, suffix)
    ensures EndsWith(s, suffix) ==> s == s[..|s| - |suffix|] + suffix
  {
    if n :| 0 <= n <= |s| && s[n..] == suffix { assert |suffix| == |s| - n; }
    if EndsWith(s, suffix) { assert s[|s| - |suffix|..] == suffix; }
  }

  lemma DebugIs(r: Rpm)
    ensures IsDebug(r) <==> DebugNamed(r)
    ensures forall n :: IsDebug(r) ==> (NamedAfter(r, n) <==> n == MainName(r))
  {
    SuffixIs(r.name, "-debuginfo");
    SuffixIs(r.name, "-debugsource");
    assert DEBUG_SUFFIXES[0] == "-debuginfo" && DEBUG_SUFFIXES[1] == "-debugsource";
    if IsDebug(r) {
      forall n ensures NamedAfter(r, n) <==> n == MainName(r) { NameIs(r, n); }
    }
  }

  lemma NameIs(r: Rpm, n: string)
    requires IsDebug(r)
    ensures NamedAfter(r, n) <==> n == MainName(r)
  {
    var info, source := DEBUG_SUFFIXES[0], DEBUG_SUFFIXES[1];
    assert info[|info| - 1] == 'o' && source[|source| - 1] == 'e';
    assert DEBUG_SUFFIXES == [info, source];
    StrippedIs(r.name, n, info, source);
  }

  lemma StrippedIs(s: string, n: string, first: string, second: string)
    requires first != "" && second != "" && first[|first| - 1] != second[|second| - 1]
    requires EndsWith(s, first) || EndsWith(s, second)
    ensures s == n + first || s == n + second <==> n == StripSuffixes(s, [first, second])
  {
    StripTwo(s, first, second);
    LastChar(s, first);
    LastChar(s, second);
    Unsuffixed(n, first);
    Unsuffixed(n, second);
    SuffixIs(s, first);
    SuffixIs(s, second);
  }

  lemma StripTwo(s: string, first: string, second: string)
    ensures StripSuffixes(s, [first, second]) ==
      if EndsWith(s, first) then s[..|s| - |first|]
      else if EndsWith(s, second) then s[..|s| - |second|]
      else s
  {
    assert [first, second][1..] == [second];
    var none: seq<string> := [second][1..];
    assert none == [];
    assert StripSuffixes(s, [second]) == if EndsWith(s, second) then s[..|s| - |second|] else StripSuffixes(s, none);
  }

  lemma LastChar(s: string, suffix: string)
    requires suffix != ""
    ensures EndsWith(s, suffix) ==> s != "" && s[|s| - 1] == suffix[|suffix| - 1]
  {
    if EndsWith(s, suffix) { assert s[|s| - |suffix|..][|suffix| - 1] == s[|s| - 1]; }
  }

  lemma Unsuffixed(n: string, suffix: string)
    ensures var s := n + suffix; EndsWith(s, suffix) && s[..|s| - |suffix|] == n
  {
    var s := n + suffix;
    assert s[|s| - |suffix|..] == suffix;
  }

  lemma DisjointIff(s: set<string>, t: set<string>)
    ensures s * t == {} <==> forall x :: x in s ==> x !in t
  {
    if s * t == {} {
      forall x | x in s ensures x !in t { assert x in s * t <==> x in t; }
    }
  }

  lemma AdmittedIs(r: Rpm, mmd: Contents, a: Arches)
    ensures Eligible(r, a) && ShouldInclude(r, mmd, a) <==> Admitted(r, mmd, a)
  {
    DisjointIff(r.excludearch, a.exclusive);
    DisjointIff(r.exclusivearch, a.exclusive);
  }

  lemma MainIs(items: seq<Item>, mmd: Contents, a: Arches, y: Item)
    requires y in items
    ensures IsMain(y, mmd, a) <==> ListedMain(items, mmd, a, y)
  {
    DebugIs(y.rpm);
    AdmittedIs(y.rpm, mmd, a);
  }

  lemma FollowsIs(items: seq<Item>, mmd: Contents, a: Arches, r: Rpm)
    requires IsDebug(r)
    ensures var seen := MainSeen(items, mmd, a);
      FollowsMain(items, mmd, a, r)
      <==> MainName(r) in seen.names || (MainName(r) !in seen.binary && r.srpmName in seen.srpms)
  {
    DebugIs(r);
    forall y | y in items ensures IsMain(y, mmd, a) <==> ListedMain(items, mmd, a, y) { MainIs(items, mmd, a, y); }
    var n, seen := MainName(r), MainSeen(items, mmd, a);
    assert n in seen.names <==> exists y :: y in items && ListedMain(items, mmd, a, y) && y.rpm.name == n;
    assert r.srpmName in seen.srpms <==>
      exists y :: y in items && ListedMain(items, mmd, a, y) && y.rpm.srpmName == r.srpmName;
    assert n !in seen.binary <==> forall z :: z in items && z.rpm.arch != "src" ==> z.rpm.name != n;
    if FollowsMain(items, mmd, a, r) {
      var n' :| NamedAfter(r, n') && (
        || (exists y :: y in items && ListedMain(items, mmd, a, y) && y.rpm.name == n')
        || ((forall z :: z in items && z.rpm.arch != "src" ==> z.rpm.name != n')
            && exists y :: y in items && ListedMain(items, mmd, a, y) && y.rpm.srpmName == r.srpmName));
      assert n' == n;
    }
    assert NamedAfter(r, n);
  }

  /**
   Exactly which RPMs of a consistent tag the module includes: those of its components or its whitelist, not
   filtered, of a right architecture and not excluded on it; a debug RPM beside that needs its main RPM, or, where
   the tag has none, another included RPM of its source.
   */
  lemma IncludedIff(items: seq<Item>, mmd: Contents, a: Arches, x: Item)
    requires Consistent(items)
    ensures x in SplitOf(items, mmd, a).included <==>
      x in items && Admitted(x.rpm, mmd, a) && (DebugNamed(x.rpm) ==> FollowsMain(items, mmd, a, x.rpm))
  {
    IncludedIsChosen(items, mmd, a);
    AdmittedIs(x.rpm, mmd, a);
    DebugIs(x.rpm);
    if IsDebug(x.rpm) { FollowsIs(items, mmd, a, x.rpm); }
  }

  /** The licenses are those of the listed RPMs that tell one. */
  lemma LicensesAre(items: seq<Item>, license: string)
    ensures license in Licenses(items) <==> license != "" && exists x :: x in items && x.rpm.license == Some(license)
  {}
}
