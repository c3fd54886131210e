/**
 Compiling the dependencies of a modulemd to an expression of the dependency solver (_deps2reqs in
 module_build_service/web/mmd_resolver.py), and what that expression means.
 */
module Dependencies {
  import opened Wrappers
  import opened Decimals
  import opened StreamVersions

  datatype Op = Equal | AtLeast

  /** A solver expression: module(name), module(name:stream) with or without a version, and relations. */
  datatype Dep =
    | Named(name: string)
    | Stream(name: string, stream: string)
    | Versioned(name: string, stream: string, op: Op, version: int)
    | Or(left: Dep, right: Dep)
    | And(left: Dep, right: Dep)
    | With(left: Dep, right: Dep)

  /** module(name:stream) = version */
  datatype Provide = Provide(stream: string, version: int)

  /** A module as the solver knows it; it always provides module(name) as well. */
  datatype Solvable = Solvable(name: string, provided: set<Provide>)

  // ---- what an expression means ----

  /** One module by itself fulfils the expression. */
  predicate Matches(m: Solvable, d: Dep) {
    match d
    case Named(n) => m.name == n
    case Stream(n, s) => m.name == n && exists p :: p in m.provided && p.stream == s
    case Versioned(n, s, op, v) =>
      m.name == n && exists p :: p in m.provided && p.stream == s
                                 && (if op == Equal then p.version == v else p.version >= v)
    case Or(l, r) => Matches(m, l) || Matches(m, r)
    case And(l, r) => Matches(m, l) && Matches(m, r)
    case With(l, r) => Matches(m, l) && Matches(m, r)
  }

  /** A set of installed modules fulfils the expression; both sides of a WITH are up to a single module. */
  predicate Satisfied(installed: set<Solvable>, d: Dep) {
    match d
    case Or(l, r) => Satisfied(installed, l) || Satisfied(installed, r)
    case And(l, r) => Satisfied(installed, l) && Satisfied(installed, r)
    case _ => exists m :: m in installed && Matches(m, d)
  }

  /** No expression is no requirement. */
  predicate SatisfiedOpt(installed: set<Solvable>, d: Option<Dep>) {
    d.Some? ==> Satisfied(installed, d.value)
  }

  // ---- the dependencies ----

  /** An entry name: [streams] of a dependency dictionary. */
  datatype Entry = Entry(name: string, streams: seq<string>)

  /** The base modules, the streams to compute their versions from, and the versions of x.y.z streams. */
  datatype Setting = Setting(
    baseModules: set<string>, overrides: map<string, string>, version: string -> Option<int>, exact: bool)

  function StreamDep(c: Setting, name: string, stream: string): Dep {
    if name !in c.baseModules then Stream(name, stream)
    else
      match c.version(if name in c.overrides then c.overrides[name] else stream)
      case None => Stream(name, stream)
      case Some(v) => Versioned(name, stream, if c.exact then Equal else AtLeast, v)
  }

  /** rel_or_dep with OR */
  function OrDep(d: Option<Dep>, r: Dep): Option<Dep> {
    if d == None then Some(r) else Some(Or(d.value, r))
  }

  function AndDep(d: Option<Dep>, r: Dep): Option<Dep> {
    if d == None then Some(r) else Some(And(d.value, r))
  }

  function AllStreams(acc: Option<Dep>, c: Setting, name: string, streams: seq<string>): Option<Dep>
    decreases |streams|
  {
    if streams == [] then acc else AllStreams(OrDep(acc, StreamDep(c, name, streams[0])), c, name, streams[1..])
  }

  function EntryDep(c: Setting, e: Entry): Dep {
    var streams := AllStreams(None, c, e.name, e.streams);
    if streams == None then Named(e.name) else With(Named(e.name), streams.value)
  }

  function AllEntries(acc: Option<Dep>, c: Setting, entries: seq<Entry>): Option<Dep>
    decreases |entries|
  {
    if entries == [] then acc else AllEntries(AndDep(acc, EntryDep(c, entries[0])), c, entries[1..])
  }

  datatype Error = NoOperand

  /** rel_or_dep with OR, of what may be missing: relating an expression to nothing is an error. */
  function OrNext(d: Option<Dep>, r: Option<Dep>): Result<Option<Dep>, Error> {
    if d == None then Success(r)
    else if r == None then Failure(NoOperand)
    else Success(Some(Or(d.value, r.value)))
  }

  function AllDicts(acc: Option<Dep>, c: Setting, deps: seq<seq<Entry>>): Result<Option<Dep>, Error>
    decreases |deps|
  {
    if deps == [] then Success(acc)
    else
      match OrNext(acc, AllEntries(None, c, deps[0]))
      case Failure(e) => Failure(e)
      case Success(next) => AllDicts(next, c, deps[1..])
  }

  /** _deps2reqs: three nested loops, each building its expression from the left. */
  method Deps2Reqs(deps: seq<seq<Entry>>, c: Setting) returns (r: Result<Option<Dep>, Error>)
    ensures r == AllDicts(None, c, deps)
  {
    var reqs: Option<Dep> := None;
    var i := 0;
    assert deps[0..] == deps;
    while i < |deps|
      invariant 0 <= i <= |deps|
      invariant AllDicts(None, c, deps) == AllDicts(reqs, c, deps[i..])
    {
      assert deps[i..][0] == deps[i] && deps[i..][1..] == deps[i + 1..];
      var require := DictReqs(deps[i], c);
      if reqs == None {
        reqs := require;
      } else {
        if require == None { return Failure(NoOperand); }
        reqs := Some(Or(reqs.value, require.value));
      }
      i := i + 1;
    }
    r := Success(reqs);
  }

  method DictReqs(entries: seq<Entry>, c: Setting) returns (require: Option<Dep>)
    ensures require == AllEntries(None, c, entries)
  {
    require := None;
    var j := 0;
    assert entries[0..] == entries;
    while j < |entries|
      invariant 0 <= j <= |entries|
      invariant AllEntries(None, c, entries) == AllEntries(require, c, entries[j..])
    {
      assert entries[j..][0] == entries[j] && entries[j..][1..] == entries[j + 1..];
      var name, streams := entries[j].name, entries[j].streams;
      var reqPos: Option<Dep> := None;
      var k := 0;
      assert streams[0..] == streams;
      while k < |streams|
        invariant 0 <= k <= |streams|
        invariant AllStreams(None, c, name, streams) == AllStreams(reqPos, c, name, streams[k..])
      {
        assert streams[k..][0] == streams[k] && streams[k..][1..] == streams[k + 1..];
        var stream := streams[k];
        var dep := Stream(name, stream);
        if name in c.baseModules {
          var version := c.version(if name in c.overrides then c.overrides[name] else stream);
          if version.Some? { dep := Versioned(name, stream, if c.exact then Equal else AtLeast, version.value); }
        }
        reqPos := OrDep(reqPos, dep);
        k := k + 1;
      }
      var req := Named(name);
      if reqPos.Some? { req := With(req, reqPos.value); }
      require := AndDep(require, req);
      j := j + 1;
    }
  }

  // ---- what the dependencies mean ----

  /** The module provides the stream; of a versioned base module stream, in the version asked for or a later one. */
  predicate ProvidesStream(m: Solvable, c: Setting, name: string, stream: string) {
    exists p :: p in m.provided && p.stream == stream && VersionFits(p, c, name, stream)
  }

  predicate VersionFits(p: Provide, c: Setting, name: string, stream: string) {
    name in c.baseModules ==>
      var v := c.version(if name in c.overrides then c.overrides[name] else stream);
      v.Some? ==> if c.exact then p.version == v.value else p.version >= v.value
  }

  /** The module has that name and provides one of the listed streams, or anything if none is listed. */
  predicate Serves(m: Solvable, c: Setting, e: Entry) {
    && m.name == e.name
    && (e.streams == [] || exists i :: 0 <= i < |e.streams| && ProvidesStream(m, c, e.name, e.streams[i]))
  }

  predicate EntryMet(installed: set<Solvable>, c: Setting, e: Entry) {
    exists m :: m in installed && Serves(m, c, e)
  }

  predicate DictMet(installed: set<Solvable>, c: Setting, entries: seq<Entry>) {
    forall i :: 0 <= i < |entries| ==> EntryMet(installed, c, entries[i])
  }

  predicate SomeDictMet(installed: set<Solvable>, c: Setting, deps: seq<seq<Entry>>) {
    exists i :: 0 <= i < |deps| && deps[i] != [] && DictMet(installed, c, deps[i])
  }

  // ---- the expression means what the dependencies mean ----

  lemma StreamDepMeans(m: Solvable, c: Setting, name: string, stream: string)
    ensures Matches(m, StreamDep(c, name, stream)) <==> m.name == name && ProvidesStream(m, c, name, stream)
  {}

  lemma {:induction false} StreamsMean(acc: Option<Dep>, c: Setting, name: string, streams: seq<string>, m: Solvable)
    ensures var d := AllStreams(acc, c, name, streams);
      && (d == None <==> acc == None && streams == [])
      && (d.Some? && Matches(m, d.value) <==>
           (acc.Some? && Matches(m, acc.value))
           || exists i :: 0 <= i < |streams| && m.name == name && ProvidesStream(m, c, name, streams[i]))
    decreases |streams|
  {
    if streams != [] {
      StreamDepMeans(m, c, name, streams[0]);
      StreamsMean(OrDep(acc, StreamDep(c, name, streams[0])), c, name, streams[1..], m);
      assert forall i :: 0 < i < |streams| ==> streams[i] == streams[1..][i - 1];
      assert forall i :: 0 <= i < |streams[1..]| ==> streams[1..][i] == streams[i + 1];
    }
  }

  lemma EntryDepMeans(installed: set<Solvable>, c: Setting, e: Entry)
    ensures Satisfied(installed, EntryDep(c, e)) <==> EntryMet(installed, c, e)
  {
    forall m ensures Matches(m, EntryDep(c, e)) <==> Serves(m, c, e) {
      StreamsMean(None, c, e.name, e.streams, m);
    }
  }

  lemma {:induction false} EntriesMean(acc: Option<Dep>, c: Setting, entries: seq<Entry>, installed: set<Solvable>)
    ensures var d := AllEntries(acc, c, entries);
      && (d == None <==> acc == None && entries == [])
      && (SatisfiedOpt(installed, d) <==> SatisfiedOpt(installed, acc) && DictMet(installed, c, entries))
    decreases |entries|
  {
    if entries != [] {
      EntryDepMeans(installed, c, entries[0]);
      EntriesMean(AndDep(acc, EntryDep(c, entries[0])), c, entries[1..], installed);
      DictMetSplits(installed, c, entries);
    }
  }

  lemma DictMetSplits(installed: set<Solvable>, c: Setting, entries: seq<Entry>)
    requires entries != []
    ensures DictMet(installed, c, entries) <==>
      EntryMet(installed, c, entries[0]) && DictMet(installed, c, entries[1..])
  {
    assert forall i :: 0 < i < |entries| ==> entries[i] == entries[1..][i - 1];
    assert forall i :: 0 <= i < |entries[1..]| ==> entries[1..][i] == entries[i + 1];
  }

  lemma SomeDictSplits(installed: set<Solvable>, c: Setting, deps: seq<seq<Entry>>)
    requires deps != []
    ensures SomeDictMet(installed, c, deps) <==>
      (deps[0] != [] && DictMet(installed, c, deps[0])) || SomeDictMet(installed, c, deps[1..])
  {
    assert forall i :: 0 < i < |deps| ==> deps[i] == deps[1..][i - 1];
    assert forall i :: 0 <= i < |deps[1..]| ==> deps[1..][i] == deps[i + 1];
  }

  /** With something required already, the result is satisfied by it or by one of the non-empty dictionaries. */
  lemma {:induction false} DictsMean(acc: Option<Dep>, c: Setting, deps: seq<seq<Entry>>, installed: set<Solvable>)
    requires AllDicts(acc, c, deps).Success?
    ensures var d := AllDicts(acc, c, deps).value;
      && (d == None <==> acc == None && forall i :: 0 <= i < |deps| ==> deps[i] == [])
      && (d.Some? ==> (Satisfied(installed, d.value) <==>
           (acc.Some? && Satisfied(installed, acc.value)) || SomeDictMet(installed, c, deps)))
    decreases |deps|
  {
    if deps != [] {
      EntriesMean(None, c, deps[0], installed);
      var next := OrNext(acc, AllEntries(None, c, deps[0])).value;
      DictsMean(next, c, deps[1..], installed);
      SomeDictSplits(installed, c, deps);
      assert forall i :: 0 < i < |deps| ==> deps[i] == deps[1..][i - 1];
      assert forall i :: 0 <= i < |deps[1..]| ==> deps[1..][i] == deps[i + 1];
    }
  }

  /** No empty dictionary follows a non-empty one. */
  predicate EmptyOnesFirst(deps: seq<seq<Entry>>) {
    forall i, j :: 0 <= i < j < |deps| && deps[i] != [] ==> deps[j] != []
  }

  predicate NoneEmpty(deps: seq<seq<Entry>>) {
    forall i :: 0 <= i < |deps| ==> deps[i] != []
  }

  predicate AllEmpty(deps: seq<seq<Entry>>) {
    forall i :: 0 <= i < |deps| ==> deps[i] == []
  }

  /** Compilation succeeds if and only if no empty dictionary comes after something that is required. */
  lemma {:induction false} CompilesIff(acc: Option<Dep>, c: Setting, deps: seq<seq<Entry>>)
    ensures AllDicts(acc, c, deps).Success? <==> EmptyOnesFirst(deps) && (acc.Some? ==> NoneEmpty(deps))
    decreases |deps|
  {
    if deps != [] {
      EntriesMean(None, c, deps[0], {});
      var next := OrNext(acc, AllEntries(None, c, deps[0]));
      if next.Success? { CompilesIff(next.value, c, deps[1..]); }
      EmptyOnesSplit(deps);
    }
  }

  lemma EmptyOnesSplit(deps: seq<seq<Entry>>)
    requires deps != []
    ensures EmptyOnesFirst(deps) <==> EmptyOnesFirst(deps[1..]) && (deps[0] != [] ==> NoneEmpty(deps[1..]))
    ensures NoneEmpty(deps) <==> deps[0] != [] && NoneEmpty(deps[1..])
  {
    assert forall i :: 0 < i < |deps| ==> deps[i] == deps[1..][i - 1];
    assert forall i :: 0 <= i < |deps[1..]| ==> deps[1..][i] == deps[i + 1];
  }

  /**
   The compiled expression preserves meaning: for a non-empty list of non-empty dictionaries, installed
   modules satisfy it exactly when some dictionary has, for each of its names, one installed module of
   that name that provides a listed stream (anything if none is listed), in the version of the base module
   stream, or a later one where exact versions are not asked for.
   */
  lemma CompilationPreservesMeaning(deps: seq<seq<Entry>>, c: Setting, installed: set<Solvable>)
    requires deps != [] && forall i :: 0 <= i < |deps| ==> deps[i] != []
    ensures var r := AllDicts(None, c, deps);
      && r.Success? && r.value.Some?
      && (Satisfied(installed, r.value.value) <==>
           exists i :: 0 <= i < |deps| && DictMet(installed, c, deps[i]))
  {
    CompilesIff(None, c, deps);
    DictsMean(None, c, deps, installed);
  }

  /** The compiled list asks for exactly what the list asks for, whatever is installed. */
  ghost predicate KeepsMeaning(deps: seq<seq<Entry>>, c: Setting)
    requires AllDicts(None, c, deps).Success?
  {
    forall installed: set<Solvable> :: SatisfiedOpt(installed, AllDicts(None, c, deps).value) <==> AnyDictMet(installed, c, deps)
  }

  /** Some dictionary is met; an empty one asks for nothing and always is. */
  predicate AnyDictMet(installed: set<Solvable>, c: Setting, deps: seq<seq<Entry>>) {
    exists i :: 0 <= i < |deps| && DictMet(installed, c, deps[i])
  }

  lemma UniformKeepsMeaning(deps: seq<seq<Entry>>, c: Setting)
    requires deps != [] && AllDicts(None, c, deps).Success? && (AllEmpty(deps) || NoneEmpty(deps))
    ensures KeepsMeaning(deps, c)
  {
    forall installed: set<Solvable>
      ensures SatisfiedOpt(installed, AllDicts(None, c, deps).value) <==> AnyDictMet(installed, c, deps)
    {
      DictsMean(None, c, deps, installed);
      if AllEmpty(deps) { assert DictMet(installed, c, deps[0]); }
    }
  }

  lemma MixedLosesMeaning(deps: seq<seq<Entry>>, c: Setting)
    requires AllDicts(None, c, deps).Success? && !AllEmpty(deps) && !NoneEmpty(deps)
    ensures !KeepsMeaning(deps, c)
  {
    var i :| 0 <= i < |deps| && deps[i] == [];
    var none: set<Solvable> := {};
    DictsMean(None, c, deps, none);
    NothingInstalledMeetsNothing(c, deps);
    assert DictMet(none, c, deps[i]);
    assert AnyDictMet(none, c, deps) && !SatisfiedOpt(none, AllDicts(None, c, deps).value);
  }

  /**
   Exactly when meaning is kept: a non-empty list compiles to an expression that asks for what the list
   asks for if and only if its dictionaries are all empty or none is.
   */
  lemma MeaningKeptIff(deps: seq<seq<Entry>>, c: Setting)
    requires deps != []
    ensures AllDicts(None, c, deps).Success? && KeepsMeaning(deps, c) <==> AllEmpty(deps) || NoneEmpty(deps)
  {
    CompilesIff(None, c, deps);
    if AllEmpty(deps) || NoneEmpty(deps) {
      UniformKeepsMeaning(deps, c);
    } else if AllDicts(None, c, deps).Success? {
      MixedLosesMeaning(deps, c);
    }
  }

  lemma NothingInstalledMeetsNothing(c: Setting, deps: seq<seq<Entry>>)
    ensures !SomeDictMet({}, c, deps)
  {
    forall i | 0 <= i < |deps| && deps[i] != [] ensures !DictMet({}, c, deps[i]) {
      assert !EntryMet({}, c, deps[i][0]);
    }
  }

  /** An empty dictionary in front, which asks for nothing, is dropped: the others are required all the same. */
  lemma LeadingEmptyDictIsDropped(c: Setting, name: string)
    ensures var deps := [[], [Entry(name, [])]];
      && DictMet({}, c, deps[0])
      && AllDicts(None, c, deps) == Success(Some(Named(name)))
      && !Satisfied({}, Named(name))
  {
    var last := [Entry(name, [])];
    var deps := [[], last];
    assert EntryDep(c, last[0]) == Named(name);
    assert AllEntries(None, c, last) == AllEntries(Some(Named(name)), c, last[1..]) == Some(Named(name));
    assert deps[1..] == [last];
    assert AllDicts(None, c, deps) == AllDicts(None, c, [last]) == AllDicts(Some(Named(name)), c, [last][1..]);
  }

  // ---- the version asked of a base module ----

  /** str() of a stream version to which the configuration adds no suffix. */
  function Spelled(v: nat): string {
    ToString(v) + ".0"
  }

  /** Setting.version: a version of less than five characters is not used. */
  function UsableVersion(stream: string): Option<int> {
    var v := StreamVersion(stream, false, 0.0).Floor;
    if |Spelled(v)| < 5 then None else Some(v)
  }

  lemma ThreeDigits(v: nat)
    ensures |ToString(v)| >= 3 <==> v >= 100
  {
    if v >= 10 {
      assert |ToString(v)| == |ToString(v / 10)| + 1;
      assert |ToString(v / 10)| >= 2 <==> v / 10 >= 10;
    }
  }

  /** The sections x, x.y or x.y.z side by side. */
  function SideBySide(x: string, y: Option<string>, z: Option<string>): nat {
    if z.Some? then 10000 * ToNat(x) + 100 * ValueOf(y) + ValueOf(z)
    else if y.Some? then 100 * ToNat(x) + ValueOf(y) else ToNat(x)
  }

  lemma UnpaddedVersion(prefix: string, x: string, y: Option<string>, z: Option<string>, tail: string)
    requires NoDigits(prefix) && Ends(tail) && Sections(x, y, z)
    ensures StreamVersion(prefix + Written(x, y, z) + tail, false, 0.0) == SideBySide(x, y, z) as real
  {
    VersionOfStream(prefix, x, y, z, tail, 0.0);
  }

  lemma UsableIff(stream: string, v: nat)
    requires StreamVersion(stream, false, 0.0) == v as real
    ensures UsableVersion(stream) == if v >= 100 then Some(v) else None
  {
    ThreeDigits(v);
  }

  /** A stream prefix x, x.y or x.y.z has a usable version exactly if its sections side by side make at least 100. */
  lemma UsableVersionIff(prefix: string, x: string, y: Option<string>, z: Option<string>, tail: string)
    requires NoDigits(prefix) && Ends(tail) && Sections(x, y, z)
    ensures var v := SideBySide(x, y, z);
      UsableVersion(prefix + Written(x, y, z) + tail) == if v >= 100 then Some(v) else None
  {
    UnpaddedVersion(prefix, x, y, z, tail);
    UsableIff(prefix + Written(x, y, z) + tail, SideBySide(x, y, z));
  }

  // ---- what a module provides ----

  /** add_modules and _add_base_module_provides, for an available module. */
  function SolvableOf(
    baseModules: set<string>, name: string, stream: string, version: int,
    streamVersion: Option<int>, virtualStreams: seq<string>): Solvable
  {
    var hasStreamVersion := name in baseModules && streamVersion.Some? && streamVersion.value != 0;
    var own := if hasStreamVersion then streamVersion.value else version;
    Solvable(name, {Provide(stream, own)}
                   + if name in baseModules then set s | s in virtualStreams :: Provide(s, own) else {})
  }

  /** A module provides its stream, and a base module its virtual streams too, in its stream version if it has one. */
  lemma SolvableProvides(
    baseModules: set<string>, name: string, stream: string, version: int,
    streamVersion: Option<int>, virtualStreams: seq<string>, p: Provide)
    ensures var m := SolvableOf(baseModules, name, stream, version, streamVersion, virtualStreams);
      && m.name == name
      && (p in m.provided <==>
           && p.version == (if name in baseModules && streamVersion.Some? && streamVersion.value != 0
                            then streamVersion.value else version)
           && (p.stream == stream || (name in baseModules && p.stream in virtualStreams)))
  {}

  /**
   A base module meets a requirement of a stream exactly when the stream is its own or one of its virtual
   streams, and its stream version is the one asked for, or a later one where that will do.
   */
  lemma BaseModuleMeets(
    c: Setting, name: string, stream: string, version: int, streamVersion: int, virtualStreams: seq<string>,
    asked: string, v: int)
    requires name in c.baseModules && streamVersion != 0
    requires c.version(if name in c.overrides then c.overrides[name] else asked) == Some(v)
    ensures var m := SolvableOf(c.baseModules, name, stream, version, Some(streamVersion), virtualStreams);
      EntryMet({m}, c, Entry(name, [asked])) <==>
        (asked == stream || asked in virtualStreams) && if c.exact then streamVersion == v else streamVersion >= v
  {
    var m := SolvableOf(c.baseModules, name, stream, version, Some(streamVersion), virtualStreams);
    var e := Entry(name, [asked]);
    assert e.streams[0] == asked;
    assert m in {m};
    assert EntryMet({m}, c, e) <==> ProvidesStream(m, c, name, asked);
    if asked == stream || asked in virtualStreams {
      assert Provide(asked, streamVersion) in m.provided;
    }
  }
}
