/**
 Picking the latest builds of every stream: from the database in one pass over the sorted rows
 (get_last_builds_in_stream_version_lte in module_build_service/common/models.py), and from a Koji tag by
 sorting and grouping (module_build_service/resolver/KojiResolver.py).
 */
module LatestBuilds {
  import opened Wrappers

  // ---- one pass over the database rows ----

  datatype Build = Build(
    name: string, stream: string, version: nat, context: string, ready: bool,
    streamVersion: Option<real>, virtualStreams: set<string>)

  /** The lte filter: same major version, not greater; without a stream version everything passes. */
  predicate VersionAdmitted(b: Build, limit: Option<real>) {
    limit == None || limit.value == 0.0
    || (b.streamVersion.Some? && MajorFloor(limit.value) <= b.streamVersion.value <= limit.value)
  }

  function MajorFloor(v: real): real {
    (10000 * (v / 10000.0).Floor) as real
  }

  predicate Admitted(b: Build, name: string, limit: Option<real>, virtualStreams: set<string>) {
    && b.name == name && b.ready && VersionAdmitted(b, limit)
    && (virtualStreams != {} ==> virtualStreams * b.virtualStreams != {})
  }

  predicate VersionsFall(builds: seq<Build>) {
    forall i, j :: 0 <= i < j < |builds| ==> builds[i].version >= builds[j].version
  }

  function InsertByVersion(b: Build, sorted: seq<Build>): seq<Build> {
    if sorted == [] || b.version >= sorted[0].version then [b] + sorted
    else [sorted[0]] + InsertByVersion(b, sorted[1..])
  }

  /** The rows of the query, greatest version first. */
  function Query(rows: seq<Build>, name: string, limit: Option<real>, virtualStreams: set<string>): seq<Build> {
    if rows == [] then []
    else
      var rest := Query(rows[1..], name, limit, virtualStreams);
      if Admitted(rows[0], name, limit, virtualStreams) then InsertByVersion(rows[0], rest) else rest
  }

  lemma {:induction false} InsertFacts(b: Build, sorted: seq<Build>)
    requires VersionsFall(sorted)
    ensures VersionsFall(InsertByVersion(b, sorted))
    ensures forall x :: x in InsertByVersion(b, sorted) <==> x == b || x in sorted
  {
    if sorted != [] && b.version < sorted[0].version {
      InsertFacts(b, sorted[1..]);
      assert sorted == [sorted[0]] + sorted[1..];
      var rest := InsertByVersion(b, sorted[1..]);
      forall k | 0 <= k < |rest| ensures sorted[0].version >= rest[k].version { assert rest[k] in rest; }
    }
  }

  lemma {:induction false} QueryFacts(rows: seq<Build>, name: string, limit: Option<real>, virtualStreams: set<string>)
    ensures VersionsFall(Query(rows, name, limit, virtualStreams))
    ensures forall b :: b in Query(rows, name, limit, virtualStreams) <==>
      b in rows && Admitted(b, name, limit, virtualStreams)
  {
    if rows != [] {
      QueryFacts(rows[1..], name, limit, virtualStreams);
      InsertFacts(rows[0], Query(rows[1..], name, limit, virtualStreams));
      assert rows == [rows[0]] + rows[1..];
    }
  }

  function NameStream(b: Build): string {
    b.name + ":" + b.stream
  }

  predicate Greatest(b: Build, builds: seq<Build>) {
    forall x :: x in builds && NameStream(x) == NameStream(b) ==> x.version <= b.version
  }

  /** Those of `part` whose version is the greatest of their name:stream in `all`, in order. */
  function KeepGreatest(part: seq<Build>, all: seq<Build>): seq<Build> {
    if part == [] then []
    else
      var last := part[|part| - 1];
      KeepGreatest(part[..|part| - 1], all) + if Greatest(last, all) then [last] else []
  }

  /** The loop over the sorted rows, with the version first seen of every name:stream. */
  method FirstSeen(builds: seq<Build>) returns (ret: seq<Build>)
    requires VersionsFall(builds)
    ensures ret == KeepGreatest(builds, builds)
  {
    var seen: map<string, nat> := map[];
    ret := [];
    var i := 0;
    while i < |builds|
      invariant 0 <= i <= |builds|
      invariant ret == KeepGreatest(builds[..i], builds)
      invariant Remembers(seen, builds, i)
    {
      var build := builds[i];
      var ns := NameStream(build);
      SeenOneMore(seen, builds, i);
      if ns !in seen {
        seen := seen[ns := build.version];
        ret := ret + [build];
      } else if seen[ns] == build.version {
        ret := ret + [build];
      }
      i := i + 1;
    }
    assert builds[..i] == builds;
  }

  /** One more row: what is kept and what is remembered then. */
  lemma SeenOneMore(seen: map<string, nat>, builds: seq<Build>, i: nat)
    requires VersionsFall(builds) && i < |builds| && Remembers(seen, builds, i)
    ensures var build, ns := builds[i], NameStream(builds[i]);
      && KeepGreatest(builds[..i + 1], builds) == KeepGreatest(builds[..i], builds)
           + (if ns !in seen || seen[ns] == build.version then [build] else [])
      && Remembers(if ns !in seen then seen[ns := build.version] else seen, builds, i + 1)
  {
    OneMoreGreatest(builds, i);
    if NameStream(builds[i]) !in seen {
      NewIsGreatest(seen, builds, i);
    } else {
      RememberedIsGreatest(seen, builds, i);
      StillRemembers(seen, builds, i);
    }
  }

  lemma OneMoreGreatest(builds: seq<Build>, i: nat)
    requires i < |builds|
    ensures KeepGreatest(builds[..i + 1], builds) ==
      KeepGreatest(builds[..i], builds) + if Greatest(builds[i], builds) then [builds[i]] else []
  {
    assert builds[..i + 1][..i] == builds[..i];
  }

  /** What the loop remembers: every name:stream it met, with its greatest version. */
  predicate Remembers(seen: map<string, nat>, builds: seq<Build>, i: nat)
    requires i <= |builds|
  {
    && (forall ns :: ns in seen ==>
         exists j :: 0 <= j < i && NameStream(builds[j]) == ns && builds[j].version == seen[ns] && Greatest(builds[j], builds))
    && (forall j :: 0 <= j < i ==> NameStream(builds[j]) in seen)
  }

  /** A build met later is one of the greatest version exactly when its version is the remembered one. */
  lemma RememberedIsGreatest(seen: map<string, nat>, builds: seq<Build>, i: nat)
    requires i < |builds| && Remembers(seen, builds, i) && NameStream(builds[i]) in seen
    ensures Greatest(builds[i], builds) <==> builds[i].version == seen[NameStream(builds[i])]
  {
    var j :| 0 <= j < i && NameStream(builds[j]) == NameStream(builds[i])
      && builds[j].version == seen[NameStream(builds[i])] && Greatest(builds[j], builds);
    assert builds[i] in builds && builds[j] in builds;
  }

  lemma StillRemembers(seen: map<string, nat>, builds: seq<Build>, i: nat)
    requires i < |builds| && Remembers(seen, builds, i) && NameStream(builds[i]) in seen
    ensures Remembers(seen, builds, i + 1)
  {}

  /** The first build of a name:stream has its greatest version, which is remembered from then on. */
  lemma NewIsGreatest(seen: map<string, nat>, builds: seq<Build>, i: nat)
    requires VersionsFall(builds) && i < |builds| && Remembers(seen, builds, i) && NameStream(builds[i]) !in seen
    ensures Greatest(builds[i], builds)
    ensures Remembers(seen[NameStream(builds[i]) := builds[i].version], builds, i + 1)
  {
    FirstIsGreatest(builds, i);
    var more := seen[NameStream(builds[i]) := builds[i].version];
    forall ns | ns in more
      ensures exists j :: 0 <= j < i + 1 && NameStream(builds[j]) == ns && builds[j].version == more[ns] && Greatest(builds[j], builds)
    {
      if ns != NameStream(builds[i]) { assert ns in seen; }
    }
  }

  lemma FirstIsGreatest(builds: seq<Build>, i: nat)
    requires VersionsFall(builds) && i < |builds|
    requires forall j :: 0 <= j < i ==> NameStream(builds[j]) != NameStream(builds[i])
    ensures Greatest(builds[i], builds)
  {
    forall x | x in builds && NameStream(x) == NameStream(builds[i]) ensures x.version <= builds[i].version {
      var j :| 0 <= j < |builds| && builds[j] == x;
    }
  }

  lemma {:induction false} KeepGreatestAre(part: seq<Build>, all: seq<Build>, b: Build)
    ensures b in KeepGreatest(part, all) <==> b in part && Greatest(b, all)
  {
    if part != [] {
      KeepGreatestAre(part[..|part| - 1], all, b);
      assert part == part[..|part| - 1] + [part[|part| - 1]];
    }
  }

  /** get_last_builds_in_stream_version_lte */
  method LastBuilds(rows: seq<Build>, name: string, limit: Option<real>, virtualStreams: set<string>)
    returns (ret: seq<Build>)
    ensures ret == LastBuildsOf(rows, name, limit, virtualStreams)
  {
    QueryFacts(rows, name, limit, virtualStreams);
    ret := FirstSeen(Query(rows, name, limit, virtualStreams));
  }

  function LastBuildsOf(rows: seq<Build>, name: string, limit: Option<real>, virtualStreams: set<string>): seq<Build> {
    KeepGreatest(Query(rows, name, limit, virtualStreams), Query(rows, name, limit, virtualStreams))
  }

  lemma SameStream(a: Build, b: Build)
    requires a.name == b.name
    ensures NameStream(a) == NameStream(b) <==> a.stream == b.stream
  {
    assert NameStream(a)[|a.name| + 1..] == a.stream && NameStream(b)[|b.name| + 1..] == b.stream;
  }

  /**
   The one pass keeps exactly the admitted builds, in every context, whose version is the greatest that is
   admitted for their stream.
   */
  lemma LastBuildsAreGreatest(
    rows: seq<Build>, name: string, limit: Option<real>, virtualStreams: set<string>, b: Build)
    ensures b in LastBuildsOf(rows, name, limit, virtualStreams) <==>
      && b in rows && Admitted(b, name, limit, virtualStreams)
      && forall x :: x in rows && Admitted(x, name, limit, virtualStreams) && x.stream == b.stream ==> x.version <= b.version
  {
    var found := Query(rows, name, limit, virtualStreams);
    QueryFacts(rows, name, limit, virtualStreams);
    KeepGreatestAre(found, found, b);
    if b in found {
      forall x | x in found ensures NameStream(x) == NameStream(b) <==> x.stream == b.stream { SameStream(x, b); }
    }
  }

  /** A version not above the limit, and not below the multiple of 10000 that the limit starts from. */
  ghost predicate InMajor(v: real, limit: real) {
    exists k: int :: StartsFrom(k, limit) && k as real * 10000.0 <= v <= limit
  }

  /** The k-th multiple of 10000 is the last one not above the limit. */
  predicate StartsFrom(k: int, limit: real) {
    k as real * 10000.0 <= limit < (k + 1) as real * 10000.0
  }

  lemma MajorIff(v: real, limit: real)
    ensures InMajor(v, limit) <==> MajorFloor(limit) <= v <= limit
  {
    var k := (limit / 10000.0).Floor;
    assert StartsFrom(k, limit);
    assert MajorFloor(limit) == k as real * 10000.0;
    if InMajor(v, limit) {
      var n: int :| StartsFrom(n, limit) && n as real * 10000.0 <= v <= limit;
      assert n == k;
    }
  }

  /** Exactly which rows are found: ready ones of that name, in the version range, with a virtual stream asked for. */
  lemma AdmittedIff(b: Build, name: string, limit: Option<real>, virtualStreams: set<string>)
    ensures Admitted(b, name, limit, virtualStreams) <==>
      && b.name == name && b.ready
      && (limit == None || limit == Some(0.0) || (b.streamVersion.Some? && InMajor(b.streamVersion.value, limit.value)))
      && (virtualStreams == {} || exists s :: s in virtualStreams && s in b.virtualStreams)
  {
    if limit.Some? && b.streamVersion.Some? { MajorIff(b.streamVersion.value, limit.value); }
    if s :| s in virtualStreams && s in b.virtualStreams { assert s in virtualStreams * b.virtualStreams; }
    if virtualStreams * b.virtualStreams != {} {
      var s :| s in virtualStreams * b.virtualStreams;
      assert s in virtualStreams && s in b.virtualStreams;
    }
  }

  // ---- sorting and grouping the builds of a Koji tag ----

  /** Koji calls the stream of a module build its version, and its release is version.context. */
  datatype Listed = Listed(
    name: string, stream: string, version: nat, context: string, tag: string, realStream: Option<string>)

  predicate StrLess(a: string, b: string) {
    b != "" && (a == "" || a[0] < b[0] || (a[0] == b[0] && StrLess(a[1..], b[1..])))
  }

  lemma {:induction false} StrTotal(a: string, b: string)
    ensures (if StrLess(a, b) then 1 else 0) + (if StrLess(b, a) then 1 else 0) + (if a == b then 1 else 0) == 1
  {
    if a != "" && b != "" && a[0] == b[0] {
      StrTotal(a[1..], b[1..]);
      assert a == [a[0]] + a[1..] && b == [b[0]] + b[1..];
    }
  }

  lemma {:induction false} StrTransitive(a: string, b: string, c: string)
    requires StrLess(a, b) && StrLess(b, c)
    ensures StrLess(a, c)
  {
    if a != "" && a[0] == b[0] && b[0] == c[0] { StrTransitive(a[1..], b[1..], c[1..]); }
  }

  /** Order by name, then stream. */
  predicate NsLess(a: Listed, b: Listed) {
    StrLess(a.name, b.name) || (a.name == b.name && StrLess(a.stream, b.stream))
  }

  predicate SameNs(a: Listed, b: Listed) {
    a.name == b.name && a.stream == b.stream
  }

  lemma NsTotal(a: Listed, b: Listed)
    ensures (if NsLess(a, b) then 1 else 0) + (if NsLess(b, a) then 1 else 0) + (if SameNs(a, b) then 1 else 0) == 1
  {
    StrTotal(a.name, b.name);
    StrTotal(a.stream, b.stream);
  }

  lemma NsTransitive(a: Listed, b: Listed, c: Listed)
    requires !NsLess(b, a) && !NsLess(c, b)
    ensures !NsLess(c, a)
  {
    NsTotal(a, b);
    NsTotal(b, c);
    NsTotal(a, c);
    if NsLess(a, b) && NsLess(b, c) && NsLess(c, a) { NsChain(c, a, b); }
  }

  lemma NsChain(a: Listed, b: Listed, c: Listed)
    requires NsLess(a, b) && NsLess(b, c)
    ensures NsLess(a, c)
  {
    if StrLess(a.name, b.name) && StrLess(b.name, c.name) {
      StrTransitive(a.name, b.name, c.name);
    } else if a.name == b.name == c.name {
      StrTransitive(a.stream, b.stream, c.stream);
    }
  }

  predicate ReleaseLess(a: Listed, b: Listed) {
    a.version < b.version || (a.version == b.version && StrLess(a.context, b.context))
  }

  /** The sort key of the latest builds: name, stream, numeric version, context. */
  predicate KeyLess(a: Listed, b: Listed) {
    NsLess(a, b) || (SameNs(a, b) && ReleaseLess(a, b))
  }

  lemma KeyTransitive(a: Listed, b: Listed, c: Listed)
    requires !KeyLess(b, a) && !KeyLess(c, b)
    ensures !KeyLess(c, a)
  {
    NsTotal(a, b);
    NsTotal(b, c);
    NsTotal(a, c);
    NsTransitive(a, b, c);
    StrTotal(a.context, b.context);
    StrTotal(b.context, c.context);
    StrTotal(a.context, c.context);
    if StrLess(a.context, b.context) && StrLess(b.context, c.context) { StrTransitive(a.context, b.context, c.context); }
  }

  predicate DescendingLess(a: Listed, b: Listed) {
    KeyLess(b, a)
  }

  /** sorted(): stable, by insertion. */
  function Insert(less: (Listed, Listed) -> bool, x: Listed, sorted: seq<Listed>): seq<Listed> {
    if sorted == [] || !less(sorted[0], x) then [x] + sorted else [sorted[0]] + Insert(less, x, sorted[1..])
  }

  function Sort(less: (Listed, Listed) -> bool, s: seq<Listed>): seq<Listed> {
    if s == [] then [] else Insert(less, s[0], Sort(less, s[1..]))
  }

  predicate Sorted(less: (Listed, Listed) -> bool, s: seq<Listed>) {
    forall i, j :: 0 <= i < j < |s| ==> !less(s[j], s[i])
  }

  ghost predicate Orders(less: (Listed, Listed) -> bool) {
    && (forall a, b, c :: !less(b, a) && !less(c, b) ==> !less(c, a))
    && (forall a, b :: less(a, b) ==> !less(b, a))
  }

  lemma {:induction false} InsertSorted(less: (Listed, Listed) -> bool, x: Listed, s: seq<Listed>)
    requires Orders(less) && Sorted(less, s)
    ensures Sorted(less, Insert(less, x, s))
    ensures forall y :: y in Insert(less, x, s) <==> y == x || y in s
  {
    if s != [] && less(s[0], x) {
      InsertSorted(less, x, s[1..]);
      assert s == [s[0]] + s[1..];
      var rest := Insert(less, x, s[1..]);
      forall k | 0 <= k < |rest| ensures !less(rest[k], s[0]) { assert rest[k] in rest; }
    } else {
      forall k | 0 <= k < |s| ensures !less(s[k], x) {
        if k > 0 { assert !less(s[k], s[0]); }
      }
    }
  }

  lemma {:induction false} SortSorted(less: (Listed, Listed) -> bool, s: seq<Listed>)
    requires Orders(less)
    ensures Sorted(less, Sort(less, s))
    ensures forall y :: y in Sort(less, s) <==> y in s
  {
    if s != [] {
      SortSorted(less, s[1..]);
      InsertSorted(less, s[0], Sort(less, s[1..]));
      assert s == [s[0]] + s[1..];
    }
  }

  lemma KeysOrder()
    ensures Orders(NsLess) && Orders(DescendingLess)
  {
    forall a, b, c | !NsLess(b, a) && !NsLess(c, b) ensures !NsLess(c, a) { NsTransitive(a, b, c); }
    forall a, b | NsLess(a, b) ensures !NsLess(b, a) { NsTotal(a, b); }
    forall a, b, c | !DescendingLess(b, a) && !DescendingLess(c, b) ensures !DescendingLess(c, a) {
      KeyTransitive(c, b, a);
    }
    forall a, b | DescendingLess(a, b) ensures !DescendingLess(b, a) {
      NsTotal(a, b);
      StrTotal(a.context, b.context);
    }
  }

  // ---- groups ----

  /** The builds of one name and stream lie together, as groupby needs them. */
  predicate Together(s: seq<Listed>) {
    forall i, j, k :: 0 <= i <= j <= k < |s| && SameNs(s[i], s[k]) ==> SameNs(s[i], s[j])
  }

  lemma SortedIsTogether(s: seq<Listed>)
    requires Sorted(NsLess, s) || Sorted(DescendingLess, s)
    ensures Together(s)
  {
    forall i, j, k | 0 <= i <= j <= k < |s| && SameNs(s[i], s[k]) ensures SameNs(s[i], s[j]) {
      if i < j < k {
        NsTotal(s[i], s[j]);
        NsTotal(s[j], s[k]);
        NsTotal(s[i], s[k]);
      }
    }
  }

  /** No build before `i` has the name and stream of one from `i` on. */
  predicate Boundary(s: seq<Listed>, i: nat) {
    forall p, q :: 0 <= p < i <= q < |s| ==> !SameNs(s[p], s[q])
  }

  /** s[i..j] holds exactly the builds of one name and stream. */
  ghost predicate IsGroup(s: seq<Listed>, builds: seq<Listed>, i: nat, j: nat) {
    && i < j <= |s| && (forall k :: i <= k < j ==> SameNs(s[i], s[k]))
    && (forall x :: x in s[i..j] <==> x in builds && SameNs(x, s[i]))
  }

  /** groupby: the group that starts at `i`. */
  method NextGroup(s: seq<Listed>, ghost builds: seq<Listed>, i: nat) returns (j: nat)
    requires i < |s| && Together(s) && Boundary(s, i) && forall y :: y in s <==> y in builds
    ensures IsGroup(s, builds, i, j) && Boundary(s, j)
  {
    j := i + 1;
    while j < |s| && SameNs(s[i], s[j])
      invariant i < j <= |s|
      invariant forall k :: i <= k < j ==> SameNs(s[i], s[k])
    {
      j := j + 1;
    }
    GroupIsWhole(s, builds, i, j);
  }

  lemma GroupIsWhole(s: seq<Listed>, builds: seq<Listed>, i: nat, j: nat)
    requires Together(s) && Boundary(s, i) && forall y :: y in s <==> y in builds
    requires i < j <= |s| && (j < |s| ==> !SameNs(s[i], s[j]))
    requires forall k :: i <= k < j ==> SameNs(s[i], s[k])
    ensures IsGroup(s, builds, i, j) && Boundary(s, j)
  {
    forall q | j <= q < |s| ensures !SameNs(s[i], s[q]) {}
    forall x ensures x in s[i..j] <==> x in builds && SameNs(x, s[i]) {
      if x in builds && SameNs(x, s[i]) {
        var k :| 0 <= k < |s| && s[k] == x;
        assert i <= k < j;
        assert s[i..j][k - i] == x;
      }
    }
    forall p, q | 0 <= p < j <= q < |s| ensures !SameNs(s[p], s[q]) {
      if p >= i { assert SameNs(s[i], s[p]); }
    }
  }

  // ---- _filter_inherited ----

  predicate Holds(builds: seq<Listed>, b: Listed, tag: string) {
    exists x :: x in builds && SameNs(x, b) && x.tag == tag
  }

  /** The build is in the first of the tags that holds any build of its name and stream. */
  predicate Topmost(b: Listed, builds: seq<Listed>, tags: seq<string>) {
    exists t :: 0 <= t < |tags| && tags[t] == b.tag && forall u :: 0 <= u < t ==> !Holds(builds, b, tags[u])
  }

  function KeepTopmost(part: seq<Listed>, all: seq<Listed>, tags: seq<string>): seq<Listed> {
    if part == [] then []
    else
      var last := part[|part| - 1];
      KeepTopmost(part[..|part| - 1], all, tags) + if Topmost(last, all, tags) then [last] else []
  }

  lemma {:induction false} KeepTopmostAre(part: seq<Listed>, all: seq<Listed>, tags: seq<string>, b: Listed)
    ensures b in KeepTopmost(part, all, tags) <==> b in part && Topmost(b, all, tags)
  {
    if part != [] {
      KeepTopmostAre(part[..|part| - 1], all, tags, b);
      assert part == part[..|part| - 1] + [part[|part| - 1]];
    }
  }

  /** The first tag that holds a build of the group, or the last tag if none does. */
  predicate StopsAt(group: seq<Listed>, tags: seq<string>, t: nat) {
    && t < |tags|
    && (forall u, x :: 0 <= u < t && x in group ==> x.tag != tags[u])
    && (t < |tags| - 1 ==> exists x :: x in group && x.tag == tags[t])
  }

  /** The search ends at the first tag that is available, or runs through. */
  method TopmostTag(group: seq<Listed>, tags: seq<string>) returns (t: nat)
    requires tags != []
    ensures StopsAt(group, tags, t)
  {
    var available := set x | x in group :: x.tag;
    t := 0;
    while t < |tags| - 1 && tags[t] !in available
      invariant 0 <= t < |tags|
      invariant forall u :: 0 <= u < t ==> tags[u] !in available
    {
      t := t + 1;
    }
  }

  /** `tags` is the top tag followed by the tags it inherits from. */
  method FilterInherited(builds: seq<Listed>, tags: seq<string>) returns (result: seq<Listed>)
    requires tags != []
    ensures result == KeepTopmost(Sort(NsLess, builds), builds, tags)
  {
    var s := SortByNs(builds);
    result := [];
    var i := 0;
    while i < |s|
      invariant 0 <= i <= |s| && Boundary(s, i)
      invariant result == KeepTopmost(s[..i], builds, tags)
    {
      var j := NextGroup(s, builds, i);
      var t := TopmostTag(s[i..j], tags);
      result := KeepTag(s, builds, i, j, tags, t, result);
      i := j;
    }
    assert s[..i] == s;
  }

  method SortByNs(builds: seq<Listed>) returns (s: seq<Listed>)
    ensures s == Sort(NsLess, builds) && Together(s) && forall y :: y in s <==> y in builds
  {
    s := Sort(NsLess, builds);
    KeysOrder();
    SortSorted(NsLess, builds);
    SortedIsTogether(s);
  }

  /** Keeps the builds of a group that are in the tag found. */
  method KeepTag(
    s: seq<Listed>, ghost builds: seq<Listed>, i: nat, j: nat, tags: seq<string>, t: nat, before: seq<Listed>)
    returns (result: seq<Listed>)
    requires IsGroup(s, builds, i, j) && StopsAt(s[i..j], tags, t) && before == KeepTopmost(s[..i], builds, tags)
    ensures result == KeepTopmost(s[..j], builds, tags)
  {
    result := before;
    var k := i;
    while k < j
      invariant i <= k <= j
      invariant result == KeepTopmost(s[..k], builds, tags)
    {
      assert s[..k + 1][..k] == s[..k];
      TopmostInGroup(s, builds, i, j, k, tags, t);
      if s[k].tag == tags[t] { result := result + [s[k]]; }
      k := k + 1;
    }
  }

  /** In a group, being in the tag found is being topmost. */
  lemma TopmostInGroup(s: seq<Listed>, builds: seq<Listed>, i: nat, j: nat, k: nat, tags: seq<string>, t: nat)
    requires IsGroup(s, builds, i, j) && i <= k < j && StopsAt(s[i..j], tags, t)
    ensures s[k].tag == tags[t] <==> Topmost(s[k], builds, tags)
  {
    var group, b := s[i..j], s[k];
    assert group[k - i] == b && SameNs(s[i], b);
    assert forall x :: x in group <==> x in builds && SameNs(x, b);
    assert forall u :: 0 <= u < t ==> !Holds(builds, b, tags[u]);
    assert t < |tags| - 1 ==> Holds(builds, b, tags[t]);
    if Topmost(b, builds, tags) {
      var n :| 0 <= n < |tags| && tags[n] == b.tag && forall u :: 0 <= u < n ==> !Holds(builds, b, tags[u]);
      assert Holds(builds, b, tags[n]);
      assert n <= t || t == |tags| - 1;
    }
  }

  // ---- the latest builds of a Koji tag ----

  predicate LatestOf(b: Listed, builds: seq<Listed>) {
    forall x :: x in builds && SameNs(x, b) ==> x.version <= b.version
  }

  function KeepLatest(part: seq<Listed>, all: seq<Listed>): seq<Listed> {
    if part == [] then []
    else
      var last := part[|part| - 1];
      KeepLatest(part[..|part| - 1], all) + if LatestOf(last, all) then [last] else []
  }

  lemma {:induction false} KeepLatestAre(part: seq<Listed>, all: seq<Listed>, b: Listed)
    ensures b in KeepLatest(part, all) <==> b in part && LatestOf(b, all)
  {
    if part != [] {
      KeepLatestAre(part[..|part| - 1], all, b);
      assert part == part[..|part| - 1] + [part[|part| - 1]];
    }
  }

  lemma OneMoreLatest(s: seq<Listed>, all: seq<Listed>, k: nat)
    requires k < |s|
    ensures KeepLatest(s[..k + 1], all) == KeepLatest(s[..k], all) + if LatestOf(s[k], all) then [s[k]] else []
  {
    assert s[..k + 1][..k] == s[..k];
  }

  /** Of every group by name and stream, the first group by version. */
  method FirstVersions(builds: seq<Listed>) returns (latest: seq<Listed>)
    ensures latest == KeepLatest(Sort(DescendingLess, builds), builds)
  {
    var s := SortDescending(builds);
    latest := [];
    var i := 0;
    while i < |s|
      invariant 0 <= i <= |s| && Boundary(s, i)
      invariant latest == KeepLatest(s[..i], builds)
    {
      var j := NextGroup(s, builds, i);
      latest := KeepFirstVersion(s, builds, i, j, latest);
      i := j;
    }
    assert s[..i] == s;
  }

  method SortDescending(builds: seq<Listed>) returns (s: seq<Listed>)
    ensures s == Sort(DescendingLess, builds) && Sorted(DescendingLess, s) && Together(s)
    ensures forall y :: y in s <==> y in builds
  {
    s := Sort(DescendingLess, builds);
    KeysOrder();
    SortSorted(DescendingLess, builds);
    SortedIsTogether(s);
  }

  /** groupby once more: the builds of a group that have the version of its first one. */
  method KeepFirstVersion(s: seq<Listed>, ghost builds: seq<Listed>, i: nat, j: nat, before: seq<Listed>)
    returns (latest: seq<Listed>)
    requires SortedGroup(s, builds, i, j) && before == KeepLatest(s[..i], builds)
    ensures latest == KeepLatest(s[..j], builds)
  {
    var e := VersionEnd(s, i, j);
    forall n | i <= n < e ensures LatestOf(s[n], builds) { FirstIsLatest(s, builds, i, j, n); }
    KeepRun(s, builds, i, e);
    SkipOlder(s, builds, i, e, j);
    latest := before + s[i..e];
  }

  method VersionEnd(s: seq<Listed>, i: nat, j: nat) returns (e: nat)
    requires i < j <= |s|
    ensures i <= e <= j && (e < j ==> s[e].version != s[i].version)
    ensures forall n :: i <= n < e ==> s[n].version == s[i].version
  {
    e := i;
    while e < j && s[e].version == s[i].version
      invariant i <= e <= j
      invariant forall n :: i <= n < e ==> s[n].version == s[i].version
    {
      e := e + 1;
    }
  }

  /** One group of the list in descending order. */
  ghost predicate SortedGroup(s: seq<Listed>, builds: seq<Listed>, i: nat, j: nat) {
    Sorted(DescendingLess, s) && IsGroup(s, builds, i, j)
  }

  /** Of the group, everything up to `e` is kept. */
  ghost predicate KeptTo(s: seq<Listed>, builds: seq<Listed>, i: nat, e: nat)
    requires i <= e <= |s|
  {
    KeepLatest(s[..e], builds) == KeepLatest(s[..i], builds) + s[i..e]
  }

  lemma {:induction false} KeepRun(s: seq<Listed>, builds: seq<Listed>, i: nat, e: nat)
    requires i <= e <= |s| && forall n :: i <= n < e ==> LatestOf(s[n], builds)
    ensures KeptTo(s, builds, i, e)
    decreases e
  {
    if e > i {
      KeepRun(s, builds, i, e - 1);
      KeepOneMore(s, builds, i, e - 1);
    } else {
      KeptNone(s, builds, i);
    }
  }

  lemma KeptNone(s: seq<Listed>, builds: seq<Listed>, i: nat)
    requires i <= |s|
    ensures KeptTo(s, builds, i, i)
  {
    assert s[i..i] == [];
  }

  lemma KeepOneMore(s: seq<Listed>, builds: seq<Listed>, i: nat, d: nat)
    requires i <= d < |s| && LatestOf(s[d], builds) && KeptTo(s, builds, i, d)
    ensures KeptTo(s, builds, i, d + 1)
  {
    OneMoreLatest(s, builds, d);
    ExtendRun(KeepLatest(s[..i], builds), s, i, d, KeepLatest(s[..d], builds), KeepLatest(s[..d + 1], builds));
  }

  lemma ExtendRun(before: seq<Listed>, s: seq<Listed>, i: nat, d: nat, kept: seq<Listed>, more: seq<Listed>)
    requires i <= d < |s| && kept == before + s[i..d] && more == kept + [s[d]]
    ensures more == before + s[i..d + 1]
  {
    assert s[i..d + 1] == s[i..d] + [s[d]];
  }

  /** In a group of the sorted list versions fall, so a build is the latest if it has the first one's version. */
  lemma FirstIsLatest(s: seq<Listed>, builds: seq<Listed>, i: nat, j: nat, k: nat)
    requires SortedGroup(s, builds, i, j) && i <= k < j
    ensures LatestOf(s[k], builds) <==> s[k].version == s[i].version
  {
    forall n | i <= n < j ensures s[n].version <= s[i].version {
      assert s[i..j][n - i] in builds && SameNs(s[i..j][n - i], s[i]);
      if n > i { assert !DescendingLess(s[n], s[i]); }
    }
    forall x | x in builds && SameNs(x, s[i]) ensures x.version <= s[i].version {
      var n :| 0 <= n < |s[i..j]| && s[i..j][n] == x;
      assert s[i + n] == x;
    }
    assert s[i..j][0] == s[i] && s[i] in s[i..j];
    assert SameNs(s[i], s[k]);
  }

  /** The rest of a group after its first version adds nothing. */
  lemma {:induction false} SkipOlder(s: seq<Listed>, builds: seq<Listed>, i: nat, k: nat, j: nat)
    requires SortedGroup(s, builds, i, j) && i <= k <= j
    requires k < j ==> s[k].version != s[i].version
    ensures KeepLatest(s[..j], builds) == KeepLatest(s[..k], builds)
    decreases j - k
  {
    if k < j {
      SkipOneOlder(s, builds, i, k, j);
      if k + 1 < j { OlderStays(s, i, k); }
      SkipOlder(s, builds, i, k + 1, j);
    }
  }

  lemma SkipOneOlder(s: seq<Listed>, builds: seq<Listed>, i: nat, k: nat, j: nat)
    requires SortedGroup(s, builds, i, j) && i <= k < j && s[k].version != s[i].version
    ensures KeepLatest(s[..k + 1], builds) == KeepLatest(s[..k], builds)
  {
    FirstIsLatest(s, builds, i, j, k);
    OneMoreLatest(s, builds, k);
  }

  lemma OlderStays(s: seq<Listed>, i: nat, k: nat)
    requires Sorted(DescendingLess, s) && i < k && k + 1 < |s|
    requires SameNs(s[i], s[k]) && SameNs(s[i], s[k + 1]) && s[k].version != s[i].version
    ensures s[k + 1].version != s[i].version
  {
    assert !DescendingLess(s[k], s[i]) && !DescendingLess(s[k + 1], s[k]);
  }

  /** A stream as Koji stores it: a version cannot contain a dash. */
  function Normalized(stream: string): string {
    seq(|stream|, i requires 0 <= i < |stream| => if stream[i] == '-' then '_' else stream[i])
  }

  function OfStream(listed: seq<Listed>, stream: string): seq<Listed> {
    if listed == [] then []
    else (if listed[0].stream == Normalized(stream) then [listed[0]] else []) + OfStream(listed[1..], stream)
  }

  predicate RealStreamFits(b: Listed, stream: string) {
    b.realStream == None || b.realStream.value == "" || b.realStream.value == stream
  }

  /** _filter_based_on_real_stream_name */
  function OfRealStream(listed: seq<Listed>, stream: string): seq<Listed> {
    if listed == [] then []
    else (if RealStreamFits(listed[0], stream) then [listed[0]] else []) + OfRealStream(listed[1..], stream)
  }

  lemma {:induction false} StreamsAre(listed: seq<Listed>, stream: string, b: Listed)
    ensures b in OfStream(listed, stream) <==> b in listed && b.stream == Normalized(stream)
    ensures b in OfRealStream(listed, stream) <==> b in listed && RealStreamFits(b, stream)
  {
    if listed != [] {
      StreamsAre(listed[1..], stream, b);
      assert listed == [listed[0]] + listed[1..];
    }
  }

  /** get_buildrequired_koji_builds, of what Koji lists for the tag and the package. */
  method KojiBuilds(listed: seq<Listed>, stream: string, tags: seq<string>) returns (latest: seq<Listed>)
    requires tags != []
    ensures latest == KojiBuildsOf(listed, stream, tags)
  {
    var builds := OfStream(listed, stream);
    builds := FilterInherited(builds, tags);
    builds := OfRealStream(builds, stream);
    latest := FirstVersions(builds);
  }

  function TopmostBuilds(listed: seq<Listed>, stream: string, tags: seq<string>): seq<Listed> {
    var builds := OfStream(listed, stream);
    OfRealStream(KeepTopmost(Sort(NsLess, builds), builds, tags), stream)
  }

  function KojiBuildsOf(listed: seq<Listed>, stream: string, tags: seq<string>): seq<Listed> {
    var builds := TopmostBuilds(listed, stream, tags);
    KeepLatest(Sort(DescendingLess, builds), builds)
  }

  /** Listed in the topmost tag that holds any build of its name and normalised stream, and of the stream asked for. */
  predicate Inherits(b: Listed, listed: seq<Listed>, stream: string, tags: seq<string>) {
    && b in listed && b.stream == Normalized(stream) && RealStreamFits(b, stream)
    && exists t :: 0 <= t < |tags| && tags[t] == b.tag
         && forall u :: 0 <= u < t ==> !Holds(listed, b, tags[u])
  }

  lemma TopmostBuildsAre(listed: seq<Listed>, stream: string, tags: seq<string>, b: Listed)
    ensures b in TopmostBuilds(listed, stream, tags) <==> Inherits(b, listed, stream, tags)
  {
    var builds := OfStream(listed, stream);
    KeysOrder();
    SortSorted(NsLess, builds);
    KeepTopmostAre(Sort(NsLess, builds), builds, tags, b);
    forall x ensures x in builds <==> x in listed && x.stream == Normalized(stream) { StreamsAre(listed, stream, x); }
    StreamsAre(KeepTopmost(Sort(NsLess, builds), builds, tags), stream, b);
    if b in builds {
      forall tag ensures Holds(builds, b, tag) <==> Holds(listed, b, tag) {
        assert forall x :: x in listed && SameNs(x, b) ==> x in builds;
      }
    }
  }

  /**
   Sorting and grouping keeps exactly the builds, in every context, of the greatest version for their name
   among those left by inheritance and by the real stream name.
   */
  lemma KojiBuildsAreLatest(listed: seq<Listed>, stream: string, tags: seq<string>, b: Listed)
    ensures b in KojiBuildsOf(listed, stream, tags) <==>
      && Inherits(b, listed, stream, tags)
      && forall x :: Inherits(x, listed, stream, tags) && x.name == b.name ==> x.version <= b.version
  {
    var builds := TopmostBuilds(listed, stream, tags);
    KeysOrder();
    SortSorted(DescendingLess, builds);
    KeepLatestAre(Sort(DescendingLess, builds), builds, b);
    forall x ensures x in builds <==> Inherits(x, listed, stream, tags) { TopmostBuildsAre(listed, stream, tags, x); }
  }

  /** The stream as Koji stores it, with underscores for dashes; the real stream, if the build tells it. */
  predicate IsOfStream(b: Listed, stream: string) {
    && |b.stream| == |stream|
    && (forall i :: 0 <= i < |stream| ==> b.stream[i] == if stream[i] == '-' then '_' else stream[i])
    && (b.realStream.Some? && b.realStream.value != "" ==> b.realStream.value == stream)
  }

  /** No tag before its own holds a build of that name and stream. */
  predicate InTopmostTag(b: Listed, listed: seq<Listed>, tags: seq<string>) {
    exists t :: 0 <= t < |tags| && tags[t] == b.tag
      && forall u, x :: 0 <= u < t && x in listed && x.name == b.name && x.stream == b.stream ==> x.tag != tags[u]
  }

  lemma InheritsIff(b: Listed, listed: seq<Listed>, stream: string, tags: seq<string>)
    ensures Inherits(b, listed, stream, tags) <==> b in listed && IsOfStream(b, stream) && InTopmostTag(b, listed, tags)
  {
    assert b.stream == Normalized(stream) <==>
      |b.stream| == |stream|
      && forall i :: 0 <= i < |stream| ==> b.stream[i] == if stream[i] == '-' then '_' else stream[i];
    if InTopmostTag(b, listed, tags) {
      var t :| 0 <= t < |tags| && tags[t] == b.tag
        && forall u, x :: 0 <= u < t && x in listed && x.name == b.name && x.stream == b.stream ==> x.tag != tags[u];
      assert forall u :: 0 <= u < t ==> !Holds(listed, b, tags[u]);
    }
    if t :| 0 <= t < |tags| && tags[t] == b.tag && forall u :: 0 <= u < t ==> !Holds(listed, b, tags[u]) {
      forall u, x | 0 <= u < t && x in listed && x.name == b.name && x.stream == b.stream ensures x.tag != tags[u] {
        assert !Holds(listed, b, tags[u]) && SameNs(x, b);
      }
    }
  }

  lemma {:induction false} KeepLatestSorted(part: seq<Listed>, all: seq<Listed>)
    requires Sorted(DescendingLess, part)
    ensures Sorted(DescendingLess, KeepLatest(part, all))
    ensures forall x :: x in KeepLatest(part, all) ==> x in part
  {
    if part != [] {
      var n := |part| - 1;
      var before := KeepLatest(part[..n], all);
      assert forall i :: 0 <= i < n ==> part[..n][i] == part[i];
      KeepLatestSorted(part[..n], all);
      forall i | 0 <= i < |before| ensures !DescendingLess(part[n], before[i]) {
        assert before[i] in part[..n];
      }
    }
  }

  /** The builds kept come in descending order: of one name and stream, contexts fall. */
  lemma KojiBuildsFall(listed: seq<Listed>, stream: string, tags: seq<string>, i: nat, j: nat)
    requires i < j < |KojiBuildsOf(listed, stream, tags)|
    ensures var r := KojiBuildsOf(listed, stream, tags);
      var a, b := r[i], r[j];
      && !StrLess(a.name, b.name)
      && (a.name == b.name ==> a.stream == b.stream && a.version == b.version && !StrLess(a.context, b.context))
  {
    var builds, r := TopmostBuilds(listed, stream, tags), KojiBuildsOf(listed, stream, tags);
    KeysOrder();
    SortSorted(DescendingLess, builds);
    KeepLatestSorted(Sort(DescendingLess, builds), builds);
    assert r[i] in r && r[j] in r;
    KojiBuildsAreLatest(listed, stream, tags, r[i]);
    KojiBuildsAreLatest(listed, stream, tags, r[j]);
    assert !DescendingLess(r[j], r[i]);
    NsTotal(r[i], r[j]);
    StrTotal(r[i].name, r[j].name);
    StrTotal(r[i].context, r[j].context);
  }
}
