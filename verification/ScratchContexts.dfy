/**
 The contexts of module builds submitted one after the other: scratch builds get a counter appended to
 their context (submit_module_build in module_build_service/web/submit.py).
 */
module ScratchContexts {
  import opened Decimals

  /** name:stream:version of a build as one value, and its context. */
  datatype Row = Row(nsv: string, context: string, scratch: bool)

  datatype Submission = Submission(nsv: string, context: string, scratch: bool)

  predicate HasPrefix(s: string, prefix: string) {
    |s| >= |prefix| && s[..|prefix|] == prefix
  }

  /** get_scratch_builds_from_nsvc: the context is used as a prefix to match. */
  function ScratchBuilds(rows: seq<Row>, nsv: string, context: string): nat {
    if rows == [] then 0
    else
      ScratchBuilds(rows[..|rows| - 1], nsv, context)
      + (var r := rows[|rows| - 1]; if r.scratch && r.nsv == nsv && HasPrefix(r.context, context) then 1 else 0)
  }

  predicate Exists(rows: seq<Row>, nsv: string, context: string) {
    exists i :: 0 <= i < |rows| && rows[i].nsv == nsv && rows[i].context == context
  }

  function ScratchContext(context: string, k: nat): string {
    context + "_" + ToString(k)
  }

  /** The context of a scratch build counts the scratch builds there are. */
  function NextContext(rows: seq<Row>, s: Submission): string {
    ScratchContext(s.context, ScratchBuilds(rows, s.nsv, s.context) + 1)
  }

  /** A normal submission of a build that exists only resumes it; every other submission adds a row. */
  function Submit(rows: seq<Row>, s: Submission): seq<Row> {
    if s.scratch then rows + [Row(s.nsv, NextContext(rows, s), true)]
    else if Exists(rows, s.nsv, s.context) then rows
    else rows + [Row(s.nsv, s.context, false)]
  }

  function SubmitAll(submissions: seq<Submission>): seq<Row> {
    if submissions == [] then []
    else Submit(SubmitAll(submissions[..|submissions| - 1]), submissions[|submissions| - 1])
  }

  /** One modulemd of a request. */
  method SubmitModuleBuild(rows: seq<Row>, s: Submission) returns (r: seq<Row>)
    ensures r == Submit(rows, s)
  {
    r := rows;
    if s.scratch {
      var count := ScratchBuilds(rows, s.nsv, s.context);
      r := r + [Row(s.nsv, ScratchContext(s.context, count + 1), true)];
    } else if !Exists(rows, s.nsv, s.context) {
      r := r + [Row(s.nsv, s.context, false)];
    }
  }

  /** The rows, as the loop over the modulemds of a request adds them. */
  method SubmitModuleBuilds(rows: seq<Row>, submissions: seq<Submission>, ghost before: seq<Submission>)
    returns (r: seq<Row>)
    requires rows == SubmitAll(before)
    ensures r == SubmitAll(before + submissions)
  {
    r := rows;
    var i := 0;
    assert before + submissions[..0] == before;
    while i < |submissions|
      invariant 0 <= i <= |submissions|
      invariant r == SubmitAll(before + submissions[..i])
    {
      r := SubmitModuleBuild(r, submissions[i]);
      SubmitOneMore(before, submissions, i);
      i := i + 1;
    }
    assert submissions[..i] == submissions;
  }

  lemma SubmitOneMore(before: seq<Submission>, submissions: seq<Submission>, i: nat)
    requires i < |submissions|
    ensures SubmitAll(before + submissions[..i + 1]) == Submit(SubmitAll(before + submissions[..i]), submissions[i])
  {
    var all := before + submissions[..i + 1];
    assert all[..|all| - 1] == before + submissions[..i];
  }

  // ---- no two rows are the same build ----

  predicate Distinct(rows: seq<Row>) {
    forall i, j :: 0 <= i < j < |rows| ==> rows[i].nsv != rows[j].nsv || rows[i].context != rows[j].context
  }

  /** The scratch build that follows `before` is the k-th of its base context, and ends in _k. */
  ghost predicate NumberedRow(before: seq<Row>, r: Row) {
    r.scratch ==> exists base: string :: r.context == ScratchContext(base, ScratchBuilds(before, r.nsv, base) + 1)
  }

  ghost predicate Numbered(rows: seq<Row>) {
    forall i :: 0 <= i < |rows| ==> NumberedRow(rows[..i], rows[i])
  }

  lemma {:induction false} CountGrows(rows: seq<Row>, i: nat, nsv: string, context: string)
    requires i < |rows| && rows[i].scratch && rows[i].nsv == nsv && HasPrefix(rows[i].context, context)
    ensures ScratchBuilds(rows[..i], nsv, context) < ScratchBuilds(rows, nsv, context)
    decreases |rows|
  {
    var shorter := rows[..|rows| - 1];
    if i < |shorter| {
      CountGrows(shorter, i, nsv, context);
      assert shorter[..i] == rows[..i];
    }
  }

  /** The character that separates base and number, and that none but digits follow. */
  lemma ContextShape(base: string, k: nat)
    ensures var c := ScratchContext(base, k);
      && |c| > |base| && HasPrefix(c, base) && c[|base|] == '_' && c[|base| + 1..] == ToString(k)
      && forall i :: |base| < i < |c| ==> IsDigit(c[i])
  {
    var c := ScratchContext(base, k);
    assert c == base + ("_" + ToString(k));
    forall i | |base| < i < |c| ensures IsDigit(c[i]) { assert c[i] == ToString(k)[i - |base| - 1]; }
  }

  /** The last underscore tells base and number apart. */
  lemma ContextSplits(a: string, k: nat, b: string, l: nat)
    requires ScratchContext(a, k) == ScratchContext(b, l)
    ensures a == b && k == l
  {
    ContextShape(a, k);
    ContextShape(b, l);
    assert |a| == |b|;
    ToNatOfToString(k);
    ToNatOfToString(l);
  }

  /** An earlier scratch build has another base or a smaller number. */
  lemma ScratchDiffers(rows: seq<Row>, i: nat, base: string, context: string)
    requires i < |rows| && rows[i].scratch && NumberedRow(rows[..i], rows[i])
    requires context == ScratchContext(base, ScratchBuilds(rows, rows[i].nsv, base) + 1)
    ensures rows[i].context != context
  {
    var nsv := rows[i].nsv;
    var other: string :| rows[i].context == ScratchContext(other, ScratchBuilds(rows[..i], nsv, other) + 1);
    var k, l := ScratchBuilds(rows[..i], nsv, other) + 1, ScratchBuilds(rows, nsv, base) + 1;
    ScratchOfBase(rows[i].context, other, k);
    CountGrows(rows, i, nsv, other);
    OtherContext(other, k, base, l);
  }

  lemma ScratchOfBase(context: string, base: string, k: nat)
    requires context == ScratchContext(base, k)
    ensures HasPrefix(context, base)
  {
    ContextShape(base, k);
  }

  lemma OtherContext(a: string, k: nat, b: string, l: nat)
    requires a == b ==> k != l
    ensures ScratchContext(a, k) != ScratchContext(b, l)
  {
    if ScratchContext(a, k) == ScratchContext(b, l) { ContextSplits(a, k, b, l); }
  }

  /** The scratch build about to be created would get the context of a normal build of the same name:stream:version. */
  predicate Clashes(rows: seq<Row>, s: Submission) {
    s.scratch
    && exists i :: 0 <= i < |rows| && !rows[i].scratch && rows[i].nsv == s.nsv
         && rows[i].context == NextContext(rows, s)
  }

  lemma AddDistinct(rows: seq<Row>, r: Row)
    requires Numbered(rows) && NumberedRow(rows, r)
    ensures Numbered(rows + [r])
    ensures Distinct(rows + [r]) <==> Distinct(rows) && !Exists(rows, r.nsv, r.context)
  {
    var all := rows + [r];
    forall i | 0 <= i < |all| ensures NumberedRow(all[..i], all[i]) {
      assert all[..i] == rows[..i];
      if i < |rows| { assert NumberedRow(rows[..i], rows[i]); } else { assert rows[..i] == rows; }
    }
    assert forall i :: 0 <= i < |rows| ==> all[i] == rows[i];
    if Exists(rows, r.nsv, r.context) {
      var i :| 0 <= i < |rows| && rows[i].nsv == r.nsv && rows[i].context == r.context;
      assert all[i].context == all[|rows|].context;
    }
    if Distinct(all) {
      forall i, j | 0 <= i < j < |rows| ensures rows[i].nsv != rows[j].nsv || rows[i].context != rows[j].context {
        assert all[i] == rows[i] && all[j] == rows[j];
      }
    }
  }

  /** The new context of a scratch build is taken exactly by a normal build. */
  lemma TakenByNormal(rows: seq<Row>, s: Submission)
    requires Numbered(rows) && s.scratch
    ensures Exists(rows, s.nsv, NextContext(rows, s)) <==> Clashes(rows, s)
  {
    forall i | 0 <= i < |rows| && rows[i].scratch && rows[i].nsv == s.nsv ensures rows[i].context != NextContext(rows, s) {
      assert NumberedRow(rows[..i], rows[i]);
      ScratchDiffers(rows, i, s.context, NextContext(rows, s));
    }
  }

  lemma ScratchKeepsDistinctIff(rows: seq<Row>, s: Submission, r: Row)
    requires Numbered(rows) && s.scratch && r == Row(s.nsv, NextContext(rows, s), true)
    ensures Numbered(rows + [r])
    ensures Distinct(rows + [r]) <==> Distinct(rows) && !Clashes(rows, s)
  {
    TakenByNormal(rows, s);
    assert r.context == ScratchContext(s.context, ScratchBuilds(rows, r.nsv, s.context) + 1);
    AddDistinct(rows, r);
  }

  /** One submission keeps builds apart if and only if it does not clash. */
  lemma SubmitKeepsDistinctIff(rows: seq<Row>, s: Submission)
    requires Numbered(rows)
    ensures Numbered(Submit(rows, s))
    ensures Distinct(Submit(rows, s)) <==> Distinct(rows) && !Clashes(rows, s)
  {
    if s.scratch {
      ScratchKeepsDistinctIff(rows, s, Row(s.nsv, NextContext(rows, s), true));
    } else if !Exists(rows, s.nsv, s.context) {
      AddDistinct(rows, Row(s.nsv, s.context, false));
    }
  }

  /** Submission `t` clashed with the builds that existed when it was made. */
  predicate ClashedAt(submissions: seq<Submission>, t: nat)
    requires t < |submissions|
  {
    Clashes(SubmitAll(submissions[..t]), submissions[t])
  }

  predicate NeverClashed(submissions: seq<Submission>) {
    forall t :: 0 <= t < |submissions| ==> !ClashedAt(submissions, t)
  }

  lemma NeverClashedSplits(submissions: seq<Submission>, n: nat)
    requires |submissions| == n + 1
    ensures NeverClashed(submissions) <==> NeverClashed(submissions[..n]) && !ClashedAt(submissions, n)
  {
    var before := submissions[..n];
    forall t | 0 <= t < n ensures ClashedAt(before, t) <==> ClashedAt(submissions, t) {
      assert before[..t] == submissions[..t];
    }
  }

  /**
   Over any sequence of scratch and normal submissions in which nothing is deleted, no two builds share
   name:stream:version:context if and only if no submission clashed when it was made. The k-th scratch
   build of a base context ends in _k throughout.
   */
  lemma {:induction false} NoTwoBuildsShareNsvcIff(submissions: seq<Submission>)
    ensures Numbered(SubmitAll(submissions))
    ensures Distinct(SubmitAll(submissions)) <==> NeverClashed(submissions)
    decreases |submissions|
  {
    if submissions != [] {
      var n := |submissions| - 1;
      var before := submissions[..n];
      NoTwoBuildsShareNsvcIff(before);
      SubmitKeepsDistinctIff(SubmitAll(before), submissions[n]);
      NeverClashedSplits(submissions, n);
    }
  }

  /** Normal builds have contexts of length `n`. */
  predicate NormalOfLength(rows: seq<Row>, n: nat) {
    forall i :: 0 <= i < |rows| && !rows[i].scratch ==> |rows[i].context| == n
  }

  lemma {:induction false} SubmittedLengths(submissions: seq<Submission>, n: nat)
    requires forall i :: 0 <= i < |submissions| && !submissions[i].scratch ==> |submissions[i].context| == n
    ensures NormalOfLength(SubmitAll(submissions), n)
    decreases |submissions|
  {
    if submissions != [] { SubmittedLengths(submissions[..|submissions| - 1], n); }
  }

  /** With contexts of one length, as the service computes them, nothing ever clashes. */
  lemma OneLengthNeverClashes(submissions: seq<Submission>, n: nat)
    requires forall i :: 0 <= i < |submissions| ==> |submissions[i].context| == n
    ensures Distinct(SubmitAll(submissions))
  {
    NoTwoBuildsShareNsvcIff(submissions);
    forall t | 0 <= t < |submissions| ensures !ClashedAt(submissions, t) {
      var rows, s := SubmitAll(submissions[..t]), submissions[t];
      SubmittedLengths(submissions[..t], n);
      ContextShape(s.context, ScratchBuilds(rows, s.nsv, s.context) + 1);
    }
  }

  lemma TwoSubmissions(a: Submission, b: Submission)
    ensures SubmitAll([a, b]) == Submit(Submit([], a), b)
  {
    var none: seq<Submission> := [];
    assert [a][..0] == none;
    assert SubmitAll([a]) == Submit(SubmitAll(none), a);
    assert [a, b][..1] == [a];
  }

  lemma NoScratchBuilds(r: Row, nsv: string, context: string)
    requires !r.scratch
    ensures ScratchBuilds([r], nsv, context) == 0
  {
    var none: seq<Row> := [r][..0];
    assert none == [];
  }

  /**
   Contexts of different lengths may clash: the first scratch build of the context "c" becomes "c_1",
   whether or not there is a normal build of that context.
   */
  lemma MixedLengthsMayClash(nsv: string)
    ensures !Distinct(SubmitAll([Submission(nsv, "c_1", false), Submission(nsv, "c", true)]))
  {
    var a, b := Submission(nsv, "c_1", false), Submission(nsv, "c", true);
    var normal := Row(nsv, "c_1", false);
    TwoSubmissions(a, b);
    NoScratchBuilds(normal, nsv, "c");
    assert Submit([], a) == [normal];
    var rows := Submit([normal], b);
    assert rows == [normal] + [Row(nsv, ScratchContext("c", 1), true)];
    assert ToString(1) == "1";
    assert ScratchContext("c", 1) == "c_1";
    assert rows[0].nsv == rows[1].nsv && rows[0].context == rows[1].context;
  }
}
