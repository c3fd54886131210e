/** Decimal strings. */
module Decimals {
  predicate IsDigit(c: char) { '0' <= c <= '9' }

  predicate AllDigits(s: string) { forall i :: 0 <= i < |s| ==> IsDigit(s[i]) }

  /** int() of a string of digits; anything else counts as 0. */
  function ToNat(s: string): nat {
    if s == "" then 0
    else 10 * ToNat(s[..|s| - 1]) + (if IsDigit(s[|s| - 1]) then (s[|s| - 1] - '0') as nat else 0)
  }

  /** str() of a natural number. */
  function ToString(n: nat): (s: string)
    ensures |s| >= 1 && AllDigits(s)
  {
    var last := ['0' + (n % 10) as char];
    if n < 10 then last else ToString(n / 10) + last
  }

  function Power10(n: nat): (r: nat)
    ensures r >= 1
  {
    if n == 0 then 1 else 10 * Power10(n - 1)
  }

  lemma {:induction false} ToNatOfToString(n: nat)
    ensures ToNat(ToString(n)) == n
  {
    var last := ['0' + (n % 10) as char];
    if n >= 10 {
      ToNatOfToString(n / 10);
      assert ToString(n)[..|ToString(n)| - 1] == ToString(n / 10);
    } else {
      assert ToString(n)[..0] == "";
    }
  }

  lemma {:induction false} ToNatConcat(a: string, b: string)
    ensures ToNat(a + b) == ToNat(a) * Power10(|b|) + ToNat(b)
  {
    if b == "" {
      assert a + b == a;
    } else {
      var shorter := b[..|b| - 1];
      ToNatConcat(a, shorter);
      assert (a + b)[..|a + b| - 1] == a + shorter;
      TenTimes(ToNat(a), Power10(|shorter|));
    }
  }

  lemma TenTimes(x: nat, unit: nat)
    ensures x * (10 * unit) == 10 * (x * unit)
  {}

  lemma {:induction false} ToNatBound(s: string)
    ensures ToNat(s) < Power10(|s|)
  {
    if s != "" { ToNatBound(s[..|s| - 1]); }
  }

  /** A longer numeral is a larger number. */
  lemma LengthIsMagnitude(n: nat)
    ensures n < Power10(|ToString(n)|)
  {
    ToNatOfToString(n);
    ToNatBound(ToString(n));
  }
}

/**
 Stream versions (get_stream_version in module_build_service/common/models.py), their x, y and z, and the
 versions prefixed by them (module_build_service/web/submit.py).
 */
module StreamVersions {
  import opened Wrappers
  import opened Decimals
  import LatestBuilds

  // ---- get_stream_version ----

  /** The part of a stream that is its version, `version` being what was found before. */
  function Scan(stream: string, version: string): string {
    if stream == "" then version
    else
      var c := stream[0];
      if IsDigit(c) then Scan(stream[1..], version + [c])
      else if version == "" then Scan(stream[1..], version)
      else if c == '.' then Scan(stream[1..], version + ".")
      else version
  }

  /** rstrip(".") */
  function StripDots(s: string): string {
    if s != "" && s[|s| - 1] == '.' then StripDots(s[..|s| - 1]) else s
  }

  /** The part of `s` before its first dot. */
  function UpToDot(s: string): (r: string)
    ensures |r| <= |s| && r <= s && (|r| < |s| ==> s[|r|] == '.')
  {
    if s == "" || s[0] == '.' then "" else [s[0]] + UpToDot(s[1..])
  }

  /** zfill(2) */
  function ZFill(s: string): string {
    if |s| == 0 then "00" else if |s| == 1 then "0" + s else s
  }

  /** split("."), every section filled to two digits, joined again. */
  function Padded(s: string): string
    decreases |s|
  {
    var first := UpToDot(s);
    ZFill(first) + if |first| == |s| then "" else Padded(s[|first| + 1..])
  }

  function Zeros(n: int): string {
    if n <= 0 then "" else Zeros(n - 1) + "0"
  }

  function RightPad(s: string, rightPad: bool): string {
    if rightPad then s + Zeros(6 - |s|) else s
  }

  /** get_stream_version; `suffix` is what the configuration adds to this stream. */
  function StreamVersion(stream: string, rightPad: bool, suffix: real): real {
    ToNat(RightPad(Padded(StripDots(Scan(stream, ""))), rightPad)) as real + suffix
  }

  method GetStreamVersion(stream: string, rightPad: bool, suffix: real) returns (result: real)
    ensures result == StreamVersion(stream, rightPad, suffix)
  {
    var version := "";
    var i := 0;
    assert stream[0..] == stream;
    while i < |stream|
      invariant 0 <= i <= |stream|
      invariant Scan(stream, "") == Scan(stream[i..], version)
    {
      var c := stream[i];
      assert stream[i..][0] == c && stream[i..][1..] == stream[i + 1..];
      if IsDigit(c) {
        version := version + [c];
      } else if version != "" {
        if c == '.' { version := version + "."; } else { break; }
      }
      i := i + 1;
    }
    assert Scan(stream, "") == version;
    var digits := Padded(StripDots(version));
    if rightPad { digits := digits + Zeros(6 - |digits|); }
    result := ToNat(digits) as real + suffix;
  }

  // ---- streams of the form prefix x.y.z ----

  predicate NoDigits(s: string) { forall i :: 0 <= i < |s| ==> !IsDigit(s[i]) }

  /** What ends a version: nothing, or a character that is neither a digit nor a dot. */
  predicate Ends(tail: string) { tail == "" || (!IsDigit(tail[0]) && tail[0] != '.') }

  /** One or two digits: a number up to 99. */
  predicate Section(s: string) { 1 <= |s| <= 2 && AllDigits(s) }

  lemma {:induction false} ScanPrefix(prefix: string, rest: string)
    requires NoDigits(prefix)
    ensures Scan(prefix + rest, "") == Scan(rest, "")
  {
    if prefix == "" {
      assert prefix + rest == rest;
    } else {
      assert (prefix + rest)[0] == prefix[0] && (prefix + rest)[1..] == prefix[1..] + rest;
      ScanPrefix(prefix[1..], rest);
    }
  }

  lemma {:induction false} ScanVersion(part: string, tail: string, version: string)
    requires Ends(tail) && forall i :: 0 <= i < |part| ==> IsDigit(part[i]) || part[i] == '.'
    requires version != "" || (part != "" && IsDigit(part[0]))
    ensures Scan(part + tail, version) == version + part
    decreases |part|
  {
    if part == "" {
      assert part + tail == tail;
    } else {
      assert (part + tail)[0] == part[0] && (part + tail)[1..] == part[1..] + tail;
      ScanVersion(part[1..], tail, version + [part[0]]);
      assert version + [part[0]] + part[1..] == version + part;
    }
  }

  lemma DigitsUpToDot(s: string, rest: string)
    requires AllDigits(s) && (rest == "" || rest[0] == '.')
    ensures UpToDot(s + rest) == s
  {
    if s == "" {
      assert s + rest == rest;
    } else {
      assert (s + rest)[0] == s[0] && (s + rest)[1..] == s[1..] + rest;
      DigitsUpToDot(s[1..], rest);
    }
  }

  lemma PaddedLast(s: string)
    requires Section(s)
    ensures Padded(s) == ZFill(s)
  {
    assert s + "" == s;
    DigitsUpToDot(s, "");
  }

  lemma PaddedFirst(s: string, rest: string)
    requires Section(s)
    ensures Padded(s + ("." + rest)) == ZFill(s) + Padded(rest)
  {
    DigitsUpToDot(s, "." + rest);
    assert (s + ("." + rest))[|s| + 1..] == rest;
  }

  lemma ZFillValue(s: string)
    requires Section(s)
    ensures |ZFill(s)| == 2 && ToNat(ZFill(s)) == ToNat(s) <= 99 && ToNat(s) < 100
  {
    ToNatBound(s);
    if |s| == 1 { ToNatConcat("0", s); }
    assert Power10(1) == 10 && Power10(2) == 100;
  }

  lemma {:induction false} ZerosValue(n: nat)
    ensures |Zeros(n)| == n && ToNat(Zeros(n)) == 0
  {
    if n > 0 { ZerosValue(n - 1); }
  }

  /** The version part x, x.y or x.y.z. */
  function Written(x: string, y: Option<string>, z: Option<string>): string {
    if y == None then x
    else if z == None then x + ("." + y.value)
    else x + ("." + (y.value + ("." + z.value)))
  }

  function ValueOf(s: Option<string>): nat {
    if s.Some? then ToNat(s.value) else 0
  }

  predicate Sections(x: string, y: Option<string>, z: Option<string>) {
    Section(x) && (y.Some? ==> Section(y.value)) && (z.Some? ==> y.Some? && Section(z.value))
  }

  lemma WrittenIsScanned(prefix: string, x: string, y: Option<string>, z: Option<string>, tail: string)
    requires NoDigits(prefix) && Ends(tail) && Sections(x, y, z)
    ensures StripDots(Scan(prefix + Written(x, y, z) + tail, "")) == Written(x, y, z)
  {
    var w := Written(x, y, z);
    assert prefix + w + tail == prefix + (w + tail);
    ScanPrefix(prefix, w + tail);
    forall i | 0 <= i < |w| ensures IsDigit(w[i]) || w[i] == '.' {}
    ScanVersion(w, tail, "");
    assert IsDigit(w[|w| - 1]);
  }

  /** The sections filled to two digits, one after the other. */
  function Filled(x: string, y: Option<string>, z: Option<string>): string {
    if y == None then ZFill(x)
    else if z == None then ZFill(x) + ZFill(y.value)
    else ZFill(x) + (ZFill(y.value) + ZFill(z.value))
  }

  lemma PaddedIsFilled(x: string, y: Option<string>, z: Option<string>)
    requires Sections(x, y, z)
    ensures Padded(Written(x, y, z)) == Filled(x, y, z)
  {
    if y == None {
      PaddedLast(x);
    } else if z == None {
      PaddedFirst(x, y.value);
      PaddedLast(y.value);
    } else {
      PaddedFirst(x, y.value + ("." + z.value));
      PaddedFirst(y.value, z.value);
      PaddedLast(z.value);
    }
  }

  lemma PairValue(x: string, y: string)
    requires Section(x) && Section(y)
    ensures |ZFill(x) + ZFill(y)| == 4 && ToNat(ZFill(x) + ZFill(y)) == 100 * ToNat(x) + ToNat(y)
  {
    ZFillValue(x);
    ZFillValue(y);
    assert Power10(2) == 100;
    ToNatConcat(ZFill(x), ZFill(y));
  }

  lemma TripleValue(x: string, y: string, z: string)
    requires Section(x) && Section(y) && Section(z)
    ensures var filled := ZFill(x) + (ZFill(y) + ZFill(z));
      |filled| == 6 && ToNat(filled) == 10000 * ToNat(x) + 100 * ToNat(y) + ToNat(z)
  {
    ZFillValue(x);
    PairValue(y, z);
    assert Power10(4) == 10000;
    ToNatConcat(ZFill(x), ZFill(y) + ZFill(z));
  }

  lemma FilledValue(x: string, y: Option<string>, z: Option<string>)
    requires Sections(x, y, z)
    ensures |Filled(x, y, z)| == if z.Some? then 6 else if y.Some? then 4 else 2
    ensures ToNat(Filled(x, y, z)) ==
      if z.Some? then 10000 * ToNat(x) + 100 * ValueOf(y) + ValueOf(z)
      else if y.Some? then 100 * ToNat(x) + ValueOf(y) else ToNat(x)
  {
    if y == None {
      ZFillValue(x);
    } else if z == None {
      PairValue(x, y.value);
    } else {
      TripleValue(x, y.value, z.value);
    }
  }

  /**
   A prefix without digits, up to three sections of up to 99 and any ending give 10000x + 100y + z when
   padded, whatever sections are missing; unpadded, the missing sections do not shift the others.
   */
  lemma VersionOfStream(
    prefix: string, x: string, y: Option<string>, z: Option<string>, tail: string, suffix: real)
    requires NoDigits(prefix) && Ends(tail) && Sections(x, y, z)
    ensures var stream := prefix + Written(x, y, z) + tail;
      && StreamVersion(stream, true, suffix) ==
           (10000 * ToNat(x) + 100 * ValueOf(y) + ValueOf(z)) as real + suffix
      && StreamVersion(stream, false, suffix) ==
           (if z.Some? then 10000 * ToNat(x) + 100 * ValueOf(y) + ValueOf(z)
            else if y.Some? then 100 * ToNat(x) + ValueOf(y) else ToNat(x)) as real + suffix
  {
    WrittenIsScanned(prefix, x, y, z, tail);
    PaddedIsFilled(x, y, z);
    FilledValue(x, y, z);
    PadValue(Filled(x, y, z));
  }

  lemma PadValue(filled: string)
    requires |filled| == 2 || |filled| == 4 || |filled| == 6
    ensures ToNat(RightPad(filled, true)) ==
      ToNat(filled) * (if |filled| == 2 then 10000 else if |filled| == 4 then 100 else 1)
  {
    ZerosValue(6 - |filled|);
    ToNatConcat(filled, Zeros(6 - |filled|));
    assert Power10(0) == 1 && Power10(2) == 100 && Power10(4) == 10000;
  }

  /** A stream without digits has the version 0, not none. */
  lemma NoDigitsIsZero(stream: string, rightPad: bool, suffix: real)
    requires NoDigits(stream)
    ensures StreamVersion(stream, rightPad, suffix) == suffix
  {
    ScanPrefix(stream, "");
    assert stream + "" == stream;
    assert Padded("") == "00";
    ZerosValue(4);
    ToNatConcat("00", Zeros(4));
    assert ToNat("00") == 0 by { ToNatConcat("0", "0"); assert ToNat("0") == 0; }
  }

  // ---- x, y and z ----

  datatype Xyz = Xyz(x: nat, y: nat, z: nat)

  function VersionOf(t: Xyz): nat {
    10000 * t.x + 100 * t.y + t.z
  }

  /** The split in _process_support_streams, with Python's floor division. */
  method SplitVersion(streamVersion: real) returns (x: int, y: int, z: int)
    requires streamVersion >= 0.0
    ensures var v := streamVersion.Floor; x == v / 10000 && y == v % 10000 / 100 && z == v % 100
  {
    var v := streamVersion.Floor;
    x := v / 10000;
    y := (v - x * 10000) / 100;
    z := v - x * 10000 - y * 100;
    assert v - x * 10000 == v % 10000;
    assert v % 10000 % 100 == v % 100 by { Remainders(v); }
  }

  lemma Remainders(v: nat)
    ensures v % 10000 % 100 == v % 100
  {
    var q, r := v / 10000, v % 10000;
    assert v == 100 * (100 * q + r / 100) + r % 100;
  }

  /** The split recovers the sections, whatever suffix below 1 was added. */
  lemma SplitRecovers(t: Xyz, suffix: real)
    requires t.y <= 99 && t.z <= 99 && 0.0 <= suffix < 1.0
    ensures var v := (VersionOf(t) as real + suffix).Floor;
      v / 10000 == t.x && v % 10000 / 100 == t.y && v % 100 == t.z
  {
    assert (VersionOf(t) as real + suffix).Floor == VersionOf(t);
    SplitOfVersion(t);
  }

  lemma SplitOfVersion(t: Xyz)
    requires t.y <= 99 && t.z <= 99
    ensures var v := VersionOf(t); v / 10000 == t.x && v % 10000 / 100 == t.y && v % 100 == t.z
  {
    var low := 100 * t.y + t.z;
    Quotient(10000, t.x, low);
    Quotient(100, t.y, t.z);
    Quotient(100, 100 * t.x + t.y, t.z);
  }

  lemma Quotient(d: nat, q: nat, r: nat)
    requires r < d
    ensures (d * q + r) / d == q && (d * q + r) % d == r
  {
    var v := d * q + r;
    var off := v / d - q;
    assert d * off == r - v % d;
    AtLeastOne(d, off);
  }

  lemma AtLeastOne(d: int, a: int)
    requires d > 0
    ensures (a >= 1 ==> d * a >= d) && (a <= -1 ==> d * a <= -d)
  {}

  predicate LexLess(a: Xyz, b: Xyz) {
    a.x < b.x || (a.x == b.x && (a.y < b.y || (a.y == b.y && a.z < b.z)))
  }

  /** Numeric order is the lexicographic order of x, y and z. */
  lemma OrderIsLexicographic(a: Xyz, b: Xyz)
    requires a.y <= 99 && a.z <= 99 && b.y <= 99 && b.z <= 99
    ensures VersionOf(a) < VersionOf(b) <==> LexLess(a, b)
  {}

  /** What the lte filter is meant to admit: builds of the same major version that are not greater. */
  predicate SameMajorNotGreater(a: Xyz, suffix: real, limit: Xyz, limitSuffix: real) {
    a.x == limit.x && VersionOf(a) as real + suffix <= VersionOf(limit) as real + limitSuffix
  }

  /**
   The lte filter admits exactly these, for every build, if and only if the version asked for is not zero;
   zero, which is also what a stream without digits gives, turns the filter off.
   */
  lemma LteFilterIff(limit: Xyz, limitSuffix: real)
    requires limit.y <= 99 && limit.z <= 99 && 0.0 <= limitSuffix < 1.0
    ensures (forall a: Xyz, suffix: real :: a.y <= 99 && a.z <= 99 && 0.0 <= suffix < 1.0 ==>
               (Admits(a, suffix, limit, limitSuffix) <==> SameMajorNotGreater(a, suffix, limit, limitSuffix)))
            <==> VersionOf(limit) as real + limitSuffix != 0.0
  {
    if VersionOf(limit) as real + limitSuffix != 0.0 {
      forall a: Xyz, suffix: real | a.y <= 99 && a.z <= 99 && 0.0 <= suffix < 1.0
        ensures Admits(a, suffix, limit, limitSuffix) <==> SameMajorNotGreater(a, suffix, limit, limitSuffix)
      {
        MajorOf(limit, limitSuffix);
      }
    } else {
      var other := Xyz(1, 0, 0);
      assert Admits(other, 0.0, limit, limitSuffix) && !SameMajorNotGreater(other, 0.0, limit, limitSuffix);
    }
  }

  /** A build of that stream version passes LatestBuilds.VersionAdmitted. */
  predicate Admits(a: Xyz, suffix: real, limit: Xyz, limitSuffix: real) {
    LatestBuilds.VersionAdmitted(
      LatestBuilds.Build("", "", 0, "", true, Some(VersionOf(a) as real + suffix), {}),
      Some(VersionOf(limit) as real + limitSuffix))
  }

  lemma MajorOf(t: Xyz, suffix: real)
    requires t.y <= 99 && t.z <= 99 && 0.0 <= suffix < 1.0
    ensures LatestBuilds.MajorFloor(VersionOf(t) as real + suffix) == (10000 * t.x) as real
  {
    var v := VersionOf(t) as real + suffix;
    assert 10000.0 * t.x as real <= v < 10000.0 * (t.x as real + 1.0);
    assert t.x as real <= v / 10000.0 < t.x as real + 1.0;
    assert (v / 10000.0).Floor == t.x;
  }

  // ---- get_prefixed_version ----

  const MAXUINT64: nat := 0xFFFF_FFFF_FFFF_FFFF

  /** int(str(prefix) + str(version)), unless it does not fit. */
  function PrefixedVersion(prefix: Option<real>, version: nat): nat
    requires prefix.Some? ==> prefix.value >= 0.0
  {
    if prefix == None then version
    else
      var joined := ToNat(ToString(prefix.value.Floor) + ToString(version));
      if joined > MAXUINT64 then version else joined
  }

  lemma JoinedValue(p: nat, v: nat)
    ensures ToNat(ToString(p) + ToString(v)) == p * Power10(|ToString(v)|) + v
  {
    ToNatConcat(ToString(p), ToString(v));
    ToNatOfToString(p);
    ToNatOfToString(v);
  }

  /** The number of digits shifts the prefix; a result that does not fit in 64 bits is given up for the version. */
  lemma PrefixedVersionIs(p: nat, fraction: real, v: nat)
    requires 0.0 <= fraction < 1.0
    ensures var shifted := p * Power10(|ToString(v)|) + v;
      PrefixedVersion(Some(p as real + fraction), v) == if shifted <= MAXUINT64 then shifted else v
    ensures v <= MAXUINT64 ==> PrefixedVersion(Some(p as real + fraction), v) <= MAXUINT64
    ensures PrefixedVersion(None, v) == v
  {
    assert (p as real + fraction).Floor == p;
    JoinedValue(p, v);
  }

  predicate FallsBack(p: nat, v: nat) {
    p * Power10(|ToString(v)|) + v > MAXUINT64
  }

  /** Among versions of the same length that do not fall back, the order is that of prefix, then version. */
  lemma PrefixedOrderIsLexicographic(p: nat, v: nat, q: nat, w: nat)
    requires |ToString(v)| == |ToString(w)| && !FallsBack(p, v) && !FallsBack(q, w)
    ensures PrefixedVersion(Some(p as real), v) < PrefixedVersion(Some(q as real), w) <==> p < q || (p == q && v < w)
  {
    PrefixedVersionIs(p, 0.0, v);
    PrefixedVersionIs(q, 0.0, w);
    LengthIsMagnitude(v);
    LengthIsMagnitude(w);
    var unit := Power10(|ToString(v)|);
    Digitwise(p, v, q, w, unit);
    assert p as real + 0.0 == p as real && q as real + 0.0 == q as real;
  }

  lemma Digitwise(p: nat, v: nat, q: nat, w: nat, unit: nat)
    requires v < unit && w < unit
    ensures p * unit + v < q * unit + w <==> p < q || (p == q && v < w)
  {
    if p < q { assert q * unit >= (p + 1) * unit; }
    if q < p { assert p * unit >= (q + 1) * unit; }
  }
}
