/** Version numbers as the board, the release tool and the app read them. */
module Versions {
  import opened Common
  import opened Decimal
  import opened Dotted

  datatype Version = Version(major: nat, minor: nat, patch: nat)

  // ---- the board ----

  /** The first "_v", or -1. */
  function Marker(s: string): (r: int)
    ensures -1 <= r && (r >= 0 ==> r + 2 <= |s| && s[r] == '_' && s[r + 1] == 'v')
    ensures r < 0 ==> forall i :: 0 <= i < |s| - 1 ==> !(s[i] == '_' && s[i + 1] == 'v')
  {
    if |s| < 2 then -1
    else if s[0] == '_' && s[1] == 'v' then 0
    else
      var r := Marker(s[1..]);
      assert forall i :: 1 <= i < |s| - 1 ==> s[i] == s[1..][i - 1] && s[i + 1] == s[1..][i];
      if r < 0 then -1 else r + 1
  }

  function Body(s: string): string {
    var t := if Marker(s) >= 0 then s[Marker(s) + 2..] else s;
    if t != [] && (t[0] == 'v' || t[0] == 'V') then t[1..] else t
  }

  /** How many digits s starts with. */
  function Run(s: string): (d: nat)
    ensures d <= |s| && AllDigits(s[..d]) && (d < |s| ==> !IsDigit(s[d]))
  {
    if s == [] || !IsDigit(s[0]) then 0
    else
      var d := Run(s[1..]);
      assert forall i :: 0 < i < d + 1 ==> s[i] == s[1..][i - 1];
      d + 1
  }

  /** Up to three numbers of at most six digits with dots between them, and what follows. */
  function ReadParts(s: string, n: nat): (r: Option<(seq<nat>, string)>)
    requires n <= 3
    ensures r.Some? ==> |r.value.0| <= 3 - n
    decreases 3 - n
  {
    if n == 3 || Run(s) == 0 then Some(([], s))
    else if Run(s) > 6 then None
    else
      var v, rest := Value(s[..Run(s)]), s[Run(s)..];
      if rest == [] || rest[0] != '.' then Some(([v], rest))
      else
        var more := ReadParts(rest[1..], n + 1);
        if more.None? then None else Some(([v] + more.value.0, more.value.1))
  }

  function FromParts(parts: seq<nat>, rest: string): Option<Version>
    requires |parts| <= 3
  {
    if |parts| < 2 || !(rest == [] || rest[0] == '-' || rest[0] == '+') then None
    else Some(Version(parts[0], parts[1], if |parts| == 3 then parts[2] else 0))
  }

  function Parse(s: string): Option<Version> {
    var r := ReadParts(Body(s), 0);
    if r.None? then None else FromParts(r.value.0, r.value.1)
  }

  function Compare(a: Version, b: Version): (r: int)
    ensures -1 <= r <= 1
  {
    if a.major != b.major then (if a.major < b.major then -1 else 1)
    else if a.minor != b.minor then (if a.minor < b.minor then -1 else 1)
    else if a.patch != b.patch then (if a.patch < b.patch then -1 else 1)
    else 0
  }

  /** The inner loop: the run of digits at the pointer, refused past six. A pointer into a
      C string is the text that remains. */
  method ReadNumber(t: string) returns (ok: bool, x: nat, rest: string)
    ensures ok <==> Run(t) <= 6
    ensures ok ==> x == Value(t[..Run(t)]) && rest == t[Run(t)..]
  {
    var digits := 0;
    x, rest := 0, t;
    while rest != [] && IsDigit(rest[0])
      invariant digits <= Run(t) && digits <= 6 && rest == t[digits..] && x == Value(t[..digits])
      decreases |rest|
    {
      RunGrows(t, digits);
      assert t[..digits + 1][..digits] == t[..digits];
      x := x * 10 + DigitValue(rest[0]);
      digits := digits + 1;
      if digits > 6 { return false, x, rest; }
      rest := rest[1..];
    }
    RunEnds(t, digits);
    ok := true;
  }

  /** What is left to read once `part` has been. */
  ghost function Rest(part: seq<nat>, more: Option<(seq<nat>, string)>): Option<(seq<nat>, string)> {
    if more.None? then None else Some((part + more.value.0, more.value.1))
  }

  /** The outer loop: up to three parts. */
  method ReadAll(t: string) returns (part: seq<nat>, rest: string, ok: bool)
    ensures ok <==> ReadParts(t, 0).Some?
    ensures ok ==> ReadParts(t, 0) == Some((part, rest))
  {
    part, rest := [], t;
    var n := 0;
    RestOfNone(ReadParts(t, 0));
    while n < 3
      invariant 0 <= n <= 3
      invariant ReadParts(t, 0) == Rest(part, ReadParts(rest, n))
    {
      if rest == [] || !IsDigit(rest[0]) { break; }
      var readable, x, after := ReadNumber(rest);
      if !readable { return part, rest, false; }
      OnePart(rest, n);
      if after == [] || after[0] != '.' { return part + [x], after, true; }
      RestJoins(part, x, ReadParts(after[1..], n + 1));
      part, rest, n := part + [x], after[1..], n + 1;
    }
    RestEnds(part, rest);
    ok := true;
  }

  method SkipName(s: string) returns (p: string)
    ensures p == Body(s)
  {
    var m := Marker(s);
    p := if m >= 0 then s[m + 2..] else s;
    if p != [] && (p[0] == 'v' || p[0] == 'V') { p := p[1..]; }
  }

  /** The firmware's parser: one pointer over the text and three accumulators. */
  method ParseInPlace(s: string) returns (v: Option<Version>)
    ensures v == Parse(s)
  {
    var p := SkipName(s);
    var part, rest, ok := ReadAll(p);
    if !ok { return None; }
    v := FromParts(part, rest);
  }

  lemma RestOfNone(more: Option<(seq<nat>, string)>)
    ensures Rest([], more) == more
  {
    assert more.Some? ==> [] + more.value.0 == more.value.0;
  }

  lemma RestEnds(part: seq<nat>, rest: string)
    ensures Rest(part, Some(([], rest))) == Some((part, rest))
  {
    assert part + [] == part;
  }

  lemma RestJoins(part: seq<nat>, x: nat, more: Option<(seq<nat>, string)>)
    ensures Rest(part, Rest([x], more)) == Rest(part + [x], more)
  {
    if more.Some? { assert part + ([x] + more.value.0) == part + [x] + more.value.0; }
  }

  /** Reading one part of t, then whatever follows its dot. */
  lemma OnePart(t: string, n: nat)
    requires n < 3 && 0 < Run(t) <= 6
    ensures var x, rest := Value(t[..Run(t)]), t[Run(t)..];
      ReadParts(t, n) == if rest == [] || rest[0] != '.' then Some(([x], rest)) else Rest([x], ReadParts(rest[1..], n + 1))
  {
  }

  /** A digit right after d digits belongs to the same run. */
  lemma {:induction false} RunGrows(t: string, d: nat)
    requires d < |t| && d <= Run(t) && IsDigit(t[d])
    ensures d + 1 <= Run(t)
  {
  }

  lemma RunEnds(t: string, d: nat)
    requires d <= |t| && AllDigits(t[..d]) && (d < |t| ==> !IsDigit(t[d]))
    ensures d == Run(t)
  {
    assert d > 0 ==> IsDigit(t[0]) by { assert d > 0 ==> t[..d][0] == t[0]; }
    if d > 0 {
      assert t[1..][..d - 1] == t[..d][1..];
      RunEnds(t[1..], d - 1);
    }
  }

  // ---- versions in the agreed form ----

  /** Two or three runs of one to six digits. */
  ghost predicate Parts(ps: seq<string>) {
    2 <= |ps| <= 3 && forall i :: 0 <= i < |ps| ==> 1 <= |ps[i]| <= 6 && AllDigits(ps[i])
  }

  /** The numbers, with a missing patch as 0. */
  function Numbers(ps: seq<string>): Version
    requires 2 <= |ps| <= 3 && forall i :: 0 <= i < |ps| ==> AllDigits(ps[i])
  {
    Version(Value(ps[0]), Value(ps[1]), if |ps| == 3 then Value(ps[2]) else 0)
  }

  lemma RunOfRun(a: string, b: string)
    requires AllDigits(a) && (b == [] || !IsDigit(b[0]))
    ensures Run(a + b) == |a| && (a + b)[..|a|] == a && (a + b)[|a|..] == b
  {
  }

  function Values(ps: seq<string>): (r: seq<nat>)
    requires forall i :: 0 <= i < |ps| ==> AllDigits(ps[i])
    ensures |r| == |ps| && forall i :: 0 <= i < |ps| ==> r[i] == Value(ps[i])
  {
    if ps == [] then [] else [Value(ps[0])] + Values(ps[1..])
  }

  lemma {:induction false} ReadsParts(ps: seq<string>, n: nat)
    requires 1 <= |ps| <= 3 - n && n <= 3
    requires forall i :: 0 <= i < |ps| ==> 1 <= |ps[i]| <= 6 && AllDigits(ps[i])
    ensures ReadParts(Join(ps), n) == Some((Values(ps), ""))
    decreases |ps|
  {
    var tail := if |ps| == 1 then "" else "." + Join(ps[1..]);
    RunOfRun(ps[0], tail);
    var t := ps[0] + tail;
    assert Join(ps) == t;
    OnePart(t, n);
    if |ps| > 1 {
      assert tail[1..] == Join(ps[1..]);
      ReadsParts(ps[1..], n + 1);
    } else {
      assert Values(ps) == [Value(ps[0])];
    }
  }

  lemma JoinChars(ps: seq<string>)
    requires forall i :: 0 <= i < |ps| ==> AllDigits(ps[i])
    ensures forall i :: 0 <= i < |Join(ps)| ==> IsDigit(Join(ps)[i]) || Join(ps)[i] == '.'
  {
  }

  /** The board reads a version in the agreed form as its numbers. */
  lemma BoardReads(ps: seq<string>)
    requires Parts(ps)
    ensures Parse(Join(ps)) == Some(Numbers(ps))
  {
    var s := Join(ps);
    JoinChars(ps);
    assert Marker(s) < 0;
    assert s[0] == ps[0][0];
    assert Body(s) == s;
    ReadsParts(ps, 0);
  }

  /** A printed version reads back as itself. */
  function PrintVersion(v: Version): string { Join([Print(v.major), Print(v.minor), Print(v.patch)]) }

  lemma PrintedReadsBack(v: Version)
    requires v.major < 1_000_000 && v.minor < 1_000_000 && v.patch < 1_000_000
    ensures Parse(PrintVersion(v)) == Some(v)
  {
    var ps := [Print(v.major), Print(v.minor), Print(v.patch)];
    SixDigits();
    PrintLength(v.major, 6);
    PrintLength(v.minor, 6);
    PrintLength(v.patch, 6);
    BoardReads(ps);
    ValueOfPrint(v.major);
    ValueOfPrint(v.minor);
    ValueOfPrint(v.patch);
  }

  /** otaCompare is a total order: 0 only on equals, opposite when swapped, transitive. */
  lemma CompareIsOrder(a: Version, b: Version, c: Version)
    ensures Compare(a, b) == 0 <==> a == b
    ensures Compare(b, a) == -Compare(a, b)
    ensures Compare(a, b) <= 0 && Compare(b, c) <= 0 ==> Compare(a, c) <= 0
  {
  }

  // ---- the release tool ----

  /** vtuple: the split parts as numbers, padded with zeros to three. */
  function VTuple(s: string): Option<seq<nat>> {
    var ps := Split(s);
    if exists i :: 0 <= i < |ps| && (ps[i] == [] || !AllDigits(ps[i])) then None
    else
      var ns := seq(|ps|, i requires 0 <= i < |ps| => Value(ps[i]));
      Some(ns + seq(if |ns| < 3 then 3 - |ns| else 0, _ => 0))
  }

  /** Python's order on tuples. */
  predicate Less(a: seq<nat>, b: seq<nat>) {
    if b == [] then false
    else if a == [] then true
    else a[0] < b[0] || (a[0] == b[0] && Less(a[1..], b[1..]))
  }

  // ---- the app ----

  /** The white space that may come up: Unicode has more. */
  predicate Space(c: char) { c == ' ' || c == '\t' || c == '\n' || c == '\r' }

  function Trim(s: string): string
    decreases |s|
  {
    if s != [] && Space(s[0]) then Trim(s[1..])
    else if s != [] && Space(s[|s| - 1]) then Trim(s[..|s| - 1])
    else s
  }

  /** What a part counts as: its number, or 0 when it is not one that fits. */
  function AppPart(x: string): nat {
    var t := Trim(x);
    var u := if t != [] && t[0] == '+' then t[1..] else t;
    if u != [] && AllDigits(u) && Value(u) < 0x1_0000_0000_0000_0000 then Value(u) else 0
  }

  function AppParts(s: string): seq<nat> {
    seq(|Split(s)|, i requires 0 <= i < |Split(s)| => AppPart(Split(s)[i]))
  }

  function At(x: seq<nat>, i: nat): nat { if i < |x| then x[i] else 0 }

  /** The first difference decides; missing parts are 0. */
  predicate NewerFrom(x: seq<nat>, y: seq<nat>, i: nat)
    decreases |x| + |y| - i
  {
    if i >= |x| && i >= |y| then false
    else if At(x, i) != At(y, i) then At(x, i) > At(y, i)
    else i < |x| + |y| && NewerFrom(x, y, i + 1)
  }

  predicate Newer(a: string, b: string) { NewerFrom(AppParts(a), AppParts(b), 0) }

  method NewerInPlace(a: string, b: string) returns (r: bool)
    ensures r == Newer(a, b)
  {
    var x, y := AppParts(a), AppParts(b);
    var n := if |x| > |y| then |x| else |y|;
    for i := 0 to n
      invariant Newer(a, b) == NewerFrom(x, y, i)
    {
      var u, v := At(x, i), At(y, i);
      if u != v { return u > v; }
    }
    r := false;
  }

  // ---- the three agree ----

  lemma NoDots(ps: seq<string>)
    requires Parts(ps)
    ensures forall i :: 0 <= i < |ps| ==> '.' !in ps[i]
  {
  }

  lemma ToolReads(ps: seq<string>)
    requires Parts(ps)
    ensures VTuple(Join(ps)) == Some([Numbers(ps).major, Numbers(ps).minor, Numbers(ps).patch])
  {
    NoDots(ps);
    SplitOfJoin(ps);
    forall i | 0 <= i < |ps| ensures ps[i] != [] && AllDigits(ps[i]) { }
    var ns := seq(|ps|, i requires 0 <= i < |ps| => Value(ps[i]));
    assert ns + seq(if |ns| < 3 then 3 - |ns| else 0, _ => 0) ==
      [Numbers(ps).major, Numbers(ps).minor, Numbers(ps).patch];
  }

  lemma AppReads(ps: seq<string>)
    requires Parts(ps)
    ensures |AppParts(Join(ps))| == |ps| && forall i :: 0 <= i < |ps| ==> AppParts(Join(ps))[i] == Value(ps[i])
  {
    NoDots(ps);
    SplitOfJoin(ps);
    forall i | 0 <= i < |ps| ensures AppPart(ps[i]) == Value(ps[i]) { AppReadsPart(ps[i]); }
  }

  lemma AppReadsPart(x: string)
    requires 1 <= |x| <= 6 && AllDigits(x)
    ensures AppPart(x) == Value(x)
  {
    SmallValue(x);
    assert IsDigit(x[0]) && IsDigit(x[|x| - 1]);
    assert Trim(x) == x;
  }

  lemma SmallValue(x: string)
    requires |x| <= 6 && AllDigits(x)
    ensures Value(x) < 1_000_000
  {
    SixDigits();
    FixedOfValue(x);
    PowGrows(|x|, 6);
  }

  lemma {:induction false} PowGrows(a: nat, b: nat)
    requires a <= b
    ensures Pow10(a) <= Pow10(b)
  {
    if a < b { PowGrows(a, b - 1); }
  }

  /** For versions in the agreed form the board's comparison, the release tool's order on
      tuples and the app's "newer" are one and the same. */
  lemma ThreeAgree(ps: seq<string>, qs: seq<string>)
    requires Parts(ps) && Parts(qs)
    ensures var a, b := Join(ps), Join(qs);
      && Parse(a).Some? && Parse(b).Some? && VTuple(a).Some? && VTuple(b).Some?
      && (Newer(a, b) <==> Compare(Parse(a).value, Parse(b).value) > 0)
      && (Less(VTuple(b).value, VTuple(a).value) <==> Compare(Parse(a).value, Parse(b).value) > 0)
      && (VTuple(a) == VTuple(b) <==> Compare(Parse(a).value, Parse(b).value) == 0)
  {
    BoardReads(ps);
    BoardReads(qs);
    ToolReads(ps);
    ToolReads(qs);
    AppReads(ps);
    AppReads(qs);
    TuplesCompare(Numbers(ps), Numbers(qs));
    PartsCompare(AppParts(Join(ps)), AppParts(Join(qs)), Numbers(ps), Numbers(qs));
  }

  lemma TuplesCompare(a: Version, b: Version)
    ensures Less([b.major, b.minor, b.patch], [a.major, a.minor, a.patch]) <==> Compare(a, b) > 0
  {
    var x, y := [b.major, b.minor, b.patch], [a.major, a.minor, a.patch];
    assert x[1..] == [b.minor, b.patch] && y[1..] == [a.minor, a.patch];
    assert x[1..][1..] == [b.patch] && y[1..][1..] == [a.patch];
    assert Less([b.patch], [a.patch]) <==> b.patch < a.patch;
    assert Less([b.minor, b.patch], [a.minor, a.patch]) <==>
      b.minor < a.minor || (b.minor == a.minor && Less([b.patch], [a.patch]));
  }

  lemma PartsCompare(x: seq<nat>, y: seq<nat>, a: Version, b: Version)
    requires 2 <= |x| <= 3 && a == Version(x[0], x[1], At(x, 2))
    requires 2 <= |y| <= 3 && b == Version(y[0], y[1], At(y, 2))
    ensures NewerFrom(x, y, 0) <==> Compare(a, b) > 0
  {
    assert NewerFrom(x, y, 3) == false;
    assert NewerFrom(x, y, 2) <==> At(x, 2) > At(y, 2);
    assert NewerFrom(x, y, 1) <==> At(x, 1) > At(y, 1) || (At(x, 1) == At(y, 1) && NewerFrom(x, y, 2));
  }

  // ---- where the board and the release tool agree on what a version is ----

  ghost predicate Numbered(ps: seq<string>) {
    ps != [] && forall i :: 0 <= i < |ps| ==> ps[i] != [] && AllDigits(ps[i])
  }

  /** The board reads the first of dotted numbers and goes on, or gives up on a long one. */
  lemma ReadsFirst(ps: seq<string>, n: nat)
    requires Numbered(ps) && n < 3
    ensures ReadParts(Join(ps), n) ==
      if |ps[0]| > 6 then None
      else if |ps| == 1 then Some(([Value(ps[0])], ""))
      else Rest([Value(ps[0])], ReadParts(Join(ps[1..]), n + 1))
  {
    var tail := if |ps| == 1 then "" else "." + Join(ps[1..]);
    var t := ps[0] + tail;
    RunOfRun(ps[0], tail);
    assert Join(ps) == t && (tail != [] ==> tail[1..] == Join(ps[1..]));
    if |ps[0]| <= 6 { OnePart(t, n); }
  }

  /** What the board makes of dotted numbers: it reads all of them, or stops before one. */
  ghost predicate ReadAllOrStopped(ps: seq<string>, n: nat, r: Option<(seq<nat>, string)>)
    requires n <= 3
  {
    r.Some? ==>
      if |ps| <= 3 - n then |r.value.0| == |ps| && r.value.1 == "" && forall i :: 0 <= i < |ps| ==> |ps[i]| <= 6
      else r.value.1 != "" && IsDigit(r.value.1[0])
  }

  lemma {:induction false} ReadsNumbers(ps: seq<string>, n: nat)
    requires Numbered(ps) && n <= 3
    ensures ReadAllOrStopped(ps, n, ReadParts(Join(ps), n))
    decreases |ps|
  {
    if n == 3 {
      assert Join(ps)[0] == ps[0][0];
    } else {
      ReadsFirst(ps, n);
      if |ps| > 1 {
        assert Numbered(ps[1..]);
        ReadsNumbers(ps[1..], n + 1);
        if |ps[0]| <= 6 { OneMore(ps, n, ReadParts(Join(ps[1..]), n + 1)); }
      }
    }
  }

  lemma OneMore(ps: seq<string>, n: nat, r: Option<(seq<nat>, string)>)
    requires Numbered(ps) && |ps| > 1 && n < 3 && |ps[0]| <= 6 && ReadAllOrStopped(ps[1..], n + 1, r)
    ensures ReadAllOrStopped(ps, n, Rest([Value(ps[0])], r))
  {
    assert forall i :: 1 <= i < |ps| ==> ps[i] == ps[1..][i - 1];
  }

  /** The board and the release tool both take a text for a version exactly when it is two or three
      numbers of one to six digits, joined by dots. */
  lemma BothReadExactly(s: string)
    ensures Parse(s).Some? && VTuple(s).Some? <==> exists ps :: Parts(ps) && s == Join(ps)
  {
    if Parse(s).Some? && VTuple(s).Some? {
      var ps := Split(s);
      JoinOfSplit(s);
      assert Numbered(ps);
      JoinChars(ps);
      assert Marker(s) < 0 && Body(s) == s;
      ReadsNumbers(ps, 0);
      assert Parts(ps);
    }
    if ps :| Parts(ps) && s == Join(ps) {
      BoardReads(ps);
      ToolReads(ps);
    }
  }

  // ---- everything the board reads ----

  ghost predicate MarkAt(s: string, i: int) { 0 <= i < |s| - 1 && s[i] == '_' && s[i + 1] == 'v' }

  /** What stands before the body of a version: nothing, or a name up to the first "_v". */
  ghost predicate NameBefore(name: string, body: string) {
    if name == "" then forall i :: !MarkAt(body, i)
    else |name| >= 2 && MarkAt(name, |name| - 2) && forall i :: i < |name| - 2 ==> !MarkAt(name, i)
  }

  /** A text the board reads: a name, a v, numbers, perhaps a dot, and a suffix. */
  ghost predicate Written(s: string, name: string, v: string, ps: seq<string>, dot: string, tail: string) {
    && Parts(ps) && s == name + (v + (Join(ps) + (dot + tail))) && NameBefore(name, v + (Join(ps) + (dot + tail)))
    && (v == "" || v == "v" || v == "V") && (dot == "" || dot == ".")
    && (tail == "" || tail[0] == '-' || tail[0] == '+')
  }

  lemma {:induction false} MarkerIsFirst(s: string, m: nat)
    requires MarkAt(s, m) && forall i :: i < m ==> !MarkAt(s, i)
    ensures Marker(s) == m
  {
    assert m > 0 ==> !MarkAt(s, 0);
    if m > 0 {
      forall i | i < m - 1 ensures !MarkAt(s[1..], i) { assert !MarkAt(s, i + 1); }
      MarkerIsFirst(s[1..], m - 1);
    }
  }

  lemma MarkerIsMark(s: string)
    ensures if Marker(s) < 0 then forall i :: !MarkAt(s, i)
            else MarkAt(s, Marker(s)) && forall i :: i < Marker(s) ==> !MarkAt(s, i)
    decreases |s|
  {
    if |s| >= 2 && !(s[0] == '_' && s[1] == 'v') {
      MarkerIsMark(s[1..]);
      forall i | MarkAt(s, i) ensures i > 0 && MarkAt(s[1..], i - 1) { }
    }
  }

  /** The body is what follows the name and its v. */
  lemma BodyFollows(name: string, v: string, t: string)
    requires NameBefore(name, v + t) && (v == "" || v == "v" || v == "V") && t != [] && IsDigit(t[0])
    ensures Body(name + (v + t)) == t
  {
    var s := name + (v + t);
    if name == "" {
      assert s == v + t;
      MarkerIsMark(s);
    } else {
      forall i | i <= |name| - 2 ensures MarkAt(s, i) == MarkAt(name, i) { }
      MarkerIsFirst(s, |name| - 2);
      assert s[|name|..] == v + t;
    }
    assert v != "" ==> (v + t)[1..] == t;
    assert v == "" ==> v + t == t;
  }

  lemma LastPart(a: string, dot: string, tail: string, n: nat)
    requires 1 <= |a| <= 6 && AllDigits(a) && n < 3 && (dot == "" || dot == ".")
    requires tail == "" || tail[0] == '-' || tail[0] == '+'
    ensures ReadParts(a + (dot + tail), n) == Some(([Value(a)], tail))
  {
    RunOfRun(a, dot + tail);
    OnePart(a + (dot + tail), n);
    if dot == "" {
      assert dot + tail == tail;
    } else {
      assert (dot + tail)[1..] == tail && ReadParts(tail, n + 1) == Some(([], tail));
      assert [Value(a)] + [] == [Value(a)];
    }
  }

  lemma NextPart(a: string, t: string, n: nat)
    requires 1 <= |a| <= 6 && AllDigits(a) && n < 3
    ensures ReadParts(a + ("." + t), n) == Rest([Value(a)], ReadParts(t, n + 1))
  {
    RunOfRun(a, "." + t);
    assert ("." + t)[1..] == t;
    OnePart(a + ("." + t), n);
  }

  lemma Regroup(a: string, j: string, w: string)
    ensures a + "." + j + w == a + ("." + (j + w))
  {
  }

  lemma ValuesNext(a: string, ps: seq<string>)
    requires AllDigits(a) && forall i :: 0 <= i < |ps| ==> AllDigits(ps[i])
    ensures forall i :: 0 <= i < |[a] + ps| ==> AllDigits(([a] + ps)[i])
    ensures Values([a] + ps) == [Value(a)] + Values(ps)
  {
    assert ([a] + ps)[1..] == ps;
  }

  lemma JoinNext(a: string, ps: seq<string>)
    requires ps != []
    ensures Join([a] + ps) == a + "." + Join(ps)
  {
    assert ([a] + ps)[1..] == ps;
  }

  lemma ReadsStep(a: string, qs: seq<string>, w: string, tail: string, n: nat)
    requires 1 <= |a| <= 6 && AllDigits(a) && n < 3 && qs != []
    requires forall i :: 0 <= i < |qs| ==> AllDigits(qs[i])
    requires ReadParts(Join(qs) + w, n + 1) == Some((Values(qs), tail))
    ensures forall i :: 0 <= i < |[a] + qs| ==> AllDigits(([a] + qs)[i])
    ensures ReadParts(Join([a] + qs) + w, n) == Some((Values([a] + qs), tail))
  {
    ValuesNext(a, qs);
    JoinNext(a, qs);
    Regroup(a, Join(qs), w);
    NextPart(a, Join(qs) + w, n);
  }

  /** Numbers, perhaps a dot, and a suffix: all of it is read. */
  lemma {:induction false} ReadsPartsThen(ps: seq<string>, dot: string, tail: string, n: nat)
    requires 1 <= |ps| <= 3 - n && n <= 3 && (dot == "" || dot == ".")
    requires forall i :: 0 <= i < |ps| ==> 1 <= |ps[i]| <= 6 && AllDigits(ps[i])
    requires tail == "" || tail[0] == '-' || tail[0] == '+'
    ensures ReadParts(Join(ps) + (dot + tail), n) == Some((Values(ps), tail))
    decreases |ps|
  {
    if |ps| == 1 {
      LastPart(ps[0], dot, tail, n);
      assert Values(ps) == [Value(ps[0])] + Values(ps[1..]) == [Value(ps[0])];
    } else {
      ReadsPartsThen(ps[1..], dot, tail, n + 1);
      ReadsStep(ps[0], ps[1..], dot + tail, tail, n);
      assert ps == [ps[0]] + ps[1..];
    }
  }

  /** Numbers with dots between them, perhaps one more, and a rest. */
  ghost predicate Spelled(t: string, ps: seq<string>, dot: string, vals: seq<nat>, rest: string) {
    && (dot == "" || dot == ".") && t == Join(ps) + (dot + rest)
    && (forall i :: 0 <= i < |ps| ==> 1 <= |ps[i]| <= 6 && AllDigits(ps[i])) && Values(ps) == vals
  }

  lemma SpelledOnce(a: string, dot: string, rest: string)
    requires 1 <= |a| <= 6 && AllDigits(a) && (dot == "" || dot == ".")
    ensures Spelled(a + (dot + rest), [a], dot, [Value(a)], rest)
  {
    assert Values([a]) == [Value(a)] + Values([]);
  }

  lemma SpelledNext(a: string, t: string, ps: seq<string>, dot: string, vals: seq<nat>, rest: string)
    requires 1 <= |a| <= 6 && AllDigits(a) && ps != [] && Spelled(t, ps, dot, vals, rest)
    ensures Spelled(a + ("." + t), [a] + ps, dot, [Value(a)] + vals, rest)
  {
    JoinNext(a, ps);
    Regroup(a, Join(ps), dot + rest);
    ValuesNext(a, ps);
  }

  /** The first number of what is read, and what follows its dot. */
  lemma FirstWas(t: string, n: nat) returns (first: string, after: Option<string>)
    requires n < 3 && ReadParts(t, n).Some? && ReadParts(t, n).value.0 != []
    ensures 1 <= |first| <= 6 && AllDigits(first)
    ensures after.None? ==> exists rest :: t == first + rest && ReadParts(t, n) == Some(([Value(first)], rest))
    ensures after.Some? ==> t == first + ("." + after.value) && ReadParts(t, n) == Rest([Value(first)], ReadParts(after.value, n + 1))
  {
    first := t[..Run(t)];
    var rest := t[Run(t)..];
    OnePart(t, n);
    assert t == first + rest;
    after := if rest == [] || rest[0] != '.' then None else Some(rest[1..]);
    if after.Some? { assert rest == "." + after.value; }
  }

  lemma NothingRead(t: string, n: nat)
    requires n <= 3 && ReadParts(t, n).Some? && ReadParts(t, n).value.0 == []
    ensures ReadParts(t, n).value.1 == t
  {
  }

  /** Conversely, what was read was spelled that way. */
  lemma {:induction false} PartsWereSpelled(t: string, n: nat) returns (ps: seq<string>, dot: string)
    requires n <= 3 && ReadParts(t, n).Some? && ReadParts(t, n).value.0 != []
    ensures ps != [] && Spelled(t, ps, dot, ReadParts(t, n).value.0, ReadParts(t, n).value.1)
    decreases 3 - n
  {
    var first, after := FirstWas(t, n);
    if after.None? {
      var rest :| t == first + rest && ReadParts(t, n) == Some(([Value(first)], rest));
      SpelledOnce(first, "", rest);
      assert "" + rest == rest;
      ps, dot := [first], "";
    } else {
      var more := ReadParts(after.value, n + 1);
      if more.value.0 == [] {
        NothingRead(after.value, n + 1);
        assert [Value(first)] + [] == [Value(first)];
        SpelledOnce(first, ".", after.value);
        ps, dot := [first], ".";
      } else {
        var qs, d := PartsWereSpelled(after.value, n + 1);
        SpelledNext(first, after.value, qs, d, more.value.0, more.value.1);
        ps, dot := [first] + qs, d;
      }
    }
  }

  /** The board reads a version exactly from a text that is a name ending in the first "_v", if any, a
      v or none, two or three numbers of up to six digits, perhaps a dot more, and a suffix with - or
      +; and it reads those numbers. */
  lemma ReadsExactly(s: string, x: Version)
    ensures Parse(s) == Some(x) <==>
      exists name, v, ps, dot, tail :: Written(s, name, v, ps, dot, tail) && x == Numbers(ps)
  {
    forall name, v, ps, dot, tail | Written(s, name, v, ps, dot, tail) ensures Parse(s) == Some(Numbers(ps)) {
      var t := Join(ps) + (dot + tail);
      assert t[0] == ps[0][0];
      BodyFollows(name, v, t);
      ReadsPartsThen(ps, dot, tail, 0);
    }
    if Parse(s) == Some(x) {
      var name, v, t := Pieces(s);
      assert t == Body(s);
      var ps, dot := PartsWereSpelled(t, 0);
      assert Written(s, name, v, ps, dot, ReadParts(t, 0).value.1);
    }
  }

  /** Every text is a name, a v and a body. */
  lemma Pieces(s: string) returns (name: string, v: string, t: string)
    ensures s == name + (v + t) && NameBefore(name, v + t) && (v == "" || v == "v" || v == "V") && t == Body(s)
  {
    var m := Marker(s);
    MarkerIsMark(s);
    name := if m >= 0 then s[..m + 2] else "";
    t := if m >= 0 then s[m + 2..] else s;
    assert s == name + t;
    forall i | m >= 0 && i < m ensures MarkAt(name, i) == MarkAt(s, i) { }
    v := "";
    if t != [] && (t[0] == 'v' || t[0] == 'V') {
      v, t := t[..1], t[1..];
    }
  }

  // ---- everything the app reads, and both orders ----

  predicate Blank(s: string) { forall i :: 0 <= i < |s| ==> s[i] == ' ' || s[i] == '\t' || s[i] == '\n' || s[i] == '\r' }

  /** x is n with white space around it, and perhaps a plus sign. */
  ghost predicate PartWritten(x: string, l: string, plus: string, digits: string, r: string, n: nat) {
    && x == l + (plus + digits) + r && Blank(l) && Blank(r) && (plus == "" || plus == "+")
    && digits != "" && AllDigits(digits) && Value(digits) == n
  }

  lemma {:induction false} TrimmedWas(s: string) returns (l: string, r: string)
    ensures s == l + Trim(s) + r && Blank(l) && Blank(r)
    decreases |s|
  {
    l, r := "", "";
    if s != [] && Space(s[0]) {
      l, r := TrimmedWas(s[1..]);
      l := [s[0]] + l;
    } else if s != [] && Space(s[|s| - 1]) {
      l, r := TrimmedWas(s[..|s| - 1]);
      r := r + [s[|s| - 1]];
    }
  }

  lemma {:induction false} TrimOf(l: string, t: string, r: string)
    requires Blank(l) && Blank(r) && t != [] && !Space(t[0]) && !Space(t[|t| - 1])
    ensures Trim(l + t + r) == t
    decreases |l| + |r|
  {
    var s := l + t + r;
    if l != [] {
      assert s[0] == l[0] && s[1..] == l[1..] + t + r;
      TrimOf(l[1..], t, r);
    } else if r != [] {
      assert s[0] == t[0] && s[|s| - 1] == r[|r| - 1] && s[..|s| - 1] == l + t + r[..|r| - 1];
      TrimOf(l, t, r[..|r| - 1]);
    } else {
      assert s == t;
    }
  }

  /** The app takes a part for n > 0 exactly when it is n in digits, below 2^64, white space and one
      plus sign apart; anything else is 0. */
  lemma AppPartExactly(x: string, n: nat)
    requires n > 0
    ensures AppPart(x) == n <==> n < 0x1_0000_0000_0000_0000 && exists l, plus, digits, r :: PartWritten(x, l, plus, digits, r, n)
  {
    forall l, plus, digits, r | PartWritten(x, l, plus, digits, r, n) ensures n < 0x1_0000_0000_0000_0000 ==> AppPart(x) == n {
      var t := plus + digits;
      assert t[|t| - 1] == digits[|digits| - 1];
      TrimOf(l, t, r);
      assert plus == "+" ==> t[1..] == digits;
      assert plus == "" ==> t == digits;
    }
    if AppPart(x) == n {
      var l, r := TrimmedWas(x);
      var t := Trim(x);
      var plus := if t[0] == '+' then "+" else "";
      var digits := t[|plus|..];
      assert t == plus + digits;
      assert PartWritten(x, l, plus, digits, r, n);
    }
  }

  /** "Newer" is the first difference, a missing part counting as 0. */
  lemma {:induction false} NewerIsFirstDifference(x: seq<nat>, y: seq<nat>, i: nat)
    ensures NewerFrom(x, y, i) <==> exists j: nat :: i <= j && At(x, j) > At(y, j) && forall k: nat :: i <= k < j ==> At(x, k) == At(y, k)
    decreases |x| + |y| - i
  {
    if At(x, i) == At(y, i) && (i < |x| || i < |y|) {
      NewerIsFirstDifference(x, y, i + 1);
    }
  }

  /** a and b first differ at i, where a is smaller, or a ends there and b does not. */
  ghost predicate SmallerAt(a: seq<nat>, b: seq<nat>, i: nat) {
    i <= |a| && i < |b| && (forall k :: 0 <= k < i ==> a[k] == b[k]) && (i < |a| ==> a[i] < b[i])
  }

  /** Python's order on tuples: the first difference decides, and a proper beginning is less. */
  lemma {:induction false} LessIsFirstDifference(a: seq<nat>, b: seq<nat>)
    ensures Less(a, b) <==> exists i: nat :: SmallerAt(a, b, i)
  {
    if a == [] || b == [] || a[0] < b[0] {
      assert b != [] ==> SmallerAt(a, b, 0);
    } else {
      LessIsFirstDifference(a[1..], b[1..]);
      forall i: nat | SmallerAt(a, b, i) ensures a[0] == b[0] && SmallerAt(a[1..], b[1..], i - 1) { }
      forall i: nat | a[0] == b[0] && SmallerAt(a[1..], b[1..], i) ensures SmallerAt(a, b, i + 1) {
        assert forall k :: 1 <= k < i + 1 ==> a[k] == a[1..][k - 1] && b[k] == b[1..][k - 1];
      }
    }
  }

  /** Each takes more on its own: the board a trailing dot, the tool a single number. */
  lemma EachReadsMore()
    ensures Parse("4.0.") == Some(Version(4, 0, 0)) && VTuple("4.0.").None?
    ensures VTuple("4").Some? && Parse("4").None?
  {
    BoardReadsDot();
    ToolRefusesDot();
    OneNumber();
  }

  lemma ToolRefusesDot()
    ensures VTuple("4.0.").None?
  {
    SplitWord("4", "0.");
    SplitWord("0", "");
    assert "4.0." == "4" + "." + "0." && "0." == "0" + "." + "";
    assert Split("4.0.")[2] == "";
  }

  lemma OneNumber()
    ensures VTuple("4").Some? && Parse("4").None?
  {
    SplitWord("4", "");
    assert Numbered(["4"]) && Join(["4"]) == "4";
    ReadsFirst(["4"], 0);
    assert Marker("4") < 0 && Body("4") == "4";
  }

  lemma BoardReadsDot()
    ensures Parse("4.0.") == Some(Version(4, 0, 0))
  {
    var s, t := "4.0.", "0.";
    assert s == "4" + "." + t && t == "0" + "." + "";
    DotAfter("0", "", 1);
    DotAfter("4", t, 0);
    assert ReadParts("", 2) == Some(([], ""));
    assert Value("4") == 4 && Value("0") == 0 by { assert "4"[..0] == "" && "0"[..0] == ""; }
    assert [0] + [] == [0] && [4] + [0] == [4, 0];
    assert ReadParts(t, 1) == Some(([0], ""));
    assert ReadParts(s, 0) == Some(([4, 0], ""));
    assert Body(s) == s;
  }

  lemma DotAfter(a: string, rest: string, n: nat)
    requires a != [] && |a| <= 6 && AllDigits(a) && n < 3
    ensures ReadParts(a + "." + rest, n) == Rest([Value(a)], ReadParts(rest, n + 1))
  {
    RunOfRun(a, "." + rest);
    assert a + ("." + rest) == a + "." + rest && ("." + rest)[1..] == rest;
    OnePart(a + "." + rest, n);
  }
}
