/** Which release notes travel in a manifest, and which of them a board shows. */
module Release {
  import opened Common
  import opened Dotted
  import opened Versions

  const CHANGELOG_CAP := 16 * 1024
  const SHORTENED := "\n(shortened - the full notes are on the release page)"

  datatype Section = Section(version: string, text: string)

  datatype Notes = Notes(sections: seq<Section>) | MissingSection

  /** A version in the form all three languages read alike. */
  ghost predicate Agreed(s: string) { exists ps :: Parts(ps) && s == Join(ps) }

  /** After `from` and up to `to`, in the tool's order on tuples. */
  predicate Between(from: string, s: string, to: string) {
    var f, v, t := VTuple(from), VTuple(s), VTuple(to);
    f.Some? && v.Some? && t.Some? && Less(f.value, v.value) && !Less(t.value, v.value)
  }

  /** Newer than what runs, as the board compares. */
  predicate NewerThan(running: string, s: string) {
    var v, r := Parse(s), Parse(running);
    v.Some? && r.Some? && Compare(v.value, r.value) > 0
  }

  function RStrip(s: string): string {
    if s != [] && Space(s[|s| - 1]) then RStrip(s[..|s| - 1]) else s
  }

  function Cut(text: string, size: nat): string {
    if size + |text| <= CHANGELOG_CAP then text
    else RStrip(text[..if CHANGELOG_CAP > size then CHANGELOG_CAP - size else 0]) + SHORTENED
  }

  /** The sections kept from ss when `size` characters are kept already. keep tells which
      versions are wanted, clean trims a text. */
  function Collect(ss: seq<Section>, keep: string -> bool, clean: string -> string, size: nat): seq<Section> {
    if ss == [] then []
    else if !keep(ss[0].version) then Collect(ss[1..], keep, clean, size)
    else
      var text := Cut(clean(ss[0].text), size);
      [Section(ss[0].version, text)] +
        if size + |text| >= CHANGELOG_CAP then [] else Collect(ss[1..], keep, clean, size + |text|)
  }

  function ChangelogSince(ss: seq<Section>, to: string, from: string, clean: string -> string): Notes {
    var out := Collect(ss, v => Between(from, v, to), clean, 0);
    if Has(out, to) then Notes(out) else MissingSection
  }

  /** The tool's loop, with its running size. */
  method CollectInPlace(ss: seq<Section>, keep: string -> bool, clean: string -> string) returns (out: seq<Section>)
    ensures out == Collect(ss, keep, clean, 0)
  {
    var size: nat := 0;
    out := [];
    for i := 0 to |ss|
      invariant Collect(ss, keep, clean, 0) == out + Collect(ss[i..], keep, clean, size)
    {
      assert ss[i..][1..] == ss[i + 1..];
      if keep(ss[i].version) {
        var kept := Section(ss[i].version, Cut(clean(ss[i].text), size));
        size := size + |kept.text|;
        ghost var rest := if size >= CHANGELOG_CAP then [] else Collect(ss[i + 1..], keep, clean, size);
        assert out + ([kept] + rest) == (out + [kept]) + rest;
        out := out + [kept];
        if size >= CHANGELOG_CAP {
          assert out + rest == out;
          return;
        }
      }
    }
    assert ss[|ss|..] == [] && out + [] == out;
  }

  /** What a reader with its own wish shows of the notes it was sent. */
  function Shown(ss: seq<Section>, wish: string -> bool): seq<Section> {
    if ss == [] then [] else (if wish(ss[0].version) then [ss[0]] else []) + Shown(ss[1..], wish)
  }

  method IsWanted(running: Option<Version>, s: string, ghost text: string) returns (b: bool)
    requires running == Parse(text)
    ensures b == NewerThan(text, s)
  {
    var v := ParseInPlace(s);
    b := v.Some? && running.Some? && Compare(v.value, running.value) > 0;
  }

  lemma {:induction false} ShownGrows(ss: seq<Section>, x: Section, wish: string -> bool)
    ensures Shown(ss + [x], wish) == Shown(ss, wish) + if wish(x.version) then [x] else []
  {
    if ss == [] {
      assert (ss + [x])[1..] == [];
    } else {
      var all := ss + [x];
      assert all[1..] == ss[1..] + [x] && all[0] == ss[0];
      ShownGrows(ss[1..], x, wish);
      var head := if wish(ss[0].version) then [ss[0]] else [];
      var rest, last := Shown(ss[1..], wish), if wish(x.version) then [x] else [];
      assert Shown(all, wish) == head + (rest + last) == (head + rest) + last;
    }
  }

  /** The board's loop over a manifest's notes. */
  method ShowInPlace(ss: seq<Section>, running: string) returns (out: seq<Section>)
    ensures out == Shown(ss, v => NewerThan(running, v))
  {
    ghost var wish := v => NewerThan(running, v);
    ghost var done := [];
    var r := ParseInPlace(running);
    out := [];
    for i := 0 to |ss|
      invariant done == ss[..i] && out == Shown(done, wish)
    {
      var wanted := IsWanted(r, ss[i].version, running);
      assert wanted == wish(ss[i].version);
      ShownGrows(done, ss[i], wish);
      if wanted { out := out + [ss[i]]; }
      done := done + [ss[i]];
    }
    assert done == ss;
  }

  /** Characters of the wanted texts. */
  function Total(ss: seq<Section>, keep: string -> bool, clean: string -> string): nat {
    if ss == [] then 0
    else (if keep(ss[0].version) then |clean(ss[0].text)| else 0) + Total(ss[1..], keep, clean)
  }

  /** Showing part of what was collected is collecting that part, below the cap. */
  lemma {:induction false} ShownOfCollected(ss: seq<Section>, keep: string -> bool, wish: string -> bool, both: string -> bool,
                                            clean: string -> string, size: nat, size2: nat)
    requires forall i :: 0 <= i < |ss| ==>
      (both(ss[i].version) <==> keep(ss[i].version) && wish(ss[i].version))
    requires size + Total(ss, keep, clean) < CHANGELOG_CAP && size2 <= size
    ensures Shown(Collect(ss, keep, clean, size), wish) == Collect(ss, both, clean, size2)
  {
    if ss != [] {
      var s, rest := ss[0], ss[1..];
      var text := clean(s.text);
      if keep(s.version) {
        var mine := Collect(rest, keep, clean, size + |text|);
        assert ([Section(s.version, text)] + mine)[1..] == mine;
        ShownOfCollected(rest, keep, wish, both, clean, size + |text|, if both(s.version) then size2 + |text| else size2);
      } else {
        ShownOfCollected(rest, keep, wish, both, clean, size, size2);
      }
    }
  }

  lemma AgreedOrder(a: string, b: string)
    requires Agreed(a) && Agreed(b)
    ensures Parse(a).Some? && Parse(b).Some? && VTuple(a).Some? && VTuple(b).Some?
    ensures Less(VTuple(b).value, VTuple(a).value) <==> Compare(Parse(a).value, Parse(b).value) > 0
  {
    var ps :| Parts(ps) && a == Join(ps);
    var qs :| Parts(qs) && b == Join(qs);
    ThreeAgree(ps, qs);
  }

  /** Newer than what runs and inside the manifest: between what runs and the release. */
  lemma OneSection(s: string, from: string, running: string, to: string)
    requires Agreed(s) && Agreed(from) && Agreed(running) && Agreed(to)
    requires Parse(from).Some? && Parse(running).Some? && Compare(Parse(from).value, Parse(running).value) <= 0
    ensures Between(running, s, to) <==> Between(from, s, to) && NewerThan(running, s)
  {
    AgreedOrder(s, running);
    AgreedOrder(s, from);
    AgreedOrder(s, to);
    CompareIsOrder(Parse(from).value, Parse(running).value, Parse(s).value);
    CompareIsOrder(Parse(s).value, Parse(running).value, Parse(from).value);
  }

  /** A board updating from any version at or after min_from shows exactly the notes the
      release tool would collect from that version, as long as the cap is not reached. */
  lemma BoardShowsWhatItLacks(ss: seq<Section>, from: string, running: string, to: string, clean: string -> string)
    requires forall i :: 0 <= i < |ss| ==> Agreed(ss[i].version)
    requires Agreed(from) && Agreed(running) && Agreed(to)
    requires Parse(from).Some? && Parse(running).Some? && Compare(Parse(from).value, Parse(running).value) <= 0
    requires Total(ss, v => Between(from, v, to), clean) < CHANGELOG_CAP
    ensures Shown(Collect(ss, v => Between(from, v, to), clean, 0), v => NewerThan(running, v)) ==
      Collect(ss, v => Between(running, v, to), clean, 0)
  {
    forall i | 0 <= i < |ss| {
      OneSection(ss[i].version, from, running, to);
    }
    ShownOfCollected(ss, v => Between(from, v, to), v => NewerThan(running, v), v => Between(running, v, to), clean, 0, 0);
  }

  lemma {:induction false} WishedIsShown(ss: seq<Section>, wish: string -> bool, i: nat)
    requires i < |ss| && wish(ss[i].version)
    ensures ss[i] in Shown(ss, wish)
  {
    if i > 0 {
      WishedIsShown(ss[1..], wish, i - 1);
    }
  }

  predicate Has(ss: seq<Section>, version: string) { exists i :: 0 <= i < |ss| && ss[i].version == version }

  lemma ShownHas(ss: seq<Section>, wish: string -> bool, version: string)
    requires wish(version) && Has(ss, version)
    ensures Has(Shown(ss, wish), version)
  {
    var i: nat :| i < |ss| && ss[i].version == version;
    WishedIsShown(ss, wish, i);
  }

  /** The whole of changelog_since: a board older than the release shows what the tool would have
      made for it, and the release's own section is among it. */
  lemma BoardShowsTheManifest(ss: seq<Section>, from: string, running: string, to: string, clean: string -> string)
    requires forall i :: 0 <= i < |ss| ==> Agreed(ss[i].version)
    requires Agreed(from) && Agreed(running) && Agreed(to)
    requires Parse(from).Some? && Parse(running).Some? && Compare(Parse(from).value, Parse(running).value) <= 0
    requires Total(ss, v => Between(from, v, to), clean) < CHANGELOG_CAP && NewerThan(running, to)
    requires Has(Collect(ss, v => Between(from, v, to), clean, 0), to)
    ensures ChangelogSince(ss, to, from, clean).Notes?
    ensures ChangelogSince(ss, to, running, clean) ==
      Notes(Shown(ChangelogSince(ss, to, from, clean).sections, v => NewerThan(running, v)))
  {
    BoardShowsWhatItLacks(ss, from, running, to, clean);
    ShownHas(Collect(ss, v => Between(from, v, to), clean, 0), v => NewerThan(running, v), to);
  }

  // ---- what a manifest holds, up to its cap and beyond ----

  lemma {:induction false} RStripIs(s: string)
    ensures RStrip(s) <= s && Blank(s[|RStrip(s)|..])
    ensures RStrip(s) != "" ==> !Blank([RStrip(s)[|RStrip(s)| - 1]])
  {
    if s != [] {
      var n := |s| - 1;
      if Space(s[n]) {
        RStripIs(s[..n]);
        assert s[|RStrip(s)|..] == s[..n][|RStrip(s)|..] + [s[n]];
      } else {
        assert s[|s|..] == "" && [s[n]][0] == s[n];
      }
    }
  }

  function Room(size: nat): nat { if size < 16_384 then 16_384 - size else 0 }

  /** The first n of a text that is too long, the white space before the cut left off. */
  ghost predicate CutAt(text: string, size: nat, n: nat) {
    && n <= Room(size) <= |text| && Blank(text[n..Room(size)])
    && (n > 0 ==> !Blank([text[n - 1]]))
  }

  /** A text that fits is kept whole; any other ends where the room does, and says so. */
  lemma CutIs(text: string, size: nat)
    ensures size + |text| <= 16_384 ==> Cut(text, size) == text
    ensures size + |text| > 16_384 ==> exists n: nat :: CutAt(text, size, n) && Cut(text, size) == text[..n] + SHORTENED
  {
    if size + |text| > 16_384 {
      var head := text[..Room(size)];
      RStripIs(head);
      var n := |RStrip(head)|;
      assert text[n..Room(size)] == head[n..] && text[..n] == RStrip(head);
      assert CutAt(text, size, n);
    }
  }

  function Length(ss: seq<Section>): nat {
    if ss == [] then 0 else |ss[0].text| + Length(ss[1..])
  }

  lemma CutFits(text: string, size: nat)
    requires size < CHANGELOG_CAP
    ensures size + |Cut(text, size)| <= CHANGELOG_CAP + |SHORTENED|
  {
    CutIs(text, size);
  }

  /** r is made of the first sections of w, each cut to the room the ones before leave; it goes on
      exactly while there is room, and passes the cap by the notice at most. */
  ghost predicate Capped(w: seq<Section>, r: seq<Section>, clean: string -> string, size: nat) {
    && |r| <= |w| && (|r| < |w| ==> size + Length(r) >= CHANGELOG_CAP)
    && size + Length(r) <= CHANGELOG_CAP + |SHORTENED|
    && forall i :: 0 <= i < |r| ==> CappedAt(w, r, clean, size, i)
  }

  ghost predicate CappedAt(w: seq<Section>, r: seq<Section>, clean: string -> string, size: nat, i: nat)
    requires i < |r| <= |w|
  {
    var before := size + Length(r[..i]);
    before < CHANGELOG_CAP && r[i] == Section(w[i].version, Cut(clean(w[i].text), before))
  }

  lemma CappedNext(s: Section, w: seq<Section>, r: seq<Section>, clean: string -> string, size: nat)
    requires size < CHANGELOG_CAP
    requires var n := size + |Cut(clean(s.text), size)|;
      if n >= CHANGELOG_CAP then r == [] else Capped(w, r, clean, n)
    ensures Capped([s] + w, [Section(s.version, Cut(clean(s.text), size))] + r, clean, size)
  {
    var x := Section(s.version, Cut(clean(s.text), size));
    var w1, r1 := [s] + w, [x] + r;
    CutFits(clean(s.text), size);
    assert r1[1..] == r && Length(r1) == |x.text| + Length(r);
    forall i: nat | i < |r1| ensures |r1| <= |w1| && CappedAt(w1, r1, clean, size, i) {
      if i == 0 {
        assert r1[..0] == [];
      } else {
        assert r1[..i][1..] == r[..i - 1] && r1[..i][0] == x;
        assert CappedAt(w, r, clean, size + |x.text|, i - 1);
      }
    }
  }

  /** The notes of a manifest: the wanted sections in order, up to the cap. */
  lemma {:induction false} NotesAreCapped(ss: seq<Section>, keep: string -> bool, clean: string -> string, size: nat)
    requires size < CHANGELOG_CAP
    ensures Capped(Shown(ss, keep), Collect(ss, keep, clean, size), clean, size)
  {
    if ss != [] {
      if !keep(ss[0].version) {
        NotesAreCapped(ss[1..], keep, clean, size);
        assert Shown(ss, keep) == Shown(ss[1..], keep);
      } else {
        var n := size + |Cut(clean(ss[0].text), size)|;
        if n < CHANGELOG_CAP { NotesAreCapped(ss[1..], keep, clean, n); }
        CappedNext(ss[0], Shown(ss[1..], keep), if n >= CHANGELOG_CAP then [] else Collect(ss[1..], keep, clean, n), clean, size);
      }
    }
  }

  function Cleaned(ss: seq<Section>, clean: string -> string): (r: seq<Section>)
    ensures |r| == |ss| && forall i :: 0 <= i < |ss| ==> r[i].version == ss[i].version && r[i].text == clean(ss[i].text)
  {
    if ss == [] then [] else [Section(ss[0].version, clean(ss[0].text))] + Cleaned(ss[1..], clean)
  }

  lemma {:induction false} AllFit(ss: seq<Section>, keep: string -> bool, clean: string -> string, size: nat)
    requires size + Total(ss, keep, clean) < CHANGELOG_CAP
    ensures Collect(ss, keep, clean, size) == Cleaned(Shown(ss, keep), clean)
  {
    if ss != [] {
      var rest := Shown(ss[1..], keep);
      if keep(ss[0].version) {
        AllFit(ss[1..], keep, clean, size + |clean(ss[0].text)|);
        assert ([ss[0]] + rest)[1..] == rest;
      } else {
        AllFit(ss[1..], keep, clean, size);
        assert Shown(ss, keep) == rest;
      }
    }
  }

  lemma {:induction false} ShownIsWished(ss: seq<Section>, wish: string -> bool, s: Section)
    ensures s in Shown(ss, wish) <==> s in ss && wish(s.version)
  {
    if ss != [] { ShownIsWished(ss[1..], wish, s); }
  }

  /** Wanted are the versions after min_from and up to the release, in the board's order. */
  lemma BetweenIsOrder(from: string, v: string, to: string)
    requires Agreed(from) && Agreed(v) && Agreed(to)
    ensures Between(from, v, to) <==> NewerThan(from, v) && !NewerThan(to, v)
  {
    AgreedOrder(v, from);
    AgreedOrder(v, to);
  }

  /** changelog_since below the cap: exactly the sections after min_from and up to the release, whole
      and in order; refused exactly when the release has no section or is no newer than min_from. */
  lemma ManifestExactly(ss: seq<Section>, to: string, from: string, clean: string -> string)
    requires Agreed(to) && Agreed(from) && forall i :: 0 <= i < |ss| ==> Agreed(ss[i].version)
    requires Total(ss, v => Between(from, v, to), clean) < CHANGELOG_CAP
    ensures var r, w := ChangelogSince(ss, to, from, clean), Shown(ss, v => Between(from, v, to));
      && r == (if Has(ss, to) && NewerThan(from, to) then Notes(Cleaned(w, clean)) else MissingSection)
      && forall s :: s in w <==> s in ss && NewerThan(from, s.version) && !NewerThan(to, s.version)
  {
    var keep := v => Between(from, v, to);
    AllFit(ss, keep, clean, 0);
    forall s: Section ensures s in Shown(ss, keep) <==> s in ss && NewerThan(from, s.version) && !NewerThan(to, s.version) {
      ShownIsWished(ss, keep, s);
      if s in ss { BetweenIsOrder(from, s.version, to); }
    }
    HasCleaned(ss, to, from, clean);
  }

  lemma HasCleaned(ss: seq<Section>, to: string, from: string, clean: string -> string)
    requires Agreed(to) && Agreed(from)
    ensures Has(Cleaned(Shown(ss, v => Between(from, v, to)), clean), to) <==> Has(ss, to) && NewerThan(from, to)
  {
    var keep := v => Between(from, v, to);
    var w := Shown(ss, keep);
    BetweenIsOrder(from, to, to);
    if i: nat :| i < |w| && Cleaned(w, clean)[i].version == to {
      ShownIsWished(ss, keep, w[i]);
      assert w[i] in ss;
    }
    if Has(ss, to) && keep(to) {
      ShownHas(ss, keep, to);
      var i: nat :| i < |w| && w[i].version == to;
      assert Cleaned(w, clean)[i].version == to;
    }
  }

  /** A cut does not always end the notes: where white space stood before the cut there is room again,
      and the next section follows the shortened one. */
  lemma ShortenedGoesOn(v: string, next: Section) returns (text: string)
    ensures |text| > CHANGELOG_CAP && !Blank([text[0]]) && !Blank([text[|text| - 1]])
    ensures var r := Collect([Section(v, text), next], _ => true, s => s, 0);
      |r| == 2 && r[0].text == "a" + SHORTENED
  {
    text := seq(CHANGELOG_CAP + 1, i => if i == 0 || i == CHANGELOG_CAP then 'a' else ' ');
    CutIs(text, 0);
    var n: nat :| CutAt(text, 0, n) && Cut(text, 0) == text[..n] + SHORTENED;
    assert text[..Room(0)][0] == 'a' && forall i :: 0 < i < Room(0) ==> text[i] == ' ';
    assert n == 1;
    assert text[..1] == "a";
    CollectsTwo(Section(v, text), next, _ => true, s => s);
  }

  lemma CollectsTwo(a: Section, b: Section, keep: string -> bool, clean: string -> string)
    requires keep(a.version) && keep(b.version) && |Cut(clean(a.text), 0)| < CHANGELOG_CAP
    ensures var r := Collect([a, b], keep, clean, 0); |r| == 2 && r[0].text == Cut(clean(a.text), 0)
  {
    var n := |Cut(clean(a.text), 0)|;
    assert [a, b][1..] == [b];
    assert [b][1..] == [];
    assert |Collect([b], keep, clean, n)| == 1;
  }
}
