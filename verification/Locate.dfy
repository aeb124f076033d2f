/** Finding the boards on this computer's USB among those that answer on the network. */
module Locate {
  import opened Common

  type Mac = nat

  datatype NetBoard = NetBoard(url: string, mac: Mac, firmware: string)

  /** What came of asking an address. */
  datatype Answer = Board(board: NetBoard) | Miss(why: string)

  datatype Found = Found(here: seq<NetBoard>, offline: seq<Mac>, elsewhere: nat, misses: seq<(string, string)>)

  // ---- what to ask ----

  /** us appended to out, each once. */
  function AddAll(out: seq<string>, us: seq<string>): (r: seq<string>)
    ensures out <= r
    decreases |us|
  {
    if us == [] then out else AddAll(if us[0] in out then out else out + [us[0]], us[1..])
  }

  ghost predicate Distinct<T>(s: seq<T>) { forall i, j :: 0 <= i < j < |s| ==> s[i] != s[j] }

  /** u's first place in s is before v's. */
  ghost predicate Earlier(s: seq<string>, u: string, v: string) {
    exists i :: 0 <= i < |s| && s[i] == u && forall j :: 0 <= j <= i ==> s[j] != v
  }

  /** Appending one more address: a new one goes last. */
  lemma {:induction false} AddAllSnoc(out: seq<string>, us: seq<string>, u: string)
    ensures AddAll(out, us + [u]) == var r := AddAll(out, us); if u in r then r else r + [u]
    decreases |us|
  {
    if us == [] {
      assert (us + [u])[1..] == [];
    } else {
      assert (us + [u])[1..] == us[1..] + [u];
      AddAllSnoc(if us[0] in out then out else out + [us[0]], us[1..], u);
    }
  }

  /** The same addresses, each once, in the order of their first mention. */
  lemma {:induction false} AddAllIsDistinct(us: seq<string>)
    ensures var r := AddAll([], us);
      && Distinct(r) && (forall u :: u in r <==> u in us)
      && forall i, j :: 0 <= i < j < |r| ==> Earlier(us, r[i], r[j])
  {
    if us != [] {
      var n := |us| - 1;
      var t, u := us[..n], us[n];
      assert us == t + [u];
      AddAllSnoc([], t, u);
      AddAllIsDistinct(t);
      var q, r := AddAll([], t), AddAll([], us);
      forall i, j | 0 <= i < j < |r| ensures Earlier(us, r[i], r[j]) {
        assert r[i] == q[i] && q[i] in t;
        if j < |q| { EarlierStays(t, u, q[i], q[j]); } else { NewIsLater(t, u, q[i]); }
      }
    }
  }

  lemma EarlierStays(s: seq<string>, x: string, u: string, v: string)
    requires Earlier(s, u, v)
    ensures Earlier(s + [x], u, v)
  {
    var i :| 0 <= i < |s| && s[i] == u && forall j :: 0 <= j <= i ==> s[j] != v;
    assert (s + [x])[i] == u;
  }

  lemma NewIsLater(s: seq<string>, x: string, u: string)
    requires x !in s && u in s
    ensures Earlier(s + [x], u, x)
  {
    var i :| 0 <= i < |s| && s[i] == u;
    assert (s + [x])[i] == u;
  }

  lemma {:induction false} AddAllTwice(out: seq<string>, a: seq<string>, b: seq<string>)
    ensures AddAll(AddAll(out, a), b) == AddAll(out, a + b)
    decreases |a|
  {
    if a == [] {
      assert a + b == b;
    } else {
      assert (a + b)[1..] == a[1..] + b;
      AddAllTwice(if a[0] in out then out else out + [a[0]], a[1..], b);
    }
  }

  /** Pushing those not there yet. */
  method Add(out: seq<string>, us: seq<string>) returns (r: seq<string>)
    ensures r == AddAll(out, us)
  {
    r := out;
    for i := 0 to |us|
      invariant AddAll(out, us) == AddAll(r, us[i..])
    {
      assert us[i..][0] == us[i] && us[i..][1..] == us[i + 1..];
      if us[i] !in r { r := r + [us[i]]; }
    }
  }

  function Maybe(u: Option<string>): seq<string> { if u.Some? then [u.value] else [] }

  /** candidates: what was remembered, what was browsed, then the .local names. */
  method Candidates(names: seq<string>, remembered: Option<string>, browsed: seq<string>) returns (out: seq<string>)
    ensures out == AddAll([], Maybe(remembered) + browsed + names)
  {
    out := Add([], Maybe(remembered));
    AddAllTwice([], Maybe(remembered), browsed);
    out := Add(out, browsed);
    AddAllTwice([], Maybe(remembered) + browsed, names);
    out := Add(out, names);
  }

  /** The remembered addresses of the boards plugged in. */
  function Remembered(remembered: seq<(Mac, string)>, macs: seq<Mac>): seq<string> {
    if remembered == [] then []
    else
      var before := Remembered(remembered[..|remembered| - 1], macs);
      var (m, u) := remembered[|remembered| - 1];
      if m in macs then before + [u] else before
  }

  /** The addresses asked, in order. */
  function Urls(macs: seq<Mac>, names: seq<string>, remembered: seq<(Mac, string)>, browsed: seq<string>): seq<string> {
    AddAll(Remembered(remembered, macs), AddAll([], browsed + names))
  }

  /** The board of the address at place i is plugged in. */
  predicate IsPlugged(remembered: seq<(Mac, string)>, macs: seq<Mac>, i: nat) {
    i < |remembered| && remembered[i].0 in macs
  }

  lemma {:induction false} RememberedIsPlugged(remembered: seq<(Mac, string)>, macs: seq<Mac>, u: string)
    ensures u in Remembered(remembered, macs) <==> exists i: nat :: IsPlugged(remembered, macs, i) && remembered[i].1 == u
  {
    if remembered != [] {
      var n := |remembered| - 1;
      RememberedIsPlugged(remembered[..n], macs, u);
      if i: nat :| IsPlugged(remembered[..n], macs, i) && remembered[..n][i].1 == u {
        assert IsPlugged(remembered, macs, i);
      }
      forall i: nat | IsPlugged(remembered, macs, i) && remembered[i].1 == u ensures u in Remembered(remembered, macs) {
        if i < n { assert IsPlugged(remembered[..n], macs, i) && remembered[..n][i].1 == u; }
      }
      assert remembered[n].0 in macs ==> IsPlugged(remembered, macs, n);
    }
  }

  lemma {:induction false} AddAllAdds(out: seq<string>, us: seq<string>)
    ensures var r := AddAll(out, us);
      && out <= r && (forall u :: u in r <==> u in out || u in us)
      && forall i, j :: |out| <= j < |r| && 0 <= i < j ==> r[i] != r[j]
    decreases |us|
  {
    if us != [] { AddAllAdds(if us[0] in out then out else out + [us[0]], us[1..]); }
  }

  /** An address is asked exactly when it worked before for a board that is plugged in, or was browsed,
      or is a plugged-in board's name; the remembered ones first, and none again after them. */
  lemma AskedExactly(macs: seq<Mac>, names: seq<string>, remembered: seq<(Mac, string)>, browsed: seq<string>)
    ensures var r, us := Remembered(remembered, macs), Urls(macs, names, remembered, browsed);
      && r <= us && (forall i, j :: |r| <= j < |us| && 0 <= i < j ==> us[i] != us[j])
      && forall u :: u in us <==>
           (exists i: nat :: IsPlugged(remembered, macs, i) && remembered[i].1 == u) || u in browsed || u in names
  {
    AddAllAdds([], browsed + names);
    AddAllAdds(Remembered(remembered, macs), AddAll([], browsed + names));
    forall u { RememberedIsPlugged(remembered, macs, u); }
  }

  // ---- what the answers say ----

  ghost predicate AnsweredAt(ans: seq<Answer>, i: nat, b: NetBoard) {
    i < |ans| && ans[i] == Board(b)
  }

  /** b is the first answer of its board. */
  ghost predicate FirstAnswer(ans: seq<Answer>, b: NetBoard) {
    exists i: nat :: AnsweredAt(ans, i, b) && forall j :: 0 <= j < i ==> !(ans[j].Board? && ans[j].board.mac == b.mac)
  }

  ghost predicate Answered(ans: seq<Answer>, m: Mac) {
    exists i :: 0 <= i < |ans| && ans[i].Board? && ans[i].board.mac == m
  }

  ghost predicate HasMac(s: seq<NetBoard>, m: Mac) {
    exists i :: 0 <= i < |s| && s[i].mac == m
  }

  ghost predicate DistinctMacs(s: seq<NetBoard>) {
    forall i, j :: 0 <= i < j < |s| ==> s[i].mac != s[j].mac
  }

  /** Each board once, at its first answer, and every board that answered. */
  ghost predicate Collected(ans: seq<Answer>, seen: seq<NetBoard>) {
    && DistinctMacs(seen)
    && (forall i :: 0 <= i < |seen| ==> FirstAnswer(ans, seen[i]))
    && forall m :: Answered(ans, m) ==> HasMac(seen, m)
  }

  ghost predicate StrictlySorted(s: seq<NetBoard>) {
    forall i, j :: 0 <= i < j < |s| ==> s[i].mac < s[j].mac
  }

  function Misses(urls: seq<string>, ans: seq<Answer>): seq<(string, string)>
    requires |urls| == |ans|
  {
    if ans == [] then []
    else
      var n := |ans| - 1;
      Misses(urls[..n], ans[..n]) + if ans[n].Miss? then [(urls[n], ans[n].why)] else []
  }

  /** The boards that answered and are not plugged in here. */
  ghost predicate IsElsewhere(macs: seq<Mac>, ans: seq<Answer>, others: set<Mac>) {
    forall m :: m in others <==> Answered(ans, m) && m !in macs
  }

  lemma FirstAnswerStays(ans: seq<Answer>, a: Answer, b: NetBoard)
    requires FirstAnswer(ans, b)
    ensures FirstAnswer(ans + [a], b)
  {
    var i: nat :| AnsweredAt(ans, i, b) && forall j :: 0 <= j < i ==> !(ans[j].Board? && ans[j].board.mac == b.mac);
    var more := ans + [a];
    assert AnsweredAt(more, i, b) && forall j :: 0 <= j <= i ==> more[j] == ans[j];
  }

  lemma AnsweredGrows(ans: seq<Answer>, a: Answer, m: Mac)
    ensures Answered(ans + [a], m) <==> Answered(ans, m) || (a.Board? && a.board.mac == m)
  {
    var more := ans + [a];
    assert more[|ans|] == a;
    assert forall i :: 0 <= i < |ans| ==> more[i] == ans[i];
  }

  lemma HasMacGrows(s: seq<NetBoard>, b: NetBoard, m: Mac)
    ensures HasMac(s + [b], m) <==> HasMac(s, m) || b.mac == m
  {
    var more := s + [b];
    assert more[|s|] == b;
    assert forall i :: 0 <= i < |s| ==> more[i] == s[i];
  }

  /** One more answer: a board not seen before is kept, any other is dropped. */
  lemma CollectedGrows(ans: seq<Answer>, seen: seq<NetBoard>, a: Answer)
    requires Collected(ans, seen)
    ensures Collected(ans + [a], if a.Board? && !HasMac(seen, a.board.mac) then seen + [a.board] else seen)
  {
    var more := ans + [a];
    var seen2 := if a.Board? && !HasMac(seen, a.board.mac) then seen + [a.board] else seen;
    forall i | 0 <= i < |seen2| ensures FirstAnswer(more, seen2[i]) {
      if i < |seen| {
        FirstAnswerStays(ans, a, seen[i]);
      } else {
        forall j | 0 <= j < |ans| ensures !(more[j].Board? && more[j].board.mac == a.board.mac) {
          assert ans[j].Board? ==> Answered(ans, ans[j].board.mac);
        }
        assert AnsweredAt(more, |ans|, a.board);
      }
    }
    forall m | Answered(more, m) ensures HasMac(seen2, m) {
      AnsweredGrows(ans, a, m);
      if a.Board? { HasMacGrows(seen, a.board, m); }
    }
  }

  /** A board among the first i is not the i-th. */
  lemma NewMac(s: seq<NetBoard>, i: nat, b: NetBoard)
    requires DistinctMacs(s) && i < |s| && b in s[..i]
    ensures b.mac != s[i].mac
  {
  }

  lemma InsertSorted(r: seq<NetBoard>, k: nat, x: NetBoard)
    requires StrictlySorted(r) && k <= |r|
    requires forall j :: 0 <= j < k ==> r[j].mac < x.mac
    requires forall j :: k <= j < |r| ==> x.mac < r[j].mac
    ensures var t := r[..k] + [x] + r[k..];
      StrictlySorted(t) && forall b :: b in t <==> b in r || b == x
  {
  }

  /** sort_by_key for boards that are all different. */
  method SortByMac(s: seq<NetBoard>) returns (r: seq<NetBoard>)
    requires DistinctMacs(s)
    ensures StrictlySorted(r) && forall b :: b in r <==> b in s
  {
    r := [];
    for i := 0 to |s|
      invariant StrictlySorted(r) && forall b :: b in r <==> b in s[..i]
    {
      var k := |r|;
      while k > 0 && r[k - 1].mac > s[i].mac
        invariant 0 <= k <= |r|
        invariant forall j :: k <= j < |r| ==> s[i].mac < r[j].mac
      {
        k := k - 1;
      }
      if k > 0 { NewMac(s, i, r[k - 1]); }
      InsertSorted(r, k, s[i]);
      assert s[..i + 1] == s[..i] + [s[i]];
      r := r[..k] + [s[i]] + r[k..];
    }
    assert s[..|s|] == s;
  }

  /** The boards collected that are plugged in, in the order collected. */
  method KeepHere(seen: seq<NetBoard>, macs: seq<Mac>) returns (r: seq<NetBoard>)
    requires DistinctMacs(seen)
    ensures DistinctMacs(r) && forall b :: b in r <==> b in seen && b.mac in macs
  {
    r := [];
    for i := 0 to |seen|
      invariant DistinctMacs(r) && forall b :: b in r <==> b in seen[..i] && b.mac in macs
    {
      assert seen[..i + 1] == seen[..i] + [seen[i]];
      if seen[i].mac in macs {
        forall j | 0 <= j < |r| ensures r[j].mac != seen[i].mac { NewMac(seen, i, r[j]); }
        r := r + [seen[i]];
      }
    }
    assert seen[..|seen|] == seen;
  }

  /** How many boards are plugged in elsewhere. */
  method CountElsewhere(seen: seq<NetBoard>, macs: seq<Mac>, ghost ans: seq<Answer>) returns (n: nat)
    requires Collected(ans, seen)
    ensures forall others :: IsElsewhere(macs, ans, others) ==> n == |others|
  {
    n := 0;
    ghost var others: set<Mac> := {};
    for i := 0 to |seen|
      invariant n == |others|
      invariant forall m :: m in others <==> HasMac(seen[..i], m) && m !in macs
    {
      assert seen[..i + 1] == seen[..i] + [seen[i]];
      forall m ensures HasMac(seen[..i + 1], m) <==> HasMac(seen[..i], m) || seen[i].mac == m {
        HasMacGrows(seen[..i], seen[i], m);
      }
      if seen[i].mac !in macs {
        assert seen[i].mac !in others;
        n := n + 1;
        others := others + {seen[i].mac};
      }
    }
    assert seen[..|seen|] == seen;
    forall m ensures HasMac(seen, m) <==> Answered(ans, m) { CollectedMacs(ans, seen, m); }
    forall o | IsElsewhere(macs, ans, o) ensures n == |o| { assert o == others; }
  }

  lemma CollectedMacs(ans: seq<Answer>, seen: seq<NetBoard>, m: Mac)
    requires Collected(ans, seen)
    ensures HasMac(seen, m) <==> Answered(ans, m)
  {
  }

  function Answers(net: (nat, string) -> Answer, asked: seq<string>): seq<Answer> {
    seq(|asked|, i requires 0 <= i < |asked| => net(i, asked[i]))
  }

  /** seen.iter().any: is there a board with this MAC? */
  method Knows(s: seq<NetBoard>, m: Mac) returns (known: bool)
    ensures known <==> HasMac(s, m)
  {
    for k := 0 to |s|
      invariant forall j :: 0 <= j < k ==> s[j].mac != m
    {
      if s[k].mac == m { return true; }
    }
    known := false;
  }

  lemma MissesGrow(urls: seq<string>, ans: seq<Answer>, u: string, a: Answer)
    requires |urls| == |ans|
    ensures Misses(urls + [u], ans + [a]) == Misses(urls, ans) + if a.Miss? then [(u, a.why)] else []
  {
  }

  /** One answer: a board is kept unless it is known, a miss is noted. */
  method Note(url: string, a: Answer, ghost urls: seq<string>, ghost ans: seq<Answer>,
              seen0: seq<NetBoard>, misses0: seq<(string, string)>)
    returns (seen: seq<NetBoard>, misses: seq<(string, string)>)
    requires |urls| == |ans| && Collected(ans, seen0) && misses0 == Misses(urls, ans)
    ensures Collected(ans + [a], seen) && misses == Misses(urls + [url], ans + [a])
  {
    CollectedGrows(ans, seen0, a);
    MissesGrow(urls, ans, url, a);
    seen, misses := seen0, misses0;
    match a {
      case Board(b) =>
        var known := Knows(seen, b.mac);
        if !known { seen := seen + [b]; }
      case Miss(why) =>
        misses := misses + [(url, why)];
    }
  }

  /** Asking in turn: net says what the i-th request, to that address, brings. */
  method AskAll(urls: seq<string>, net: (nat, string) -> Answer) returns (seen: seq<NetBoard>, misses: seq<(string, string)>)
    ensures Collected(Answers(net, urls), seen) && misses == Misses(urls, Answers(net, urls))
  {
    seen, misses := [], [];
    ghost var ans := [];
    for i := 0 to |urls|
      invariant |ans| == i && forall k :: 0 <= k < i ==> ans[k] == net(k, urls[k])
      invariant Collected(ans, seen) && misses == Misses(urls[..i], ans)
    {
      var a := net(i, urls[i]);
      assert urls[..i + 1] == urls[..i] + [urls[i]];
      seen, misses := Note(urls[i], a, urls[..i], ans, seen, misses);
      ans := ans + [a];
    }
    assert urls[..|urls|] == urls && ans == Answers(net, urls);
  }

  /** The plugged-in boards that are not among those here. */
  method Missing(macs: seq<Mac>, here: seq<NetBoard>) returns (offline: seq<Mac>)
    ensures forall m :: m in offline <==> m in macs && !HasMac(here, m)
    ensures Distinct(macs) ==> Distinct(offline)
  {
    offline := [];
    for i := 0 to |macs|
      invariant forall m :: m in offline <==> m in macs[..i] && !HasMac(here, m)
      invariant Distinct(macs) ==> Distinct(offline)
    {
      assert macs[..i + 1] == macs[..i] + [macs[i]];
      var present := Knows(here, macs[i]);
      if !present {
        assert forall j :: 0 <= j < |offline| ==> offline[j] in macs[..i];
        offline := offline + [macs[i]];
      }
    }
    assert macs[..|macs|] == macs;
  }

  /** The addresses to ask: remembered ones of boards plugged in, then the other candidates. */
  method ToAsk(macs: seq<Mac>, names: seq<string>, remembered: seq<(Mac, string)>, browsed: seq<string>) returns (urls: seq<string>)
    ensures urls == Urls(macs, names, remembered, browsed)
  {
    urls := [];
    for i := 0 to |remembered|
      invariant urls == Remembered(remembered[..i], macs)
    {
      assert remembered[..i + 1][..i] == remembered[..i];
      if remembered[i].0 in macs { urls := urls + [remembered[i].1]; }
    }
    assert remembered[..|remembered|] == remembered;
    var found := Candidates(names, None, browsed);
    assert Maybe(None) + browsed + names == browsed + names;
    urls := Add(urls, found);
  }

  /** find_all: every plugged-in board is here, at its first answer, or offline; the boards here
      are strictly sorted; the others that answered are counted; nothing is asked when nothing
      is plugged in. */
  method FindAll(macs: seq<Mac>, names: seq<string>, remembered: seq<(Mac, string)>, browsed: seq<string>,
                 net: (nat, string) -> Answer) returns (f: Found, asked: seq<string>)
    ensures asked == if macs == [] then [] else Urls(macs, names, remembered, browsed)
    ensures StrictlySorted(f.here)
    ensures forall b :: b in f.here ==> b.mac in macs && FirstAnswer(Answers(net, asked), b)
    ensures forall m :: m in macs ==> (HasMac(f.here, m) <==> Answered(Answers(net, asked), m))
    ensures forall m :: m in f.offline <==> m in macs && !HasMac(f.here, m)
    ensures Distinct(macs) ==> Distinct(f.offline)
    ensures macs == [] ==> f.elsewhere == 0
    ensures forall others :: IsElsewhere(macs, Answers(net, asked), others) ==> f.elsewhere == |others|
    ensures f.misses == Misses(asked, Answers(net, asked))
  {
    if macs == [] {
      asked := [];
      f := Found([], [], 0, []);
      forall others | IsElsewhere(macs, Answers(net, asked), others) ensures others == {} {
        assert forall m :: !Answered(Answers(net, asked), m);
        assert forall m :: m !in others;
      }
      return;
    }
    asked := ToAsk(macs, names, remembered, browsed);
    var seen, misses := AskAll(asked, net);
    var kept := KeepHere(seen, macs);
    var here := SortByMac(kept);
    var offline := Missing(macs, here);
    var elsewhere := CountElsewhere(seen, macs, Answers(net, asked));
    f := Found(here, offline, elsewhere, misses);
    forall m | m in macs ensures HasMac(here, m) <==> Answered(Answers(net, asked), m) {
      CollectedMacs(Answers(net, asked), seen, m);
      HereIsSeen(seen, here, macs, m);
    }
  }

  lemma HereIsSeen(seen: seq<NetBoard>, here: seq<NetBoard>, macs: seq<Mac>, m: Mac)
    requires (forall b :: b in here <==> b in seen && b.mac in macs) && m in macs
    ensures HasMac(here, m) <==> HasMac(seen, m)
  {
  }
}
