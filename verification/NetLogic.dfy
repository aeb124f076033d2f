/** Which saved network to join, when to move to another, and when it is worth scanning. */
module NetLogic {
  import opened Common

  const UNSEEN := -1000
  const WORKABLE := -85
  const LOOK_MS := 300_000

  /** A saved network and what the board remembers about it. ssid None: no name. */
  datatype Known = Known(ssid: Option<string>, usable: bool, net: nat, used: nat,
                         anchor: bool, tried: bool, refused: bool)

  datatype Seen = Seen(ssid: Option<string>, rssi: int)

  datatype Why = NoReason | Preferred_ | Strongest_ | ComingHome | Looking

  // ---- the strongest of a list of scores ----

  /** The first index with the greatest score, if any score is above UNSEEN; else -1. */
  ghost predicate IsBest(scores: seq<int>, r: int) {
    && -1 <= r < |scores|
    && (r < 0 ==> forall i :: 0 <= i < |scores| ==> scores[i] <= UNSEEN)
    && (r >= 0 ==> scores[r] > UNSEEN
                   && (forall i :: 0 <= i < |scores| ==> scores[i] <= scores[r])
                   && (forall i :: 0 <= i < r ==> scores[i] < scores[r]))
  }

  function BestUpTo(scores: seq<int>, n: nat): (r: int)
    requires n <= |scores|
    ensures -1 <= r < n
  {
    if n == 0 then -1
    else
      var b := BestUpTo(scores, n - 1);
      if scores[n - 1] > (if b < 0 then UNSEEN else scores[b]) then n - 1 else b
  }

  function Best(scores: seq<int>): (r: int)
    ensures -1 <= r < |scores|
  {
    BestUpTo(scores, |scores|)
  }

  lemma {:induction false} BestUpToIsBest(scores: seq<int>, n: nat)
    requires n <= |scores|
    ensures IsBest(scores[..n], BestUpTo(scores, n))
  {
    if n > 0 {
      BestUpToIsBest(scores, n - 1);
      assert forall i :: 0 <= i < n - 1 ==> scores[..n][i] == scores[..n - 1][i];
    }
  }

  lemma BestIsBest(scores: seq<int>)
    ensures IsBest(scores, Best(scores))
  {
    BestUpToIsBest(scores, |scores|);
    assert scores[..|scores|] == scores;
  }

  // ---- one network in a scan ----

  predicate Hit(ssid: Option<string>, s: Seen) { ssid.Some? && s.ssid == ssid }

  /** The strongest access point of this name in the first m results. */
  function StrongestUpTo(ssid: Option<string>, seen: seq<Seen>, m: nat): (r: int)
    requires m <= |seen|
    ensures r >= UNSEEN
    ensures forall i :: 0 <= i < m && ssid.Some? && seen[i].ssid == ssid ==> seen[i].rssi <= r
    ensures r > UNSEEN ==> ssid.Some? && exists i :: 0 <= i < m && seen[i].ssid == ssid && seen[i].rssi == r
  {
    if m == 0 then UNSEEN
    else
      var b := StrongestUpTo(ssid, seen, m - 1);
      if Hit(ssid, seen[m - 1]) && seen[m - 1].rssi > b then seen[m - 1].rssi else b
  }

  function Strength(ssid: Option<string>, seen: seq<Seen>): (r: int)
    ensures r >= UNSEEN
  {
    StrongestUpTo(ssid, seen, |seen|)
  }

  method StrongestSeen(ssid: Option<string>, seen: seq<Seen>) returns (best: int)
    ensures best == Strength(ssid, seen)
  {
    best := UNSEEN;
    for s := 0 to |seen|
      invariant best == StrongestUpTo(ssid, seen, s)
    {
      if ssid.Some? && seen[s].ssid == ssid && seen[s].rssi > best { best := seen[s].rssi; }
    }
  }

  /** Scores: how strong each eligible network is in the scan. */
  function Scores(k: seq<Known>, ok: seq<bool>, seen: seq<Seen>): (r: seq<int>)
    requires |ok| == |k|
    ensures |r| == |k|
    ensures forall i :: 0 <= i < |k| ==> r[i] == if ok[i] then Strength(k[i].ssid, seen) else UNSEEN
  {
    seq(|k|, i requires 0 <= i < |k| => if ok[i] then Strength(k[i].ssid, seen) else UNSEEN)
  }

  /** netPickBest: one pass over networks and results together. */
  method PickBest(k: seq<Known>, ok: seq<bool>, seen: seq<Seen>) returns (best: int)
    requires |ok| == |k|
    ensures best == Best(Scores(k, ok, seen))
  {
    ghost var sc := Scores(k, ok, seen);
    var bestRssi := UNSEEN;
    best := -1;
    for i := 0 to |k|
      invariant best == BestUpTo(sc, i)
      invariant bestRssi == if best < 0 then UNSEEN else sc[best]
    {
      if !ok[i] || k[i].ssid.None? {
        NamelessUnseen(k[i].ssid, seen, |seen|);
        continue;
      }
      var better;
      better, bestRssi := Outdoes(k[i].ssid, seen, bestRssi);
      if better { best := i; }
    }
  }

  /** The inner loop: does this network beat the best so far? */
  method Outdoes(ssid: Option<string>, seen: seq<Seen>, rssi: int) returns (better: bool, bestRssi: int)
    requires ssid.Some? && rssi >= UNSEEN
    ensures better <==> Strength(ssid, seen) > rssi
    ensures bestRssi == if better then Strength(ssid, seen) else rssi
  {
    better, bestRssi := false, rssi;
    for j := 0 to |seen|
      invariant better <==> StrongestUpTo(ssid, seen, j) > rssi
      invariant bestRssi == if better then StrongestUpTo(ssid, seen, j) else rssi
    {
      if seen[j].ssid == ssid && seen[j].rssi > bestRssi { better, bestRssi := true, seen[j].rssi; }
    }
  }

  lemma {:induction false} NamelessUnseen(ssid: Option<string>, seen: seq<Seen>, m: nat)
    requires m <= |seen|
    ensures ssid.None? ==> StrongestUpTo(ssid, seen, m) == UNSEEN
  {
  }

  // ---- the network the owner uses ----

  predicate Counts(x: Known) { x.used != 0 || x.anchor }

  /** a ranks strictly above b. */
  predicate Above(a: Known, b: Known) {
    (a.anchor && !b.anchor) || (a.anchor == b.anchor && a.used > b.used)
  }

  function PreferredUpTo(k: seq<Known>, n: nat): (p: int)
    requires n <= |k|
    ensures -1 <= p < n && (p >= 0 ==> Counts(k[p]))
  {
    if n == 0 then -1
    else
      var p := PreferredUpTo(k, n - 1);
      if Counts(k[n - 1]) && (p < 0 || Above(k[n - 1], k[p])) then n - 1 else p
  }

  function Preferred(k: seq<Known>): (p: int)
    ensures -1 <= p < |k| && (p >= 0 ==> Counts(k[p]))
  {
    PreferredUpTo(k, |k|)
  }

  /** The anchored one, else the one used last; the first saved among equals; -1 if none counts. */
  ghost predicate IsPreferred(k: seq<Known>, p: int) {
    && -1 <= p < |k|
    && (p < 0 ==> forall i :: 0 <= i < |k| ==> k[i].used == 0 && !k[i].anchor)
    && (p >= 0 ==>
          && (k[p].used != 0 || k[p].anchor)
          && (!k[p].anchor ==> forall i :: 0 <= i < |k| ==> !k[i].anchor)
          && (forall i :: 0 <= i < |k| && k[i].anchor == k[p].anchor ==> k[i].used <= k[p].used)
          && (forall i :: 0 <= i < p && k[i].anchor == k[p].anchor ==> k[i].used < k[p].used))
  }

  lemma {:induction false} PreferredIsPreferred(k: seq<Known>, n: nat)
    requires n <= |k|
    ensures IsPreferred(k[..n], PreferredUpTo(k, n))
  {
    if n > 0 {
      PreferredIsPreferred(k, n - 1);
      assert forall i :: 0 <= i < n - 1 ==> k[..n][i] == k[..n - 1][i];
    }
  }

  method FindPreferred(k: seq<Known>) returns (p: int)
    ensures p == Preferred(k) && IsPreferred(k, p)
  {
    p := -1;
    for i := 0 to |k|
      invariant p == PreferredUpTo(k, i)
    {
      if k[i].used == 0 && !k[i].anchor { continue; }
      if p < 0 || (k[i].anchor && !k[p].anchor) || (k[i].anchor == k[p].anchor && k[i].used > k[p].used) { p := i; }
    }
    PreferredIsPreferred(k, |k|);
    assert k[..|k|] == k;
  }

  // ---- one network on several names ----

  predicate SameNet(k: seq<Known>, a: nat, b: nat)
    requires a < |k| && b < |k|
  {
    a == b || (k[a].net != 0 && k[a].net == k[b].net)
  }

  function HomeOk(k: seq<Known>, p: nat): (r: seq<bool>)
    requires p < |k|
    ensures |r| == |k|
    ensures forall i :: 0 <= i < |k| ==>
      r[i] == (k[i].usable && !k[i].refused && (i == p || (k[i].net != 0 && k[i].net == k[p].net)))
  {
    seq(|k|, i requires 0 <= i < |k| => k[i].usable && !k[i].refused && SameNet(k, i, p))
  }

  /** The loop shared by netBestOfNet and the search of netMoveFrom. */
  method BestAmong(k: seq<Known>, ok: seq<bool>, seen: seq<Seen>) returns (best: int, bestRssi: int)
    requires |ok| == |k|
    ensures best == Best(Scores(k, ok, seen))
    ensures bestRssi == if best < 0 then UNSEEN else Scores(k, ok, seen)[best]
  {
    ghost var sc := Scores(k, ok, seen);
    best, bestRssi := -1, UNSEEN;
    for i := 0 to |k|
      invariant best == BestUpTo(sc, i)
      invariant bestRssi == if best < 0 then UNSEEN else sc[best]
    {
      if !ok[i] { continue; }
      var r := StrongestSeen(k[i].ssid, seen);
      if r > bestRssi { best, bestRssi := i, r; }
    }
  }

  // ---- choosing while off a network ----

  /** The member of the preferred network to join, or -1 when none is workable. */
  function Home(k: seq<Known>, seen: seq<Seen>): (r: int)
    ensures -1 <= r < |k|
  {
    var p := Preferred(k);
    if p < 0 then -1
    else
      var sc := Scores(k, HomeOk(k, p), seen);
      var i := Best(sc);
      if i >= 0 && sc[i] >= WORKABLE then i else -1
  }

  /** Pass 0 leaves out networks tried in vain or refusing their password; only the first
      sixteen saved networks are looked at. */
  function TierOk(k: seq<Known>, pass: nat): (r: seq<bool>)
    ensures |r| == |k|
    ensures forall i :: 0 <= i < |k| ==> r[i] == (i < 16 && k[i].usable && (pass == 1 || (!k[i].tried && !k[i].refused)))
  {
    seq(|k|, i requires 0 <= i < |k| => i < 16 && k[i].usable && (pass == 1 || (!k[i].tried && !k[i].refused)))
  }

  function Choose(k: seq<Known>, seen: seq<Seen>): (int, Why) {
    if Home(k, seen) >= 0 then (Home(k, seen), Preferred_)
    else
      var a, b := Best(Scores(k, TierOk(k, 0), seen)), Best(Scores(k, TierOk(k, 1), seen));
      if a >= 0 then (a, Strongest_) else if b >= 0 then (b, Strongest_) else (-1, NoReason)
  }

  /** netBestOfNet and the workable test on what it finds. */
  method FindHome(k: seq<Known>, seen: seq<Seen>) returns (r: int)
    ensures r == Home(k, seen)
  {
    var p := FindPreferred(k);
    if p < 0 { return -1; }
    var i, rssi := BestAmong(k, HomeOk(k, p), seen);
    r := if i >= 0 && rssi >= WORKABLE then i else -1;
  }

  method ChooseNetwork(k: seq<Known>, seen: seq<Seen>) returns (r: int, why: Why)
    ensures (r, why) == Choose(k, seen)
  {
    var h := FindHome(k, seen);
    if h >= 0 { return h, Preferred_; }
    var i := PickBest(k, TierOk(k, 0), seen);
    if i >= 0 { return i, Strongest_; }
    i := PickBest(k, TierOk(k, 1), seen);
    if i >= 0 { return i, Strongest_; }
    r, why := -1, NoReason;
  }

  // ---- moving while on a network ----

  /** Somebody has used the network cur is part of. */
  predicate UsedHere(k: seq<Known>, cur: nat)
    requires cur < |k|
  {
    exists i :: 0 <= i < |k| && Counts(k[i]) && SameNet(k, i, cur)
  }

  function LookOk(k: seq<Known>, cur: nat): (r: seq<bool>)
    requires cur < |k|
    ensures |r| == |k|
    ensures forall i :: 0 <= i < |k| ==>
      r[i] == (k[i].usable && !k[i].tried && !k[i].refused && i != cur && (k[i].net == 0 || k[i].net != k[cur].net))
  {
    seq(|k|, i requires 0 <= i < |k| => k[i].usable && !k[i].tried && !k[i].refused && !SameNet(k, i, cur))
  }

  /** Off the preferred network, the member of it to go home to; -1 otherwise. */
  function GoHome(k: seq<Known>, cur: nat, seen: seq<Seen>): (r: int)
    requires cur < |k|
    ensures -1 <= r < |k|
  {
    var p := Preferred(k);
    if p >= 0 && !SameNet(k, cur, p) then Home(k, seen) else -1
  }

  function MoveFrom(k: seq<Known>, cur: int, seen: seq<Seen>, msHere: nat, ownerHere: bool): (int, Why) {
    if cur < 0 || cur >= |k| || ownerHere then (-1, NoReason)
    else if GoHome(k, cur, seen) >= 0 then (GoHome(k, cur, seen), ComingHome)
    else if UsedHere(k, cur) || msHere < LOOK_MS then (-1, NoReason)
    else
      var b := Best(Scores(k, LookOk(k, cur), seen));
      if b >= 0 then (b, Looking) else (-1, NoReason)
  }

  method SomebodyUsed(k: seq<Known>, cur: nat) returns (r: bool)
    requires cur < |k|
    ensures r == UsedHere(k, cur)
  {
    r := false;
    for i := 0 to |k|
      invariant r == exists j :: 0 <= j < i && Counts(k[j]) && SameNet(k, j, cur)
    {
      if (k[i].used != 0 || k[i].anchor) && SameNet(k, i, cur) { r := true; }
    }
  }

  method DecideMove(k: seq<Known>, cur: int, seen: seq<Seen>, msHere: nat, ownerHere: bool) returns (r: int, why: Why)
    ensures (r, why) == MoveFrom(k, cur, seen, msHere, ownerHere)
  {
    if cur < 0 || cur >= |k| || ownerHere { return -1, NoReason; }
    var p := FindPreferred(k);
    if p >= 0 && !SameNet(k, cur, p) {
      var h := FindHome(k, seen);
      if h >= 0 { return h, ComingHome; }
    }
    var used := SomebodyUsed(k, cur);
    if used || msHere < LOOK_MS { return -1, NoReason; }
    var best, bestRssi := BestAmong(k, LookOk(k, cur), seen);
    BestIsBest(Scores(k, LookOk(k, cur), seen));
    if best >= 0 && bestRssi > UNSEEN { return best, Looking; }
    r, why := -1, NoReason;
  }

  // ---- is a scan worth it? ----

  predicate AnyOk(ok: seq<bool>) { exists i :: 0 <= i < |ok| && ok[i] }

  predicate NeedsLook(k: seq<Known>, cur: int, msHere: nat) {
    if cur < 0 || cur >= |k| then false
    else
      var p := Preferred(k);
      if p >= 0 && !SameNet(k, cur, p) && AnyOk(HomeOk(k, p)) then true
      else if UsedHere(k, cur) || msHere < LOOK_MS then false
      else AnyOk(LookOk(k, cur))
  }

  method WorthScanning(k: seq<Known>, cur: int, msHere: nat) returns (r: bool)
    ensures r == NeedsLook(k, cur, msHere)
  {
    if cur < 0 || cur >= |k| { return false; }
    var p := FindPreferred(k);
    if p >= 0 && !SameNet(k, cur, p) {
      for i := 0 to |k|
        invariant forall j :: 0 <= j < i ==> !HomeOk(k, p)[j]
      {
        if k[i].usable && !k[i].refused && SameNet(k, i, p) {
          assert HomeOk(k, p)[i];
          return true;
        }
      }
    }
    var used := SomebodyUsed(k, cur);
    if used || msHere < LOOK_MS { return false; }
    for i := 0 to |k|
      invariant forall j :: 0 <= j < i ==> !LookOk(k, cur)[j]
    {
      if k[i].usable && !k[i].tried && !k[i].refused && !SameNet(k, i, cur) {
        assert LookOk(k, cur)[i];
        return true;
      }
    }
    r := false;
  }
}
