/** The four decisions agree with one another, and moving stops. */
module NetMoves {
  import opened Common
  import opened NetLogic

  // ---- what the choice is ----

  /** i is the strongest eligible network in the scan, the first saved among equals. */
  ghost predicate StrongestOf(k: seq<Known>, ok: seq<bool>, seen: seq<Seen>, i: int)
    requires |ok| == |k|
  {
    && 0 <= i < |k| && ok[i] && Strength(k[i].ssid, seen) > UNSEEN
    && (forall j :: 0 <= j < |k| && ok[j] ==> Strength(k[j].ssid, seen) <= Strength(k[i].ssid, seen))
    && (forall j :: 0 <= j < i && ok[j] ==> Strength(k[j].ssid, seen) < Strength(k[i].ssid, seen))
  }

  ghost predicate NoneInRange(k: seq<Known>, ok: seq<bool>, seen: seq<Seen>)
    requires |ok| == |k|
  {
    forall i :: 0 <= i < |k| && ok[i] ==> Strength(k[i].ssid, seen) == UNSEEN
  }

  lemma BestIsStrongest(k: seq<Known>, ok: seq<bool>, seen: seq<Seen>)
    requires |ok| == |k|
    ensures var b := Best(Scores(k, ok, seen));
      if b < 0 then NoneInRange(k, ok, seen) else StrongestOf(k, ok, seen, b)
  {
    var sc := Scores(k, ok, seen);
    BestIsBest(sc);
    forall i | 0 <= i < |k| ensures sc[i] == if ok[i] then Strength(k[i].ssid, seen) else UNSEEN { }
  }

  /** A member of the preferred network is strong enough to work. */
  ghost predicate HomeInReach(k: seq<Known>, seen: seq<Seen>) {
    var p := Preferred(k);
    p >= 0 && exists i :: 0 <= i < |k| && HomeOk(k, p)[i] && Strength(k[i].ssid, seen) >= WORKABLE
  }

  lemma HomeSpec(k: seq<Known>, seen: seq<Seen>)
    ensures Home(k, seen) >= 0 <==> HomeInReach(k, seen)
    ensures Home(k, seen) >= 0 ==> StrongestOf(k, HomeOk(k, Preferred(k)), seen, Home(k, seen))
  {
    var p := Preferred(k);
    if p >= 0 { BestIsStrongest(k, HomeOk(k, p), seen); }
  }

  /** netChoose: the strongest member of the preferred network when one is workable; else the
      strongest of those neither tried in vain nor refusing their password; else of all; and
      nothing exactly when none of the first sixteen usable networks is in range. */
  lemma ChooseSpec(k: seq<Known>, seen: seq<Seen>)
    ensures var (r, why) := Choose(k, seen);
      && (why == Preferred_ <==> HomeInReach(k, seen))
      && (why == Preferred_ ==> StrongestOf(k, HomeOk(k, Preferred(k)), seen, r))
      && (why == Strongest_ ==>
            || StrongestOf(k, TierOk(k, 0), seen, r)
            || (NoneInRange(k, TierOk(k, 0), seen) && StrongestOf(k, TierOk(k, 1), seen, r)))
      && (r == -1 <==> !HomeInReach(k, seen) && NoneInRange(k, TierOk(k, 1), seen))
      && (|k| <= 16 ==> (r == -1 <==>
            forall i :: 0 <= i < |k| && k[i].usable ==> Strength(k[i].ssid, seen) == UNSEEN))
  {
    HomeSpec(k, seen);
    BestIsStrongest(k, TierOk(k, 0), seen);
    BestIsStrongest(k, TierOk(k, 1), seen);
    var (r, why) := Choose(k, seen);
    if r == -1 && |k| <= 16 {
      forall i | 0 <= i < |k| && k[i].usable ensures Strength(k[i].ssid, seen) == UNSEEN { assert TierOk(k, 1)[i]; }
    }
    if r != -1 {
      assert k[r].usable && Strength(k[r].ssid, seen) > UNSEEN;
    }
    assert TierOk(k, 0) == TierOk(k, 0);
  }

  /** The bound of sixteen is real: a seventeenth network alone in range is not found. */
  lemma SeventeenthIsMissed()
    ensures exists k: seq<Known>, seen: seq<Seen> ::
      |k| == 17 && k[16].usable && Strength(k[16].ssid, seen) > UNSEEN && Choose(k, seen).0 == -1
  {
    var name := Some("a");
    var far := Known(Some("b"), true, 0, 0, false, false, false);
    var k := seq(17, i => if i == 16 then far.(ssid := name) else far);
    var seen := [Seen(name, -40)];
    Alone(name, -40);
    forall i | 0 <= i < 16 ensures Strength(k[i].ssid, seen) == UNSEEN { assert !Hit(k[i].ssid, seen[0]); }
    assert forall i :: 0 <= i < |k| ==> !Counts(k[i]);
    PreferredIsPreferred(k, |k|);
    assert k[..|k|] == k;
    ChooseSpec(k, seen);
    assert |k| == 17 && k[16].usable && Strength(k[16].ssid, seen) > UNSEEN && Choose(k, seen).0 == -1;
  }

  /** A scan that sees one name once. */
  lemma Alone(name: Option<string>, rssi: int)
    requires name.Some? && rssi > UNSEEN
    ensures Strength(name, [Seen(name, rssi)]) == rssi
  {
  }

  // ---- what a move is ----

  /** The board may leave cur: it is on a saved network and no owner uses it now. */
  predicate MayLeave(k: seq<Known>, cur: int, ownerHere: bool) { 0 <= cur < |k| && !ownerHere }

  /** Off the preferred network, one of whose members is workable. */
  ghost predicate HomeCalls(k: seq<Known>, cur: nat, seen: seq<Seen>)
    requires cur < |k|
  {
    var p := Preferred(k);
    p >= 0 && cur != p && (k[cur].net == 0 || k[cur].net != k[p].net) && HomeInReach(k, seen)
  }

  /** Nobody has used this network, nobody came for NET_LOOK_MS, and one not tried is in range. */
  ghost predicate LooksOn(k: seq<Known>, cur: nat, seen: seq<Seen>, msHere: nat)
    requires cur < |k|
  {
    && k[cur].used == 0 && !k[cur].anchor
    && (forall i :: 0 <= i < |k| && k[i].net != 0 && k[i].net == k[cur].net ==> k[i].used == 0 && !k[i].anchor)
    && msHere >= LOOK_MS && !NoneInRange(k, LookOk(k, cur), seen)
  }

  /** netMoveFrom, entirely: coming home goes before looking, to the strongest there is; and with an
      owner here, or nothing of this, the board stays. */
  lemma MoveSpec(k: seq<Known>, cur: int, seen: seq<Seen>, msHere: nat, ownerHere: bool)
    ensures var (r, why) := MoveFrom(k, cur, seen, msHere, ownerHere);
      && (ownerHere ==> r == -1)
      && (why == ComingHome <==> MayLeave(k, cur, ownerHere) && HomeCalls(k, cur, seen))
      && (why == ComingHome ==> StrongestOf(k, HomeOk(k, Preferred(k)), seen, r))
      && (why == Looking <==> MayLeave(k, cur, ownerHere) && !HomeCalls(k, cur, seen) && LooksOn(k, cur, seen, msHere))
      && (why == Looking ==> StrongestOf(k, LookOk(k, cur), seen, r))
      && (why != ComingHome && why != Looking ==> r == -1 && why == NoReason)
  {
    HomeSpec(k, seen);
    if 0 <= cur < |k| { BestIsStrongest(k, LookOk(k, cur), seen); }
  }

  // ---- the choice is stable ----

  lemma SameNetSymmetric(k: seq<Known>, a: nat, b: nat)
    requires a < |k| && b < |k|
    ensures SameNet(k, a, b) == SameNet(k, b, a)
  {
  }

  /** After choosing, the same scan does not make the board move before NET_LOOK_MS, and never
      when the choice was the preferred network - whatever later scans show. */
  lemma ChoiceIsStable(k: seq<Known>, seen: seq<Seen>, later: seq<Seen>, msHere: nat, ownerHere: bool)
    ensures var (r, why) := Choose(k, seen);
      && (msHere < LOOK_MS ==> MoveFrom(k, r, seen, msHere, ownerHere).0 == -1)
      && (why == Preferred_ ==> MoveFrom(k, r, later, msHere, ownerHere).0 == -1)
  {
  }

  // ---- the cheap test is exact ----

  /** A network without a name is never in any scan: it counts as unusable. */
  function Named(k: seq<Known>): (r: seq<Known>)
    ensures |r| == |k|
    ensures forall i :: 0 <= i < |k| ==> r[i] == k[i].(usable := k[i].usable && k[i].ssid.Some?)
  {
    seq(|k|, i requires 0 <= i < |k| => k[i].(usable := k[i].usable && k[i].ssid.Some?))
  }

  /** a and b remember the same about where the board is used. */
  ghost predicate SameMemory(a: seq<Known>, b: seq<Known>) {
    |a| == |b| && forall i :: 0 <= i < |a| ==>
      a[i].used == b[i].used && a[i].anchor == b[i].anchor && a[i].net == b[i].net
  }

  lemma {:induction false} MemoryPrefers(a: seq<Known>, b: seq<Known>, n: nat)
    requires SameMemory(a, b) && n <= |a|
    ensures PreferredUpTo(a, n) == PreferredUpTo(b, n)
  {
    if n > 0 { MemoryPrefers(a, b, n - 1); }
  }

  lemma MemoryUses(a: seq<Known>, b: seq<Known>, cur: nat)
    requires SameMemory(a, b) && cur < |a|
    ensures UsedHere(a, cur) == UsedHere(b, cur)
  {
  }

  lemma SeenIsNamed(k: seq<Known>, i: nat, seen: seq<Seen>)
    requires i < |k| && Strength(k[i].ssid, seen) > UNSEEN
    ensures k[i].ssid.Some?
  {
  }

  /** Skipping a scan never misses a move: whatever a scan shows, a move needs NeedsLook. */
  lemma NoMoveMissed(k: seq<Known>, cur: int, seen: seq<Seen>, msHere: nat)
    ensures MoveFrom(k, cur, seen, msHere, false).0 >= 0 ==> NeedsLook(Named(k), cur, msHere)
  {
    var m := Named(k);
    MemoryPrefers(k, m, |k|);
    var (to, why) := MoveFrom(k, cur, seen, msHere, false);
    if to >= 0 {
      MemoryUses(k, m, cur);
      if why == ComingHome {
        HomeSpec(k, seen);
        SeenIsNamed(k, to, seen);
        assert HomeOk(m, Preferred(k))[to];
      } else {
        BestIsStrongest(k, LookOk(k, cur), seen);
        SeenIsNamed(k, to, seen);
        assert LookOk(m, cur)[to];
      }
    }
  }

  /** A scan is never pointless: when NeedsLook says so, one that shows a single network moves. */
  lemma SomeScanMoves(k: seq<Known>, cur: int, msHere: nat) returns (seen: seq<Seen>)
    requires NeedsLook(Named(k), cur, msHere)
    ensures MoveFrom(k, cur, seen, msHere, false).0 >= 0
  {
    var m := Named(k);
    var p := Preferred(m);
    MemoryPrefers(k, m, |k|);
    MemoryUses(k, m, cur);
    if p >= 0 && !SameNet(m, cur, p) && AnyOk(HomeOk(m, p)) {
      var i: nat :| i < |m| && HomeOk(m, p)[i];
      seen := [Seen(k[i].ssid, 0)];
      assert HomeOk(k, p)[i];
      HomeScan(k, i);
    } else {
      var i: nat :| i < |m| && LookOk(m, cur)[i];
      seen := [Seen(k[i].ssid, 0)];
      assert LookOk(k, cur)[i];
      LookScan(k, cur, i);
    }
  }

  /** A scan of one network of the preferred class finds home. */
  lemma HomeScan(k: seq<Known>, i: nat)
    requires i < |k| && k[i].ssid.Some? && Preferred(k) >= 0 && HomeOk(k, Preferred(k))[i]
    ensures Home(k, [Seen(k[i].ssid, 0)]) >= 0
  {
    Alone(k[i].ssid, 0);
    HomeSpec(k, [Seen(k[i].ssid, 0)]);
  }

  lemma LookScan(k: seq<Known>, cur: nat, i: nat)
    requires cur < |k| && i < |k| && k[i].ssid.Some? && LookOk(k, cur)[i]
    ensures Best(Scores(k, LookOk(k, cur), [Seen(k[i].ssid, 0)])) >= 0
  {
    Alone(k[i].ssid, 0);
    BestIsStrongest(k, LookOk(k, cur), [Seen(k[i].ssid, 0)]);
  }

  /** The cheap test is exact: it is true if and only if some scan would make the board move. */
  lemma NeedsLookIsExact(k: seq<Known>, cur: int, msHere: nat)
    ensures NeedsLook(Named(k), cur, msHere) <==> exists seen :: MoveFrom(k, cur, seen, msHere, false).0 >= 0
    ensures (forall i :: 0 <= i < |k| ==> k[i].ssid.Some?) ==> Named(k) == k
  {
    if NeedsLook(Named(k), cur, msHere) {
      var seen := SomeScanMoves(k, cur, msHere);
    }
    if seen :| MoveFrom(k, cur, seen, msHere, false).0 >= 0 {
      NoMoveMissed(k, cur, seen, msHere);
    }
  }

  // ---- moving stops ----

  /** Leaving cur to look for its people, the caller marks it tried. */
  function MarkTried(k: seq<Known>, cur: nat): seq<Known>
    requires cur < |k|
  {
    k[cur := k[cur].(tried := true)]
  }

  /** Usable, refused and names may have changed; what is remembered and marked has not. */
  ghost predicate SameMarks(a: seq<Known>, b: seq<Known>) {
    SameMemory(a, b) && forall i :: 0 <= i < |a| ==> b[i].tried == a[i].tried
  }

  function Left(k: seq<Known>, cur: nat, why: Why): seq<Known>
    requires cur < |k|
  {
    if why == Looking then MarkTried(k, cur) else k
  }

  /** One move: decided on one scan, which makes the board leave; then a fresh scan, seen2, on
      which it chooses what to join. k1 is what it knows then, k2 what it knows later on. */
  datatype Move = Move(seen: seq<Seen>, ms: nat, owner: bool, k1: seq<Known>, seen2: seq<Seen>)

  function Reason(k: seq<Known>, cur: int, m: Move): Why { MoveFrom(k, cur, m.seen, m.ms, m.owner).1 }

  ghost predicate Moves(k: seq<Known>, cur: nat, m: Move, k2: seq<Known>, cur2: nat) {
    && cur < |k| && MoveFrom(k, cur, m.seen, m.ms, m.owner).0 >= 0
    && SameMarks(Left(k, cur, Reason(k, cur, m)), m.k1) && SameMarks(m.k1, k2)
    && Choose(m.k1, m.seen2).0 == cur2
  }

  /** What is worth leaving for is there when the board chooses: home; or, when the network it
      left is marked and nobody uses it, something not tried yet. */
  ghost predicate StillThere(k: seq<Known>, cur: nat, m: Move)
    requires cur < |k| == |m.k1|
  {
    HomeInReach(m.k1, m.seen2) || (m.k1[cur].tried && !UsedHere(k, cur) && !NoneInRange(m.k1, TierOk(m.k1, 0), m.seen2))
  }

  /** Where a move should land: from a network nobody uses on an untried one, with the old one
      marked; or at home. */
  ghost predicate Landed(k: seq<Known>, cur: nat, k2: seq<Known>, cur2: nat) {
    && cur < |k| && cur2 < |k| && Carried(k, k2)
    && var p := Preferred(k);
    && (p >= 0 ==> !SameNet(k, cur, p))
    && ((k2[cur].tried && !k2[cur2].tried && !UsedHere(k, cur)) || (p >= 0 && SameNet(k, cur2, p)))
  }

  /** Whatever the second scan shows: no move starts at home, and marks are kept. */
  lemma MoveCarries(k: seq<Known>, cur: nat, m: Move, k2: seq<Known>, cur2: nat)
    requires Moves(k, cur, m, k2, cur2)
    ensures Carried(k, k2) && cur2 < |k| && Preferred(m.k1) == Preferred(k) && SameMemory(k, m.k1)
    ensures Preferred(k) >= 0 ==> !SameNet(k, cur, Preferred(k))
  {
    MarksCarry(k, cur, Reason(k, cur, m), m.k1, k2);
    MemoryPrefers(k, m.k1, |k|);
    NotAtHome(k, cur, m.seen, m.ms, m.owner);
  }

  lemma MarksCarry(k: seq<Known>, cur: nat, why: Why, k1: seq<Known>, k2: seq<Known>)
    requires cur < |k| && SameMarks(Left(k, cur, why), k1) && SameMarks(k1, k2)
    ensures Carried(k, k2) && SameMemory(k, k1)
  {
  }

  lemma NotAtHome(k: seq<Known>, cur: nat, seen: seq<Seen>, ms: nat, owner: bool)
    requires cur < |k| && MoveFrom(k, cur, seen, ms, owner).0 >= 0
    ensures Preferred(k) >= 0 ==> !SameNet(k, cur, Preferred(k))
  {
    var p := Preferred(k);
    if p >= 0 { SameNetSymmetric(k, cur, p); }
  }

  /** A move lands when what it left for is still there at the second scan. */
  lemma MoveLands(k: seq<Known>, cur: nat, m: Move, k2: seq<Known>, cur2: nat)
    requires Moves(k, cur, m, k2, cur2) && StillThere(k, cur, m)
    ensures Landed(k, cur, k2, cur2)
  {
    MoveCarries(k, cur, m, k2, cur2);
    HomeSpec(m.k1, m.seen2);
    BestIsStrongest(m.k1, TierOk(m.k1, 0), m.seen2);
    if HomeInReach(m.k1, m.seen2) { assert HomeOk(m.k1, Preferred(k))[cur2]; }
  }

  /** The condition holds whenever the network decided on stays in range, usable and not refused:
      a move that does not land has lost its target between the two scans. */
  lemma TargetKeepsIt(k: seq<Known>, cur: nat, m: Move, k2: seq<Known>, cur2: nat)
    requires Moves(k, cur, m, k2, cur2)
    requires var to := MoveFrom(k, cur, m.seen, m.ms, m.owner).0;
      to < 16 && m.k1[to].usable && !m.k1[to].refused
      && Strength(m.k1[to].ssid, m.seen2) >= if Reason(k, cur, m) == Looking then UNSEEN + 1 else WORKABLE
    ensures StillThere(k, cur, m)
  {
    MoveCarries(k, cur, m, k2, cur2);
    var to := MoveFrom(k, cur, m.seen, m.ms, m.owner).0;
    if Reason(k, cur, m) == Looking {
      BestIsStrongest(k, LookOk(k, cur), m.seen);
      assert TierOk(m.k1, 0)[to];
    } else {
      HomeSpec(k, m.seen);
      assert HomeOk(k, Preferred(k))[to];
      assert HomeOk(m.k1, Preferred(k))[to];
    }
  }

  /** Away from home, with no network refusing its password, the condition is exact. */
  lemma LandsExactly(k: seq<Known>, cur: nat, m: Move, k2: seq<Known>, cur2: nat)
    requires Moves(k, cur, m, k2, cur2) && forall i :: 0 <= i < |m.k1| ==> !m.k1[i].refused
    requires var p := Preferred(k);
      p >= 0 ==> forall i :: 0 <= i < |k| && SameNet(k, i, p) ==> Strength(m.k1[i].ssid, m.seen2) == UNSEEN
    ensures Landed(k, cur, k2, cur2) <==> StillThere(k, cur, m)
  {
    MoveCarries(k, cur, m, k2, cur2);
    var k1 := m.k1;
    ChooseSpec(k1, m.seen2);
    HomeSpec(k1, m.seen2);
    if StillThere(k, cur, m) {
      MoveLands(k, cur, m, k2, cur2);
    } else {
      BestIsStrongest(k1, TierOk(k1, 0), m.seen2);
      BestIsStrongest(k1, TierOk(k1, 1), m.seen2);
      assert k1[cur2].usable && Strength(k1[cur2].ssid, m.seen2) > UNSEEN;
      assert TierOk(k1, 1)[cur2];
    }
  }

  /** i is the strongest of those not tried in vain nor refusing their password, or, with none of
      these in range, of all usable ones. */
  ghost predicate BestTier(k: seq<Known>, seen: seq<Seen>, i: int) {
    || StrongestOf(k, TierOk(k, 0), seen, i)
    || (NoneInRange(k, TierOk(k, 0), seen) && StrongestOf(k, TierOk(k, 1), seen, i))
  }

  /** In general: a move lands if and only if home is in reach at the second scan, or the strongest
      of the best tier there belongs to home, or is untried after a marked network nobody uses. */
  lemma LandsInGeneral(k: seq<Known>, cur: nat, m: Move, k2: seq<Known>, cur2: nat)
    requires Moves(k, cur, m, k2, cur2)
    ensures Landed(k, cur, k2, cur2) <==>
      (|| HomeInReach(m.k1, m.seen2)
       || exists i: nat :: i < |k| && BestTier(m.k1, m.seen2, i) && LandsOn(k, cur, m, i))
  {
    MoveCarries(k, cur, m, k2, cur2);
    ChooseSpec(m.k1, m.seen2);
    HomeSpec(m.k1, m.seen2);
    if HomeInReach(m.k1, m.seen2) {
      MoveLands(k, cur, m, k2, cur2);
    } else {
      assert BestTier(m.k1, m.seen2, cur2);
      assert Landed(k, cur, k2, cur2) <==> LandsOn(k, cur, m, cur2);
      forall i: nat | i < |k| && BestTier(m.k1, m.seen2, i) ensures i == cur2 { OneBest(m.k1, m.seen2, i, cur2); }
    }
  }

  ghost predicate LandsOn(k: seq<Known>, cur: nat, m: Move, i: nat)
    requires cur < |k| == |m.k1| && i < |k|
  {
    (Preferred(k) >= 0 && SameNet(k, i, Preferred(k))) || (m.k1[cur].tried && !UsedHere(k, cur) && !m.k1[i].tried)
  }

  lemma OneBest(k: seq<Known>, seen: seq<Seen>, i: nat, j: nat)
    requires BestTier(k, seen, i) && BestTier(k, seen, j)
    ensures i == j
  {
  }

  /** ks and curs are the states of a run of moves, the m-th of which is ms[m]. */
  ghost predicate Journey(ks: seq<seq<Known>>, curs: seq<nat>, ms: seq<Move>) {
    && |ks| == |curs| == |ms| + 1
    && (forall m :: 0 <= m < |ks| ==> |ks[m]| == |ks[0]| && curs[m] < |ks[0]|)
    && forall m :: 0 <= m < |ms| ==> Hop(ks, curs, ms, m)
  }

  ghost predicate Hop(ks: seq<seq<Known>>, curs: seq<nat>, ms: seq<Move>, m: nat) {
    m < |ms| && m + 1 < |ks| == |curs| && Moves(ks[m], curs[m], ms[m], ks[m + 1], curs[m + 1])
  }

  /** Every move of the journey still finds what it left for. */
  ghost predicate Found(ks: seq<seq<Known>>, curs: seq<nat>, ms: seq<Move>) {
    forall m :: 0 <= m < |ms| ==> FoundAt(ks, curs, ms, m)
  }

  ghost predicate FoundAt(ks: seq<seq<Known>>, curs: seq<nat>, ms: seq<Move>, m: nat) {
    m < |ms| && m < |ks| && m < |curs| && curs[m] < |ks[m]| == |ms[m].k1| && StillThere(ks[m], curs[m], ms[m])
  }

  lemma HopLands(ks: seq<seq<Known>>, curs: seq<nat>, ms: seq<Move>, m: nat)
    requires Hop(ks, curs, ms, m) && FoundAt(ks, curs, ms, m)
    ensures Landed(ks[m], curs[m], ks[m + 1], curs[m + 1])
  {
    MoveLands(ks[m], curs[m], ms[m], ks[m + 1], curs[m + 1]);
  }

  /** b remembers what a does, and everything marked tried in a is marked in b. */
  ghost predicate Carried(a: seq<Known>, b: seq<Known>) {
    SameMemory(a, b) && forall x :: 0 <= x < |a| && a[x].tried ==> b[x].tried
  }

  lemma HopCarries(ks: seq<seq<Known>>, curs: seq<nat>, ms: seq<Move>, m: nat)
    requires Hop(ks, curs, ms, m)
    ensures Carried(ks[m], ks[m + 1])
    ensures Preferred(ks[m]) >= 0 && curs[m] < |ks[m]| ==> !SameNet(ks[m], curs[m], Preferred(ks[m]))
  {
    MoveCarries(ks[m], curs[m], ms[m], ks[m + 1], curs[m + 1]);
  }

  lemma StepCarries(ks: seq<seq<Known>>, curs: seq<nat>, ms: seq<Move>, m: nat)
    requires Journey(ks, curs, ms) && m < |ms|
    ensures Carried(ks[m], ks[m + 1])
    ensures Preferred(ks[m]) >= 0 && curs[m] < |ks[m]| ==> !SameNet(ks[m], curs[m], Preferred(ks[m]))
  {
    assert Hop(ks, curs, ms, m);
    HopCarries(ks, curs, ms, m);
  }

  lemma StepLands(ks: seq<seq<Known>>, curs: seq<nat>, ms: seq<Move>, m: nat)
    requires Journey(ks, curs, ms) && Found(ks, curs, ms) && m < |ms|
    ensures Landed(ks[m], curs[m], ks[m + 1], curs[m + 1])
  {
    assert Hop(ks, curs, ms, m) && FoundAt(ks, curs, ms, m);
    HopLands(ks, curs, ms, m);
  }

  lemma CarriedTwice(a: seq<Known>, b: seq<Known>, c: seq<Known>)
    requires Carried(a, b) && Carried(b, c)
    ensures Carried(a, c)
  {
  }

  /** The memory of where the board is used is one throughout, and what was left stays marked. */
  lemma {:induction false} JourneyKeeps(ks: seq<seq<Known>>, curs: seq<nat>, ms: seq<Move>, i: nat, j: nat)
    requires Journey(ks, curs, ms) && i <= j < |ks|
    ensures Carried(ks[i], ks[j])
    decreases j
  {
    if i < j {
      var m := j - 1;
      JourneyKeeps(ks, curs, ms, i, m);
      StepCarries(ks, curs, ms, m);
      CarriedTwice(ks[i], ks[m], ks[m + 1]);
    }
  }

  /** The preferred network's class is absorbing, whatever any scan shows: no move ever starts
      inside it. */
  lemma HomeIsAbsorbing(ks: seq<seq<Known>>, curs: seq<nat>, ms: seq<Move>, m: nat)
    requires Journey(ks, curs, ms) && m < |ks|
    requires var p := Preferred(ks[0]); p >= 0 && SameNet(ks[0], curs[m], p)
    ensures m == |ks| - 1
  {
    JourneyKeeps(ks, curs, ms, 0, m);
    MemoryPrefers(ks[0], ks[m], |ks[0]|);
    if m < |ks| - 1 { StepCarries(ks, curs, ms, m); }
  }

  /** Of the networks of a journey, each but the last is left unused and marked, or is the
      last stop before home; each but the first is untried or home. */
  lemma LandedFrom(ks: seq<seq<Known>>, curs: seq<nat>, ms: seq<Move>, m: nat)
    requires Journey(ks, curs, ms) && Found(ks, curs, ms) && m + 1 < |ks|
    ensures var p := Preferred(ks[0]);
      && (p >= 0 ==> !SameNet(ks[0], curs[m], p))
      && (|| (ks[m + 1][curs[m]].tried && !ks[m + 1][curs[m + 1]].tried)
          || (p >= 0 && SameNet(ks[0], curs[m + 1], p) && m + 2 == |ks|))
  {
    StepLands(ks, curs, ms, m);
    JourneyKeeps(ks, curs, ms, 0, m);
    MemoryPrefers(ks[0], ks[m], |ks[0]|);
    var p := Preferred(ks[0]);
    if p >= 0 && SameNet(ks[0], curs[m + 1], p) { HomeIsAbsorbing(ks, curs, ms, m + 1); }
  }

  /** No network is left or joined twice. */
  lemma NeverTwice(ks: seq<seq<Known>>, curs: seq<nat>, ms: seq<Move>, i: nat, j: nat)
    requires Journey(ks, curs, ms) && Found(ks, curs, ms) && i < j < |ks|
    ensures curs[i] != curs[j]
  {
    LandedFrom(ks, curs, ms, i);
    LandedFrom(ks, curs, ms, j - 1);
    JourneyKeeps(ks, curs, ms, i + 1, j);
  }

  lemma {:induction false} DistinctFit(s: seq<nat>, n: nat)
    requires forall i :: 0 <= i < |s| ==> s[i] < n
    requires forall i, j :: 0 <= i < j < |s| ==> s[i] != s[j]
    ensures |s| <= n
  {
    assert |s| > 0 ==> s[0] < n;
    if n > 0 {
      if i :| 0 <= i < |s| && s[i] == n - 1 {
        DistinctFit(s[..i] + s[i + 1..], n - 1);
      } else {
        DistinctFit(s, n - 1);
      }
    }
  }

  /** Moving stops: among n saved networks any run of moves each of which still finds what it left
      for is shorter than n, whatever else the scans show and however networks become usable or
      refused in between. */
  lemma MovingStops(ks: seq<seq<Known>>, curs: seq<nat>, ms: seq<Move>)
    requires Journey(ks, curs, ms) && Found(ks, curs, ms)
    ensures |ms| < |ks[0]|
  {
    forall i, j | 0 <= i < j < |curs| ensures curs[i] != curs[j] { NeverTwice(ks, curs, ms, i, j); }
    DistinctFit(curs, |ks[0]|);
  }

  /** Without that there is no bound: two networks, one of which drops out of range after each
      decision, make journeys of any length that always come back to the tried one. */
  lemma LookingCanRepeat(n: nat)
    ensures exists k: seq<Known>, m: Move ::
      && |k| == 2 && k[0].tried && Reason(k, 0, m) == Looking
      && Journey(seq(n + 1, _ => k), seq(n + 1, _ => 0), seq(n, _ => m))
  {
    var a, b := Some("a"), Some("b");
    var k := [Known(a, true, 0, 0, false, true, false), Known(b, true, 0, 0, false, false, false)];
    var m := Move([Seen(b, -50)], LOOK_MS, false, k, [Seen(a, -50)]);
    ComesBack(k, m);
    var ks, curs, ms := seq(n + 1, _ => k), seq<nat>(n + 1, _ => 0), seq(n, _ => m);
    forall j | 0 <= j < |ms| ensures Hop(ks, curs, ms, j) {
      assert ks[j] == k && ks[j + 1] == k && curs[j] == 0 && curs[j + 1] == 0 && ms[j] == m;
    }
    assert Journey(ks, curs, ms);
  }

  lemma ComesBack(k: seq<Known>, m: Move)
    requires var a, b := Some("a"), Some("b");
      && k == [Known(a, true, 0, 0, false, true, false), Known(b, true, 0, 0, false, false, false)]
      && m == Move([Seen(b, -50)], LOOK_MS, false, k, [Seen(a, -50)])
    ensures Moves(k, 0, m, k, 0) && Reason(k, 0, m) == Looking
  {
    var a, b := Some("a"), Some("b");
    var s1, s2 := m.seen, m.seen2;
    Alone(a, -50);
    Alone(b, -50);
    assert !Hit(a, s1[0]) && !Hit(b, s2[0]);
    assert Strength(a, s1) == UNSEEN && Strength(b, s2) == UNSEEN;
    assert forall i :: 0 <= i < |k| ==> !Counts(k[i]);
    PreferredIsPreferred(k, 2);
    assert k[..2] == k;
    BestIsStrongest(k, LookOk(k, 0), s1);
    assert LookOk(k, 0)[1] && !LookOk(k, 0)[0];
    assert MoveFrom(k, 0, s1, LOOK_MS, false) == (1, Looking);
    BestIsStrongest(k, TierOk(k, 0), s2);
    BestIsStrongest(k, TierOk(k, 1), s2);
    assert TierOk(k, 1)[0] && TierOk(k, 1)[1] && TierOk(k, 0)[1] && !TierOk(k, 0)[0];
    assert Choose(k, s2).0 == 0;
  }
}
