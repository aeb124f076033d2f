/** Challenges and heartbeats over whole runs: what happens to the slots of one computer, told
    in true time, and the board that keeps up to four of them. */
module Heartbeats {
  import opened Common
  import opened Clock32
  import opened Crypto
  import opened Challenges
  import TN = TicketNonces

  const TICK_MS := 1_000

  /** compTick() is called at least this often: 2^31 ms less about a minute, nearly 25 days. */
  const GAP := 0x7FFF_0000

  /** True times: the last start, now, the last call of compTick() and its last sweep. */
  datatype Clock = Clock(boot: nat, now: nat, called: nat, swept: nat) {
    ghost predicate Valid() {
      boot <= swept <= called <= now <= called + GAP && called < swept + TICK_MS
    }

    /** millis() */
    function Ms(): (r: nat)
      requires boot <= now
      ensures r < WRAP
    {
      Millis(now - boot)
    }
  }

  datatype Stamp = Stamp(chal: Blob, at: nat)

  /** What happened to one computer: the challenges it was given and those taken from it, the
      first challenge issued since its entry was last wiped, which challenge each slot holds,
      its last good heartbeat, the nonces its app announced and the heartbeats the app signed. */
  datatype Trace = Trace(issued: seq<Stamp>, taken: seq<Stamp>, from: nat, held: seq<int>,
                         beat: Option<TN.Nonce>, said: seq<TN.Nonce>, signed: set<(Blob, Blob)>)

  const NO_TRACE := Trace([], [], 0, [-1, -1, -1, -1], None, [], {})

  ghost predicate WasTaken(tr: Trace, chal: Blob) {
    exists j :: 0 <= j < |tr.taken| && tr.taken[j].chal == chal
  }

  ghost predicate Backed(tr: Trace, x: Stamp) {
    exists k :: 0 <= k < |tr.issued| && tr.issued[k].chal == x.chal
                && tr.issued[k].at <= x.at <= tr.issued[k].at + CHAL_MS
  }

  /** Every challenge is issued once, taken at most once, and within its time. */
  ghost predicate Honest(tr: Trace, now: nat) {
    && tr.from <= |tr.issued|
    && (forall k :: 0 <= k < |tr.issued| ==> tr.issued[k].at <= now)
    && (forall j, k :: 0 <= j < k < |tr.issued| ==> tr.issued[j].chal != tr.issued[k].chal)
    && (forall j, k :: 0 <= j < k < |tr.taken| ==> tr.taken[j].chal != tr.taken[k].chal)
    && (forall j :: 0 <= j < |tr.taken| ==> Backed(tr, tr.taken[j]))
  }

  ghost predicate Holds(slot: Slot, tr: Trace, k: int, c: Clock) {
    && tr.from <= k < |tr.issued|
    && slot.chal == tr.issued[k].chal && !WasTaken(tr, slot.chal)
    && c.boot <= tr.issued[k].at && c.swept <= tr.issued[k].at + CHAL_MS
    && slot.at == Millis(tr.issued[k].at - c.boot)
  }

  ghost predicate HeldWell(slots: seq<Slot>, tr: Trace, c: Clock) {
    && Shape(slots) && |tr.held| == CHALS
    && (forall s :: 0 <= s < CHALS && slots[s].live ==> Holds(slots[s], tr, tr.held[s], c))
    && forall r, s :: 0 <= r < s < CHALS && slots[r].live && slots[s].live ==> tr.held[r] != tr.held[s]
  }

  /** The first challenge of its millisecond, since the entry was wiped. */
  ghost predicate Leads(tr: Trace, k: int) {
    0 <= k < |tr.issued| && forall j :: 0 <= tr.from <= j < k ==> tr.issued[j].at < tr.issued[k].at
  }

  /** Issued since the entry was wiped and first in its millisecond, not taken, not 30 s old, at
      most three issued after it. */
  ghost predicate Outstanding(tr: Trace, k: nat, now: nat) {
    && tr.from <= k < |tr.issued| <= k + CHALS && Leads(tr, k)
    && now <= tr.issued[k].at + CHAL_MS
    && !WasTaken(tr, tr.issued[k].chal)
  }

  ghost predicate IsHeld(slots: seq<Slot>, tr: Trace, k: nat) {
    exists s :: 0 <= s < |slots| && s < |tr.held| && slots[s].live && tr.held[s] == k
  }

  ghost predicate NoneLost(slots: seq<Slot>, tr: Trace, now: nat) {
    forall k: nat :: Outstanding(tr, k, now) ==> IsHeld(slots, tr, k)
  }

  ghost predicate SlotsInv(slots: seq<Slot>, tr: Trace, c: Clock) {
    c.Valid() && Honest(tr, c.now) && HeldWell(slots, tr, c) && NoneLost(slots, tr, c.now)
  }

  /** The wrapped age of a live slot is its true age. */
  lemma AgeIsTrue(slots: seq<Slot>, tr: Trace, c: Clock, s: nat)
    requires c.Valid() && Honest(tr, c.now) && HeldWell(slots, tr, c) && s < CHALS && slots[s].live
    ensures Since(c.Ms(), slots[s].at) == c.now - tr.issued[tr.held[s]].at < WRAP / 2
  {
    assert Holds(slots[s], tr, tr.held[s], c);
    SinceIsAge(c.now - c.boot, tr.issued[tr.held[s]].at - c.boot);
  }

  // ---- issuing -------------------------------------------------------------------------

  ghost function Issued(slots: seq<Slot>, tr: Trace, chal: Blob, c: Clock): Trace
    requires c.boot <= c.now && Shape(slots) && |tr.held| == CHALS
  {
    tr.(issued := tr.issued + [Stamp(chal, c.now)], held := tr.held[Pick(slots, c.Ms()) := |tr.issued|])
  }

  ghost predicate Unissued(tr: Trace, chal: Blob) {
    forall k :: 0 <= k < |tr.issued| ==> tr.issued[k].chal != chal
  }

  lemma BackedStays(tr: Trace, tr2: Trace, x: Stamp)
    requires Backed(tr, x) && tr.issued <= tr2.issued
    ensures Backed(tr2, x)
  {
    var k :| 0 <= k < |tr.issued| && tr.issued[k].chal == x.chal
             && tr.issued[k].at <= x.at <= tr.issued[k].at + CHAL_MS;
    assert tr2.issued[k] == tr.issued[k];
  }

  lemma IssueHonest(slots: seq<Slot>, tr: Trace, chal: Blob, c: Clock)
    requires SlotsInv(slots, tr, c) && Unissued(tr, chal)
    ensures Honest(Issued(slots, tr, chal, c), c.now)
    ensures !WasTaken(tr, chal)
  {
    var t2 := Issued(slots, tr, chal, c);
    forall j | 0 <= j < |t2.taken| ensures Backed(t2, t2.taken[j]) { BackedStays(tr, t2, tr.taken[j]); }
  }

  lemma IssueHeldWell(slots: seq<Slot>, tr: Trace, chal: Blob, c: Clock)
    requires SlotsInv(slots, tr, c) && Unissued(tr, chal)
    ensures HeldWell(Issue(slots, chal, c.Ms()), Issued(slots, tr, chal, c), c)
  {
    IssueHonest(slots, tr, chal, c);
    var p, s2, t2 := Pick(slots, c.Ms()), Issue(slots, chal, c.Ms()), Issued(slots, tr, chal, c);
    assert Holds(s2[p], t2, |tr.issued|, c);
    forall s | 0 <= s < CHALS && s2[s].live ensures Holds(s2[s], t2, t2.held[s], c) {
      if s != p { assert Holds(slots[s], tr, tr.held[s], c); }
    }
    forall r, s | 0 <= r < s < CHALS && s2[r].live && s2[s].live ensures t2.held[r] != t2.held[s] {
      if r != p { assert Holds(slots[r], tr, tr.held[r], c); }
      if s != p { assert Holds(slots[s], tr, tr.held[s], c); }
    }
  }

  /** While every slot is alive the one picked is truly the oldest. */
  lemma PickIsOldest(slots: seq<Slot>, c: Clock, age: seq<nat>)
    requires c.Valid() && Shape(slots) && |age| == CHALS
    requires forall s :: 0 <= s < CHALS ==> !Dead(slots[s], c.Ms())
    requires forall s :: 0 <= s < CHALS ==> age[s] < WRAP / 2 && age[s] <= c.now - c.boot
                                            && slots[s].at == Millis(c.now - c.boot - age[s])
    ensures forall s :: 0 <= s < CHALS ==> age[s] <= age[Pick(slots, c.Ms())]
    ensures forall s :: 0 <= s < Pick(slots, c.Ms()) ==> age[s] < age[Pick(slots, c.Ms())]
  {
    assert First(slots, (s: Slot) => s.at >= WRAP || Dead(s, c.Ms())) < 0;
    var t := (s: nat) => if s < CHALS && age[s] <= c.now - c.boot then c.now - c.boot - age[s] else 0;
    OldestIsOldest(slots, CHALS, t);
    var p := Pick(slots, c.Ms());
    forall s | 0 <= s < CHALS ensures age[s] <= age[p] && (s < p ==> age[s] < age[p]) {
      assert t(p) <= t(s) && (s < p ==> t(p) < t(s));
    }
  }

  ghost predicate AllAlive(slots: seq<Slot>, c: Clock)
    requires Shape(slots) && c.boot <= c.now
  {
    forall s :: 0 <= s < CHALS ==> !Dead(slots[s], c.Ms())
  }

  /** The true ages of four live slots. */
  lemma Ages(slots: seq<Slot>, tr: Trace, c: Clock) returns (age: seq<nat>)
    requires SlotsInv(slots, tr, c) && AllAlive(slots, c)
    ensures |age| == CHALS
    ensures forall s :: 0 <= s < CHALS ==> Holds(slots[s], tr, tr.held[s], c) && age[s] == c.now - tr.issued[tr.held[s]].at
    ensures forall s :: 0 <= s < CHALS ==> age[s] < WRAP / 2 && age[s] <= c.now - c.boot
                                           && slots[s].at == Millis(c.now - c.boot - age[s])
  {
    forall s: nat | s < CHALS
      ensures Holds(slots[s], tr, tr.held[s], c) && c.now - tr.issued[tr.held[s]].at < WRAP / 2
    {
      assert !Dead(slots[s], c.Ms());
      AgeIsTrue(slots, tr, c, s);
    }
    age := seq(CHALS, s requires 0 <= s < CHALS => c.now - tr.issued[tr.held[s]].at);
  }

  /** Which good challenge an issue gives up, exactly: the oldest of four good ones, the lowest
      slot among equals. */
  lemma EvictsExactly(slots: seq<Slot>, tr: Trace, c: Clock, s: nat)
    requires SlotsInv(slots, tr, c) && s < CHALS && !Dead(slots[s], c.Ms())
    ensures Pick(slots, c.Ms()) == s <==>
      && AllAlive(slots, c)
      && forall r :: 0 <= r < CHALS && 0 <= tr.held[r] < |tr.issued| && 0 <= tr.held[s] < |tr.issued| ==>
           && tr.issued[tr.held[s]].at <= tr.issued[tr.held[r]].at
           && (r < s ==> tr.issued[tr.held[s]].at < tr.issued[tr.held[r]].at)
  {
    if AllAlive(slots, c) {
      var age := Ages(slots, tr, c);
      PickIsOldest(slots, c, age);
      var p := Pick(slots, c.Ms());
      assert Holds(slots[p], tr, tr.held[p], c) && Holds(slots[s], tr, tr.held[s], c);
      assert age[s] <= age[p];
    }
  }

  /** A slot given up while every slot was alive held a challenge older than the other three, if
      that challenge was the first of its millisecond. */
  lemma EvictedIsFourth(slots: seq<Slot>, tr: Trace, c: Clock)
    requires SlotsInv(slots, tr, c) && Leads(tr, tr.held[Pick(slots, c.Ms())])
    requires AllAlive(slots, c)
    ensures tr.held[Pick(slots, c.Ms())] + CHALS <= |tr.issued|
  {
    var held, p := tr.held, Pick(slots, c.Ms());
    var age := Ages(slots, tr, c);
    PickIsOldest(slots, c, age);
    forall s | 0 <= s < CHALS && s != p ensures held[p] < held[s] {
      assert age[s] <= age[p];
      assert held[s] != held[p];
    }
    Room(held, p, |tr.issued|);
  }

  /** Four distinct numbers below n: the least leaves room for the other three. */
  lemma Room(held: seq<int>, p: nat, n: nat)
    requires |held| == CHALS && p < CHALS
    requires forall s :: 0 <= s < CHALS ==> held[s] < n
    requires forall r, s :: 0 <= r < s < CHALS ==> held[r] != held[s]
    requires forall s :: 0 <= s < CHALS && s != p ==> held[p] < held[s]
    ensures held[p] + CHALS <= n
  {
    var a, b, d := if p == 0 then 1 else 0, if p <= 1 then 2 else 1, if p <= 2 then 3 else 2;
    assert held[a] != held[b] && held[b] != held[d] && held[a] != held[d];
  }

  lemma IssueLosesNone(slots: seq<Slot>, tr: Trace, chal: Blob, c: Clock)
    requires SlotsInv(slots, tr, c) && Unissued(tr, chal)
    ensures NoneLost(Issue(slots, chal, c.Ms()), Issued(slots, tr, chal, c), c.now)
  {
    var p, s2, t2 := Pick(slots, c.Ms()), Issue(slots, chal, c.Ms()), Issued(slots, tr, chal, c);
    forall k: nat | Outstanding(t2, k, c.now) ensures IsHeld(s2, t2, k) {
      if k == |tr.issued| {
        assert s2[p].live && t2.held[p] == k;
      } else {
        assert forall j :: 0 <= j <= k ==> t2.issued[j] == tr.issued[j];
        assert Outstanding(tr, k, c.now);
        var s :| 0 <= s < CHALS && slots[s].live && tr.held[s] == k;
        if s == p {
          AgeIsTrue(slots, tr, c, s);
          assert !Dead(slots[p], c.Ms());
          EvictedIsFourth(slots, tr, c);
          assert false;
        }
        assert s2[s].live && t2.held[s] == k;
      }
    }
  }

  lemma IssueKeeps(slots: seq<Slot>, tr: Trace, chal: Blob, c: Clock)
    requires SlotsInv(slots, tr, c) && Unissued(tr, chal)
    ensures SlotsInv(Issue(slots, chal, c.Ms()), Issued(slots, tr, chal, c), c)
  {
    IssueHonest(slots, tr, chal, c);
    IssueHeldWell(slots, tr, chal, c);
    IssueLosesNone(slots, tr, chal, c);
  }

  // ---- taking --------------------------------------------------------------------------

  ghost function Taken(slots: seq<Slot>, tr: Trace, chal: Blob, c: Clock): Trace
    requires c.boot <= c.now && Shape(slots)
  {
    if Takes(slots, chal, c.Ms()) then tr.(taken := tr.taken + [Stamp(chal, c.now)]) else tr
  }

  lemma TakeHonest(slots: seq<Slot>, tr: Trace, chal: Blob, c: Clock)
    requires SlotsInv(slots, tr, c)
    ensures Honest(Taken(slots, tr, chal, c), c.now)
    ensures Takes(slots, chal, c.Ms()) ==> Backed(tr, Stamp(chal, c.now)) && !WasTaken(tr, chal)
  {
    if Takes(slots, chal, c.Ms()) {
      var s: nat :| s < CHALS && Hit(slots[s], chal, c.Ms());
      AgeIsTrue(slots, tr, c, s);
      assert tr.issued[tr.held[s]].chal == chal;
      assert Backed(tr, Stamp(chal, c.now));
      var t2 := Taken(slots, tr, chal, c);
      forall j | 0 <= j < |t2.taken| ensures Backed(t2, t2.taken[j]) {
        if j < |tr.taken| { BackedStays(tr, t2, tr.taken[j]); } else { BackedStays(tr, t2, Stamp(chal, c.now)); }
      }
    }
  }

  /** Taken now, or before: what the longer list adds is the challenge just taken. */
  lemma WasTakenGrows(tr: Trace, t2: Trace, x: Stamp, chal: Blob)
    requires t2.taken == tr.taken + [x]
    ensures WasTaken(t2, chal) <==> WasTaken(tr, chal) || x.chal == chal
  {
    assert t2.taken[|tr.taken|] == x;
    forall j | 0 <= j < |tr.taken| ensures t2.taken[j] == tr.taken[j] {}
  }

  lemma TakeHeldWell(slots: seq<Slot>, tr: Trace, chal: Blob, c: Clock)
    requires SlotsInv(slots, tr, c)
    ensures HeldWell(Take(slots, chal, c.Ms()), Taken(slots, tr, chal, c), c)
    ensures NoneLost(Take(slots, chal, c.Ms()), Taken(slots, tr, chal, c), c.now)
  {
    var s2, t2 := Take(slots, chal, c.Ms()), Taken(slots, tr, chal, c);
    if Takes(slots, chal, c.Ms()) {
      var h: nat :| h < CHALS && Hit(slots[h], chal, c.Ms());
      forall s | 0 <= s < CHALS && s2[s].live ensures Holds(s2[s], t2, t2.held[s], c) {
        assert Holds(slots[s], tr, tr.held[s], c);
        assert Holds(slots[h], tr, tr.held[h], c);
        WasTakenGrows(tr, t2, Stamp(chal, c.now), slots[s].chal);
      }
      forall k: nat | Outstanding(t2, k, c.now) ensures IsHeld(s2, t2, k) {
        WasTakenGrows(tr, t2, Stamp(chal, c.now), tr.issued[k].chal);
        assert Outstanding(tr, k, c.now);
        var s :| 0 <= s < CHALS && slots[s].live && tr.held[s] == k;
        assert s2[s].live;
      }
    } else {
      assert s2 == slots;
    }
  }

  lemma TakeKeeps(slots: seq<Slot>, tr: Trace, chal: Blob, c: Clock)
    requires SlotsInv(slots, tr, c)
    ensures SlotsInv(Take(slots, chal, c.Ms()), Taken(slots, tr, chal, c), c)
  {
    TakeHonest(slots, tr, chal, c);
    TakeHeldWell(slots, tr, chal, c);
  }

  // ---- sweeping, wiping, waiting -------------------------------------------------------

  lemma ExpireKeeps(slots: seq<Slot>, tr: Trace, c: Clock)
    requires SlotsInv(slots, tr, c)
    ensures SlotsInv(Expire(slots, c.Ms()), tr, c.(called := c.now, swept := c.now))
  {
    var s2, c2 := Expire(slots, c.Ms()), c.(called := c.now, swept := c.now);
    forall s: nat | s < CHALS && s2[s].live ensures Holds(s2[s], tr, tr.held[s], c2) {
      assert Holds(slots[s], tr, tr.held[s], c);
      AgeIsTrue(slots, tr, c, s);
    }
    forall k: nat | Outstanding(tr, k, c.now) ensures IsHeld(s2, tr, k) {
      var s: nat :| s < CHALS && slots[s].live && tr.held[s] == k;
      AgeIsTrue(slots, tr, c, s);
      assert s2[s].live;
    }
  }

  ghost function Wiped(tr: Trace): Trace {
    tr.(from := |tr.issued|, held := [-1, -1, -1, -1], beat := None)
  }

  lemma WipeKeeps(tr: Trace, now: nat, c: Clock)
    requires Honest(tr, now) && c.Valid() && now <= c.now
    ensures SlotsInv(UNUSED, Wiped(tr), c)
  {
  }

  lemma WaitKeeps(slots: seq<Slot>, tr: Trace, c: Clock, c2: Clock)
    requires SlotsInv(slots, tr, c) && c2.Valid()
    requires c2.boot == c.boot && c2.swept == c.swept && c2.now >= c.now
    ensures SlotsInv(slots, tr, c2)
  {
    forall s | 0 <= s < CHALS && slots[s].live ensures Holds(slots[s], tr, tr.held[s], c2) {
      assert Holds(slots[s], tr, tr.held[s], c);
    }
    forall k: nat | Outstanding(tr, k, c2.now) ensures IsHeld(slots, tr, k) {
      assert Outstanding(tr, k, c.now);
    }
  }

  /** What is outstanding is accepted. */
  lemma OutstandingIsTaken(slots: seq<Slot>, tr: Trace, c: Clock, k: nat)
    requires SlotsInv(slots, tr, c) && Outstanding(tr, k, c.now)
    ensures Takes(slots, tr.issued[k].chal, c.Ms())
  {
    assert IsHeld(slots, tr, k);
    var s: nat :| s < |slots| && s < |tr.held| && slots[s].live && tr.held[s] == k;
    AgeIsTrue(slots, tr, c, s);
    assert Holds(slots[s], tr, k, c);
    assert Hit(slots[s], tr.issued[k].chal, c.Ms());
  }
}
