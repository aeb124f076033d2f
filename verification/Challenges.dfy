/** The live challenges of one paired computer: four slots whose times wrap. */
module Challenges {
  import opened Common
  import opened Clock32
  import opened Crypto

  const CHALS := 4
  const CHAL_MS := 30_000

  datatype Slot = Slot(live: bool, chal: Blob, at: nat)

  ghost predicate Shape(slots: seq<Slot>) {
    |slots| == CHALS && forall s :: 0 <= s < CHALS ==> slots[s].at < WRAP
  }

  /** What wiping the computer's entry leaves. */
  const UNUSED: seq<Slot> := [Slot(false, 0, 0), Slot(false, 0, 0), Slot(false, 0, 0), Slot(false, 0, 0)]

  predicate Old(slot: Slot, ms: nat)
    requires slot.at < WRAP && ms < WRAP
  {
    Since(ms, slot.at) > CHAL_MS
  }

  predicate Dead(slot: Slot, ms: nat)
    requires slot.at < WRAP && ms < WRAP
  {
    !slot.live || Old(slot, ms)
  }

  /** The oldest of the first k slots by signed differences; ties go to the lowest. */
  function Oldest(slots: seq<Slot>, k: nat): (r: nat)
    requires 0 < k <= |slots| && forall s :: 0 <= s < k ==> slots[s].at < WRAP
    ensures r < k
  {
    if k == 1 then 0
    else
      var r := Oldest(slots, k - 1);
      if Before(slots[k - 1].at, slots[r].at) then k - 1 else r
  }

  function Pick(slots: seq<Slot>, ms: nat): (r: nat)
    requires |slots| == CHALS && ms < WRAP && forall s :: 0 <= s < CHALS ==> slots[s].at < WRAP
    ensures r < CHALS
    ensures (exists s :: 0 <= s < CHALS && Dead(slots[s], ms)) ==>
              Dead(slots[r], ms) && forall s :: 0 <= s < r ==> !Dead(slots[s], ms)
  {
    var d := First(slots, (s: Slot) => s.at >= WRAP || Dead(s, ms));
    if d >= 0 then d else Oldest(slots, CHALS)
  }

  function Issue(slots: seq<Slot>, chal: Blob, ms: nat): (r: seq<Slot>)
    requires |slots| == CHALS && ms < WRAP && forall s :: 0 <= s < CHALS ==> slots[s].at < WRAP
    ensures Shape(r)
  {
    slots[Pick(slots, ms) := Slot(true, chal, ms)]
  }

  predicate Hit(slot: Slot, chal: Blob, ms: nat)
    requires slot.at < WRAP && ms < WRAP
  {
    slot.live && !Old(slot, ms) && slot.chal == chal
  }

  function Spent(slot: Slot): Slot { Slot(false, 0, slot.at) }

  /** Every slot that holds the challenge is used up. */
  function Take(slots: seq<Slot>, chal: Blob, ms: nat): (r: seq<Slot>)
    requires |slots| == CHALS && ms < WRAP && forall s :: 0 <= s < CHALS ==> slots[s].at < WRAP
    ensures Shape(r)
  {
    seq(CHALS, s requires 0 <= s < CHALS => if Hit(slots[s], chal, ms) then Spent(slots[s]) else slots[s])
  }

  ghost predicate Takes(slots: seq<Slot>, chal: Blob, ms: nat)
    requires Shape(slots) && ms < WRAP
  {
    exists s :: 0 <= s < CHALS && Hit(slots[s], chal, ms)
  }

  function Expire(slots: seq<Slot>, ms: nat): (r: seq<Slot>)
    requires |slots| == CHALS && ms < WRAP && forall s :: 0 <= s < CHALS ==> slots[s].at < WRAP
    ensures Shape(r)
  {
    seq(CHALS, s requires 0 <= s < CHALS =>
      if slots[s].live && Old(slots[s], ms) then Spent(slots[s]) else slots[s])
  }

  /** When the slots hold the wrapped forms of true times less than 2^31 ms apart, the slot
      picked by signed differences is truly the oldest. */
  lemma {:induction false} OldestIsOldest(slots: seq<Slot>, k: nat, t: nat -> nat)
    requires Shape(slots) && 0 < k <= CHALS
    requires forall s :: 0 <= s < CHALS ==> slots[s].at == Millis(t(s))
    requires forall r, s :: 0 <= r < CHALS && 0 <= s < CHALS ==> t(r) - t(s) < WRAP as int / 2
    ensures var o := Oldest(slots, k);
      && (forall s :: 0 <= s < k ==> t(o) <= t(s))
      && (forall s :: 0 <= s < o ==> t(o) < t(s))
  {
    if k > 1 {
      OldestIsOldest(slots, k - 1, t);
      var r := Oldest(slots, k - 1);
      BeforeIsOrder(t(k - 1), t(r));
    }
  }

  /** With equal times the tie goes to the lowest slot, which may hold the newest challenge:
      of six issued in the same millisecond the sixth replaces the fifth. */
  lemma SameTimeEvictsNewest()
    ensures var five := Issue(Issue(Issue(Issue(Issue(UNUSED, 1, 0), 2, 0), 3, 0), 4, 0), 5, 0);
      Takes(five, 5, 0) && !Takes(Issue(five, 6, 0), 5, 0)
  {
    var one := Issue(UNUSED, 1, 0);
    assert one == [Slot(true, 1, 0), Slot(false, 0, 0), Slot(false, 0, 0), Slot(false, 0, 0)];
    var two := Issue(one, 2, 0);
    assert two == [Slot(true, 1, 0), Slot(true, 2, 0), Slot(false, 0, 0), Slot(false, 0, 0)];
    assert Dead(two[2], 0) && Pick(two, 0) == 2;
    var three := Issue(two, 3, 0);
    assert three == [Slot(true, 1, 0), Slot(true, 2, 0), Slot(true, 3, 0), Slot(false, 0, 0)];
    var four := Issue(three, 4, 0);
    assert four == [Slot(true, 1, 0), Slot(true, 2, 0), Slot(true, 3, 0), Slot(true, 4, 0)];
    LowestOfEqual(four, 4);
    var five := Issue(four, 5, 0);
    assert five == [Slot(true, 5, 0), Slot(true, 2, 0), Slot(true, 3, 0), Slot(true, 4, 0)];
    assert Hit(five[0], 5, 0);
    LowestOfEqual(five, 4);
    assert Issue(five, 6, 0) == [Slot(true, 6, 0), Slot(true, 2, 0), Slot(true, 3, 0), Slot(true, 4, 0)];
  }

  lemma {:induction false} LowestOfEqual(slots: seq<Slot>, k: nat)
    requires Shape(slots) && 0 < k <= CHALS && forall s :: 0 <= s < CHALS ==> slots[s].at == 0
    ensures Oldest(slots, k) == 0
  {
    if k > 1 { LowestOfEqual(slots, k - 1); }
  }

  /** The slots as the board keeps them. */
  class Slots {
    const chal: array<Blob>
    const chalAt: array<nat>
    const chalLive: array<bool>

    ghost predicate Valid() reads this, chalAt {
      && chal != chalAt && chal.Length == chalAt.Length == chalLive.Length == CHALS
      && forall s :: 0 <= s < CHALS ==> chalAt[s] < WRAP
    }

    ghost function View(): (r: seq<Slot>)
      reads this, chal, chalAt, chalLive
      requires Valid()
      ensures Shape(r)
    {
      seq(CHALS, s requires 0 <= s < CHALS && Valid() reads this, chal, chalAt, chalLive =>
        Slot(chalLive[s], chal[s], chalAt[s]))
    }

    constructor ()
      ensures Valid() && View() == UNUSED && fresh(chal) && fresh(chalAt) && fresh(chalLive)
    {
      chal := new Blob[CHALS](_ => 0);
      chalAt := new nat[CHALS](_ => 0);
      chalLive := new bool[CHALS](_ => false);
    }

    method IssueChallenge(random: Blob, ms: nat) returns (out: Blob)
      requires Valid() && ms < WRAP
      modifies chal, chalAt, chalLive
      ensures Valid() && View() == Issue(old(View()), random, ms) && out == random
    {
      var s := 0;
      var k := 0;
      ghost var v := View();
      while k < CHALS
        invariant 0 <= s < CHALS && 0 <= k <= CHALS && View() == v
        invariant forall j :: 0 <= j < k ==> !Dead(v[j], ms)
        invariant s == if k == 0 then 0 else Oldest(v, k)
      {
        assert v[k] == Slot(chalLive[k], chal[k], chalAt[k]);
        if !chalLive[k] || Since(ms, chalAt[k]) > CHAL_MS {
          s := k;
          assert Dead(v[s], ms);
          break;
        }
        assert v[s] == Slot(chalLive[s], chal[s], chalAt[s]);
        if Before(chalAt[k], chalAt[s]) { s := k; }
        k := k + 1;
      }
      assert s == Pick(v, ms);
      chal[s] := random;
      chalAt[s] := ms;
      chalLive[s] := true;
      out := random;
    }

    method TakeChallenge(c: Blob, ms: nat) returns (found: bool)
      requires Valid() && ms < WRAP
      modifies chal, chalLive
      ensures Valid() && View() == Take(old(View()), c, ms)
      ensures found <==> Takes(old(View()), c, ms)
    {
      found := false;
      ghost var v := View();
      for s := 0 to CHALS
        invariant Valid() && |v| == CHALS
        invariant forall j :: s <= j < CHALS ==> View()[j] == v[j]
        invariant forall j :: 0 <= j < s ==> View()[j] == Take(v, c, ms)[j]
        invariant found <==> exists j :: 0 <= j < s && Hit(v[j], c, ms)
      {
        assert View()[s] == v[s];
        var hit := chalLive[s] && Since(ms, chalAt[s]) <= CHAL_MS && chal[s] == c;
        if hit {
          chalLive[s] := false;
          chal[s] := 0;
          found := true;
        }
      }
    }

    method ExpireOld(ms: nat)
      requires Valid() && ms < WRAP
      modifies chal, chalLive
      ensures Valid() && View() == Expire(old(View()), ms)
    {
      ghost var v := View();
      for s := 0 to CHALS
        invariant Valid() && |v| == CHALS
        invariant forall j :: s <= j < CHALS ==> View()[j] == v[j]
        invariant forall j :: 0 <= j < s ==> View()[j] == Expire(v, ms)[j]
      {
        assert View()[s] == v[s];
        if chalLive[s] && Since(ms, chalAt[s]) > CHAL_MS {
          chalLive[s] := false;
          chal[s] := 0;
        }
      }
    }
  }
}
