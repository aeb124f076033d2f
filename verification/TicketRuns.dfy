/** Viewer tickets across the board's clock and the app's: what a ticket names was announced
    before, and it stays good for a while. */
module TicketRuns {
  import opened Common
  import opened Clock32
  import opened Crypto
  import opened Challenges
  import opened Heartbeats
  import opened HeartbeatRuns
  import opened ChallengeRuns
  import TN = TicketNonces

  /** compOnline: the condition for a ticket, which then names pc.tn. */
  predicate Online(pc: Pc, ms: nat)
    requires ms < WRAP && pc.seenAt < WRAP
  {
    pc.seenAt != 0 && Since(ms, pc.seenAt) < ONLINE_MS
  }

  /** Online says the last good heartbeat is under a minute old modulo 2^32 ms, except that a
      heartbeat at the very millisecond where the clock reads 0 does not count. */
  lemma OnlineIs(s: Sys, id: Blob)
    requires s.c.Valid() && Good(s, id) && id in s.pcs
    ensures var b := s.traces[id].beat;
      Online(s.pcs[id], s.c.Ms()) <==>
        b.Some? && Millis(b.value.at - s.c.boot) != 0 && (s.c.now - b.value.at) % WRAP < ONLINE_MS
  {
    var b := s.traces[id].beat;
    if b.Some? { SinceIsAge(s.c.now - s.c.boot, b.value.at - s.c.boot); }
  }

  /** Within 2^32 ms of the heartbeat that is exact. */
  lemma OnlineIsExact(s: Sys, id: Blob)
    requires s.c.Valid() && Good(s, id) && id in s.pcs
    requires s.traces[id].beat.Some? && s.c.now - s.traces[id].beat.value.at < WRAP
    requires Millis(s.traces[id].beat.value.at - s.c.boot) != 0
    ensures Online(s.pcs[id], s.c.Ms()) <==> s.c.now < s.traces[id].beat.value.at + ONLINE_MS
  {
    var age: nat := s.c.now - s.traces[id].beat.value.at;
    assert age % WRAP == age;
    OnlineIs(s, id);
  }

  /** 2^32 ms after its last heartbeat a computer counts as online again. */
  lemma OnlineComesBack(pc: Pc, at: nat, now: nat)
    requires pc.seenAt == Millis(at) != 0 && at + ONLINE_MS <= now < at + WRAP
    ensures !Online(pc, Millis(now)) && Online(pc, Millis(at + WRAP))
  {
    SinceIsAge(now, at);
    SinceIsAge(at + WRAP, at);
  }

  // ---- where the nonce came from -------------------------------------------------------

  /** Event m is a good heartbeat of the computer, naming tn. */
  ghost predicate BeatAt(ss: seq<Sys>, ts: seq<nat>, evs: seq<Event>, m: nat, id: Blob, b: TN.Nonce) {
    && AcceptedAt(ss, ts, evs, m) && evs[m].Beaten? && evs[m].macOk
    && evs[m].id == id && evs[m].tn == b.tn && ts[m] == b.at
  }

  ghost predicate SignedAt(ts: seq<nat>, evs: seq<Event>, m: nat, id: Blob, chal: Blob, n: TN.Nonce) {
    m < |evs| && m < |ts| && evs[m] == Signed(id, chal, n.tn) && ts[m] == n.at
  }

  ghost predicate NewBeat(s: Sys, e: Event, id: Blob) {
    Accepts(s, e) && e.Beaten? && e.macOk && e.id == id
  }

  /** A heartbeat in a trace is the old one or the event's own. */
  lemma BeatGrows(s: Sys, e: Event, id: Blob)
    requires Shaped(s) && id in Do(s, e).traces
    ensures Do(s, e).traces[id].beat ==
      if NewBeat(s, e, id) then Some(TN.Nonce(e.tn, s.c.now))
      else if (e == Paired(id) || e.Restarted?) then None
      else TraceOf(s, id).beat
  {
  }

  lemma {:induction false} BeatCameFrom(ss: seq<Sys>, ts: seq<nat>, evs: seq<Event>, m: nat, id: Blob)
    requires IsRun(ss, ts, evs) && m < |ss| && id in ss[m].traces && ss[m].traces[id].beat.Some?
    ensures exists j: nat :: j < m && BeatAt(ss, ts, evs, j, id, ss[m].traces[id].beat.value)
    decreases m
  {
    if m > 0 {
      var n := m - 1;
      assert Link(ss, ts, evs, n);
      BeatGrows(At(ss, ts, n), evs[n], id);
      if NewBeat(At(ss, ts, n), evs[n], id) {
        assert BeatAt(ss, ts, evs, n, id, ss[m].traces[id].beat.value);
      } else {
        BeatCameFrom(ss, ts, evs, n, id);
      }
    }
  }

  /** What was signed for a computer was announced by its app, at that event. */
  lemma {:induction false} SignedCameFrom(ss: seq<Sys>, ts: seq<nat>, evs: seq<Event>, m: nat, id: Blob, chal: Blob, tn: Blob)
    requires IsRun(ss, ts, evs) && m < |ss| && id in ss[m].traces && (chal, tn) in ss[m].traces[id].signed
    ensures exists j: nat, i: nat :: j < m && i < |ss[m].traces[id].said| && ss[m].traces[id].said[i].tn == tn
                                     && SignedAt(ts, evs, j, id, chal, ss[m].traces[id].said[i])
    decreases m
  {
    if m > 0 {
      var n := m - 1;
      assert Link(ss, ts, evs, n);
      LinkGrows(ss, ts, evs, n, id);
      var a, b := TraceOf(ss[n], id), ss[m].traces[id];
      if (chal, tn) in a.signed {
        SignedCameFrom(ss, ts, evs, n, id, chal, tn);
        var j: nat, i: nat :| j < n && i < |a.said| && a.said[i].tn == tn && SignedAt(ts, evs, j, id, chal, a.said[i]);
        assert b.said[i] == a.said[i];
      } else {
        assert SignedAt(ts, evs, n, id, chal, b.said[|a.said|]);
      }
    }
  }

  lemma {:induction false} SaidStaysOn(ss: seq<Sys>, ts: seq<nat>, evs: seq<Event>, i: nat, j: nat, id: Blob)
    requires IsRun(ss, ts, evs) && i <= j < |ss| && id in ss[i].traces
    ensures id in ss[j].traces && ss[i].traces[id].said <= ss[j].traces[id].said
    decreases j
  {
    if i < j {
      SaidStaysOn(ss, ts, evs, i, j - 1, id);
      SaidLink(ss, ts, evs, j - 1, id);
    }
  }

  lemma SaidLink(ss: seq<Sys>, ts: seq<nat>, evs: seq<Event>, m: nat, id: Blob)
    requires Link(ss, ts, evs, m) && id in ss[m].traces
    ensures id in ss[m + 1].traces && ss[m].traces[id].said <= ss[m + 1].traces[id].said
  {
  }

  /** The story of a ticket's nonce: announced and signed at event a as the i-th of the app's
      nonces, and learned by the board from a later good heartbeat b, the last one. */
  ghost predicate Story(ss: seq<Sys>, ts: seq<nat>, evs: seq<Event>, m: nat, id: Blob, a: nat, b: nat, i: nat) {
    && a < b < m < |ss| && id in ss[m].traces && ss[m].traces[id].beat.Some? && i < |ss[m].traces[id].said|
    && var tr := ss[m].traces[id];
    && BeatAt(ss, ts, evs, b, id, tr.beat.value)
    && SignedAt(ts, evs, a, id, evs[b].chal, tr.said[i]) && tr.said[i].tn == tr.beat.value.tn
  }

  lemma BeatHasStory(ss: seq<Sys>, ts: seq<nat>, evs: seq<Event>, m: nat, id: Blob)
    requires IsRun(ss, ts, evs) && m < |ss| && id in ss[m].traces && ss[m].traces[id].beat.Some?
    ensures exists a: nat, b: nat, i: nat :: Story(ss, ts, evs, m, id, a, b, i)
  {
    BeatCameFrom(ss, ts, evs, m, id);
    var tr := ss[m].traces[id];
    var b: nat :| b < m && BeatAt(ss, ts, evs, b, id, tr.beat.value);
    assert Link(ss, ts, evs, b);
    var chal, tn := evs[b].chal, evs[b].tn;
    SignedCameFrom(ss, ts, evs, b, id, chal, tn);
    var tb := ss[b].traces[id];
    var a: nat, i: nat :| a < b && i < |tb.said| && tb.said[i].tn == tn && SignedAt(ts, evs, a, id, chal, tb.said[i]);
    SaidStaysOn(ss, ts, evs, b, m, id);
    assert tr.said[i] == tb.said[i];
    assert Story(ss, ts, evs, m, id, a, b, i);
  }

  /** Every ticket names a nonce its app announced before the board learned it; and the app
      accepts the ticket for 30 s less the heartbeat's delay, while fewer than eight nonces
      were announced after it. */
  lemma TicketStaysGood(ss: seq<Sys>, ts: seq<nat>, evs: seq<Event>, m: nat, id: Blob)
    requires IsRun(ss, ts, evs) && m < |ss| && id in ss[m].pcs && ss[m].pcs[id].seenAt < WRAP && ss[m].c.boot <= ss[m].c.now
    requires Online(ss[m].pcs[id], ss[m].c.Ms())
    requires id in ss[m].traces && ss[m].traces[id].beat.Some? ==> ss[m].c.now - ss[m].traces[id].beat.value.at < WRAP
    ensures exists a: nat, b: nat, i: nat ::
      && Story(ss, ts, evs, m, id, a, b, i) && ss[m].traces[id].said[i].tn == ss[m].pcs[id].tn
      && forall h: seq<TN.Nonce>, later: nat ::
           ss[m].traces[id].said <= h && |h| - i <= TN.KEPT && later + ts[b] <= ss[m].c.now + 30_000 + ts[a]
           ==> TN.IsLive(TN.Queue(h), ss[m].pcs[id].tn, later)
  {
    var s := ss[m];
    RunKeepsInv(ss, ts, evs, m);
    assert Good(s, id);
    OnlineIs(s, id);
    OnlineIsExact(s, id);
    BeatHasStory(ss, ts, evs, m, id);
    var a: nat, b: nat, i: nat :| Story(ss, ts, evs, m, id, a, b, i);
    var tr := s.traces[id];
    forall h: seq<TN.Nonce>, later: nat |
        tr.said <= h && |h| - i <= TN.KEPT && later + ts[b] <= s.c.now + 30_000 + ts[a]
      ensures TN.IsLive(TN.Queue(h), s.pcs[id].tn, later)
    {
      assert h[i] == tr.said[i];
      assert TN.Young(h[i], later);
      TN.LiveIsRecent(h, s.pcs[id].tn, later);
    }
  }

  /** The i-th of the nonces is the only one of that value. */
  ghost predicate OnlyOne(h: seq<TN.Nonce>, i: nat) {
    i < |h| && forall j :: 0 <= j < |h| && h[j].tn == h[i].tn ==> j == i
  }

  /** With nonces that are all different, a ticket is accepted exactly while fewer than eight were
      announced after its nonce, and that for under 90 s; so one that is given 2^32 ms or more
      after the last heartbeat never is. */
  lemma TicketGoodExactly(ss: seq<Sys>, ts: seq<nat>, evs: seq<Event>, m: nat, id: Blob)
    requires IsRun(ss, ts, evs) && m < |ss| && id in ss[m].pcs && ss[m].pcs[id].seenAt < WRAP && ss[m].c.boot <= ss[m].c.now
    requires Online(ss[m].pcs[id], ss[m].c.Ms())
    ensures exists a: nat, b: nat, i: nat :: Story(ss, ts, evs, m, id, a, b, i) && GoodExactly(ss[m], id, i)
  {
    var s := ss[m];
    RunKeepsInv(ss, ts, evs, m);
    assert Good(s, id);
    OnlineIs(s, id);
    BeatHasStory(ss, ts, evs, m, id);
    var a: nat, b: nat, i: nat :| Story(ss, ts, evs, m, id, a, b, i);
    SaidBeforeBeat(ss, ts, evs, m, id, a, b, i);
    GoodInState(s, id, i);
  }

  lemma GoodInState(s: Sys, id: Blob, i: nat)
    requires id in s.pcs && id in s.traces && i < |s.traces[id].said| && s.traces[id].beat.Some?
    requires s.traces[id].said[i].at <= s.traces[id].beat.value.at && s.traces[id].said[i].tn == s.pcs[id].tn
    ensures GoodExactly(s, id, i)
  {
    var n := s.traces[id].said[i];
    forall h: seq<TN.Nonce>, later: nat ensures GoodLater(s.traces[id].said, i, h, later) {
      if s.traces[id].said <= h && OnlyOne(h, i) {
        assert h[i] == n;
        OnlyOneLive(h, i, later);
      }
    }
  }

  ghost predicate GoodLater(said: seq<TN.Nonce>, i: nat, h: seq<TN.Nonce>, later: nat) {
    i < |said| && (said <= h && OnlyOne(h, i) ==>
      (TN.IsLive(TN.Queue(h), said[i].tn, later) <==> |h| - i <= 8 && later < said[i].at + 90_000))
  }

  lemma OnlyOneLive(h: seq<TN.Nonce>, i: nat, later: nat)
    requires OnlyOne(h, i)
    ensures TN.IsLive(TN.Queue(h), h[i].tn, later) <==> |h| - i <= 8 && later < h[i].at + 90_000
  {
    TN.LiveIsRecent(h, h[i].tn, later);
  }

  ghost predicate GoodExactly(s: Sys, id: Blob, i: nat) {
    && id in s.pcs && id in s.traces && i < |s.traces[id].said| && s.traces[id].beat.Some?
    && var said, n, b := s.traces[id].said, s.traces[id].said[i], s.traces[id].beat.value;
    && n.at <= b.at && n.tn == s.pcs[id].tn
    && (forall h: seq<TN.Nonce>, later: nat :: GoodLater(said, i, h, later))
    && (s.c.now >= b.at + WRAP ==> s.c.now >= n.at + 90_000)
  }

  lemma SaidBeforeBeat(ss: seq<Sys>, ts: seq<nat>, evs: seq<Event>, m: nat, id: Blob, a: nat, b: nat, i: nat)
    requires IsRun(ss, ts, evs) && Story(ss, ts, evs, m, id, a, b, i)
    ensures ss[m].traces[id].said[i].at <= ss[m].traces[id].beat.value.at
  {
    TimesGrow(ss, ts, evs, a, b);
  }

  lemma {:induction false} TimesGrow(ss: seq<Sys>, ts: seq<nat>, evs: seq<Event>, a: nat, b: nat)
    requires IsRun(ss, ts, evs) && a <= b < |evs|
    ensures ts[a] <= ts[b] && ss[b + 1].c.now == ts[b]
    decreases b
  {
    assert Link(ss, ts, evs, b);
    NowIs(Wait(ss[b], ts[b]), evs[b]);
    if a < b { TimesGrow(ss, ts, evs, a, b - 1); }
  }

  lemma NowIs(s: Sys, e: Event)
    requires Shaped(s)
    ensures Do(s, e).c.now == s.c.now
  {
  }

  // ---- a run in which a silent computer comes back --------------------------------------

  /** s is the state after some run of n events. */
  ghost predicate Reached(n: nat, s: Sys) {
    exists ss: seq<Sys>, ts: seq<nat>, evs: seq<Event> :: IsRun(ss, ts, evs) && |evs| == n && ss[n] == s
  }

  lemma Longer(n: nat, s: Sys, t: nat, e: Event)
    requires Reached(n, s) && Allowed(s, t, e)
    ensures Shaped(Wait(s, t)) && Inv(Wait(s, t)) && Reached(n + 1, Do(Wait(s, t), e))
  {
    var ss: seq<Sys>, ts: seq<nat>, evs: seq<Event> :| IsRun(ss, ts, evs) && |evs| == n && ss[n] == s;
    RunKeepsInv(ss, ts, evs, n);
    WaitKeepsInv(s, t);
    InvShapes(Wait(s, t));
    var s2 := Do(Wait(s, t), e);
    Appended(ss, ts, evs, t, e, s2);
    assert (ss + [s2])[n + 1] == s2;
  }

  lemma Appended(ss: seq<Sys>, ts: seq<nat>, evs: seq<Event>, t: nat, e: Event, s2: Sys)
    requires IsRun(ss, ts, evs) && Allowed(ss[|evs|], t, e) && Shaped(Wait(ss[|evs|], t)) && s2 == Do(Wait(ss[|evs|], t), e)
    ensures IsRun(ss + [s2], ts + [t], evs + [e])
  {
    var ss2, ts2, evs2 := ss + [s2], ts + [t], evs + [e];
    forall m | 0 <= m < |evs2| ensures Link(ss2, ts2, evs2, m) {
      if m < |evs| { SameLink(ss, ts, evs, ss2, ts2, evs2, m); }
    }
  }

  lemma SameLink(ss: seq<Sys>, ts: seq<nat>, evs: seq<Event>, ss2: seq<Sys>, ts2: seq<nat>, evs2: seq<Event>, m: nat)
    requires Link(ss, ts, evs, m) && m < |evs2| == |ts2| && m + 1 < |ss2|
    requires ss2[m] == ss[m] && ss2[m + 1] == ss[m + 1] && ts2[m] == ts[m] && evs2[m] == evs[m]
    ensures Link(ss2, ts2, evs2, m)
  {
  }

  /** Its computer sent one good heartbeat, in the first millisecond after the board's start. */
  ghost predicate BeatOnce(s: Sys, id: Blob, tn: Blob) {
    && s.c.boot == 0 && id in s.pcs && id in s.traces
    && s.pcs[id].tn == tn && s.pcs[id].seenAt == 1 && s.traces[id].beat == Some(TN.Nonce(tn, 1))
  }

  lemma BeatsOnce(id: Blob, chal: Blob, tn: Blob) returns (s: Sys)
    ensures Reached(4, s) && BeatOnce(s, id, tn) && s.c.called == 0 && s.c.now == 1
  {
    assert IsRun([START], [], []) && [START][0] == START;
    assert Reached(0, START);
    Longer(0, START, 1, Paired(id));
    var s1 := Do(Wait(START, 1), Paired(id));
    Longer(1, s1, 1, Asked(id, chal));
    var s2 := Do(Wait(s1, 1), Asked(id, chal));
    Longer(2, s2, 1, Signed(id, chal, tn));
    var s3 := Do(Wait(s2, 1), Signed(id, chal, tn));
    GivenNow(s1, id, chal);
    Longer(3, s3, 1, Beaten(id, chal, tn, true));
    s := Do(Wait(s3, 1), Beaten(id, chal, tn, true));
  }

  /** A challenge drawn into unused slots is there to take. */
  lemma GivenNow(s: Sys, id: Blob, chal: Blob)
    requires Shaped(Wait(s, 1)) && id in s.pcs && s.pcs[id].slots == UNUSED && s.c.boot == 0
    ensures var p := Do(Wait(s, 1), Asked(id, chal)).pcs[id]; Shape(p.slots) && Takes(p.slots, chal, Millis(1))
  {
    var slots := Issue(UNUSED, chal, Millis(1));
    var k := Pick(UNUSED, Millis(1));
    assert slots[k] == Slot(true, chal, Millis(1)) && Since(1, 1) == 0;
    assert Hit(slots[k], chal, Millis(1));
  }

  lemma StaysSilent(n: nat, s: Sys, id: Blob, tn: Blob, t: nat) returns (s2: Sys)
    requires Reached(n, s) && BeatOnce(s, id, tn) && s.c.now <= t <= s.c.called + GAP
    ensures Reached(n + 1, s2) && BeatOnce(s2, id, tn) && s2.c.now == t && s2.c.called == t
  {
    Longer(n, s, t, Ticked);
    s2 := Do(Wait(s, t), Ticked);
  }

  ghost predicate ComesBack(s: Sys, s2: Sys, id: Blob, tn: Blob) {
    && BeatOnce(s, id, tn) && BeatOnce(s2, id, tn) && s2.c.now == WRAP + 1
    && !Online(s.pcs[id], Millis(s.c.now)) && Online(s2.pcs[id], Millis(s2.c.now))
  }

  /** For every computer there is a run in which it is heard once, counts as offline for weeks, and
      2^32 ms later counts as online, with no heartbeat in between. */
  lemma SilentComesBack(id: Blob, chal: Blob, tn: Blob)
    ensures exists s: Sys, s2: Sys :: Reached(5, s) && Reached(7, s2) && ComesBack(s, s2, id, tn)
  {
    var s4 := BeatsOnce(id, chal, tn);
    var s5 := StaysSilent(4, s4, id, tn, GAP);
    var s6 := StaysSilent(5, s5, id, tn, 2 * GAP);
    var s7 := StaysSilent(6, s6, id, tn, WRAP + 1);
    SinceIsAge(GAP, 1);
    SinceIsAge(WRAP + 1, 1);
    assert ComesBack(s5, s7, id, tn);
  }
}
