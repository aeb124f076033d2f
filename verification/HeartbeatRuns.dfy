/** The board with all its paired computers, over every run: challenges, heartbeats, tickets. */
module HeartbeatRuns {
  import opened Common
  import opened Clock32
  import opened Crypto
  import opened Challenges
  import opened Heartbeats
  import TN = TicketNonces

  const ONLINE_MS := 60_000

  /** The runtime part of a paired computer's entry. */
  datatype Pc = Pc(slots: seq<Slot>, tn: Blob, seenAt: nat)

  const NEW_PC := Pc(UNUSED, 0, 0)

  /** The board, with the trace of every computer it ever knew and whose each challenge was. */
  datatype Sys = Sys(c: Clock, last: nat, pcs: map<Blob, Pc>, traces: map<Blob, Trace>, owner: map<Blob, Blob>)

  const START := Sys(Clock(0, 0, 0, 0), 0, map[], map[], map[])

  datatype Event =
    | Asked(id: Blob, chal: Blob)                            // compChal, with what was drawn
    | Signed(id: Blob, chal: Blob, tn: Blob)                 // the app announces tn and signs
    | Beaten(id: Blob, chal: Blob, tn: Blob, macOk: bool)    // compBeat
    | Proved(id: Blob, chal: Blob)                           // any other use of a challenge
    | Ticked                                                 // compTick
    | Paired(id: Blob)
    | Removed(id: Blob)
    | Restarted

  ghost predicate Shaped(s: Sys) {
    && s.c.boot <= s.c.now && s.last < WRAP && s.pcs.Keys <= s.traces.Keys
    && (forall id :: id in s.pcs ==> Shape(s.pcs[id].slots) && s.pcs[id].seenAt < WRAP)
    && (forall id :: id in s.traces ==> |s.traces[id].held| == CHALS)
  }

  ghost function Wait(s: Sys, now: nat): Sys { s.(c := s.c.(now := now)) }

  /** A challenge is drawn fresh; a proof that checks was made by the computer's own app; the
      loop calls compTick() often enough. */
  ghost predicate Allowed(s: Sys, now: nat, e: Event) {
    && s.c.now <= now <= s.c.called + GAP
    && (e.Asked? ==> e.chal !in s.owner)
    && (e.Beaten? && e.macOk ==> e.id in s.traces && (e.chal, e.tn) in s.traces[e.id].signed)
  }

  ghost function Put(s: Sys, id: Blob, pc: Pc, tr: Trace): Sys {
    s.(pcs := s.pcs[id := pc], traces := s.traces[id := tr])
  }

  ghost function Use(s: Sys, id: Blob, chal: Blob): Sys
    requires Shaped(s)
  {
    if id !in s.pcs then s
    else
      var pc := s.pcs[id];
      Put(s, id, pc.(slots := Take(pc.slots, chal, s.c.Ms())), Taken(pc.slots, s.traces[id], chal, s.c))
  }

  ghost function Seen(s: Sys, id: Blob, tn: Blob): Sys
    requires Shaped(s) && id in s.pcs
  {
    Put(s, id, s.pcs[id].(tn := tn, seenAt := s.c.Ms()), s.traces[id].(beat := Some(TN.Nonce(tn, s.c.now))))
  }

  ghost function Tick(s: Sys): Sys
    requires Shaped(s)
  {
    if Since(s.c.Ms(), s.last) < TICK_MS then s.(c := s.c.(called := s.c.now))
    else s.(c := s.c.(called := s.c.now, swept := s.c.now), last := s.c.Ms(),
            pcs := map id | id in s.pcs :: s.pcs[id].(slots := Expire(s.pcs[id].slots, s.c.Ms())))
  }

  ghost function Restart(s: Sys): Sys {
    s.(c := Clock(s.c.now, s.c.now, s.c.now, s.c.now), last := 0,
       pcs := map id | id in s.pcs :: NEW_PC,
       traces := map id | id in s.traces :: Wiped(s.traces[id]))
  }

  ghost function TraceOf(s: Sys, id: Blob): Trace { if id in s.traces then s.traces[id] else NO_TRACE }

  ghost function Do(s: Sys, e: Event): Sys
    requires Shaped(s)
  {
    match e
    case Asked(id, chal) =>
      if id !in s.pcs then s
      else
        var pc := s.pcs[id];
        Put(s, id, pc.(slots := Issue(pc.slots, chal, s.c.Ms())), Issued(pc.slots, s.traces[id], chal, s.c))
          .(owner := s.owner[chal := id])
    case Signed(id, chal, tn) =>
      s.(traces := s.traces[id := Says(TraceOf(s, id), chal, tn, s.c.now)])
    case Beaten(id, chal, tn, macOk) =>
      if macOk && id in s.pcs && Takes(s.pcs[id].slots, chal, s.c.Ms()) then Seen(Use(s, id, chal), id, tn)
      else Use(s, id, chal)
    case Proved(id, chal) => Use(s, id, chal)
    case Ticked => Tick(s)
    case Paired(id) => Put(s, id, NEW_PC, Wiped(TraceOf(s, id)))
    case Removed(id) => if id in s.pcs then s.(pcs := s.pcs - {id}) else s
    case Restarted => Restart(s)
  }

  // ---- the invariant -------------------------------------------------------------------

  ghost predicate Said(tr: Trace, tn: Blob, at: nat) {
    exists i :: 0 <= i < |tr.said| && tr.said[i].tn == tn && tr.said[i].at <= at
  }

  ghost predicate AppInv(tr: Trace, now: nat) {
    && (forall i :: 0 <= i < |tr.said| ==> tr.said[i].at <= now)
    && forall p :: p in tr.signed ==> Said(tr, p.1, now)
  }

  /** The entry names the nonce and the wrapped time of the last good heartbeat. */
  ghost predicate BeatInv(pc: Pc, tr: Trace, c: Clock) {
    && (tr.beat == None ==> pc.seenAt == 0)
    && (tr.beat.Some? ==>
          && c.boot <= tr.beat.value.at <= c.now && pc.tn == tr.beat.value.tn
          && pc.seenAt == Millis(tr.beat.value.at - c.boot) && Said(tr, pc.tn, tr.beat.value.at))
  }

  ghost predicate TraceInv(id: Blob, tr: Trace, now: nat, owner: map<Blob, Blob>) {
    && Honest(tr, now) && |tr.held| == CHALS && AppInv(tr, now)
    && forall k :: 0 <= k < |tr.issued| ==> tr.issued[k].chal in owner && owner[tr.issued[k].chal] == id
  }

  ghost predicate PcInv(pc: Pc, tr: Trace, c: Clock) {
    SlotsInv(pc.slots, tr, c) && BeatInv(pc, tr, c)
  }

  /** What holds of one computer. */
  ghost predicate Good(s: Sys, id: Blob) {
    && (id in s.traces ==> TraceInv(id, s.traces[id], s.c.now, s.owner))
    && (id in s.pcs ==> id in s.traces && PcInv(s.pcs[id], s.traces[id], s.c))
  }

  ghost predicate Inv(s: Sys) {
    && s.c.Valid() && s.last == Millis(s.c.swept - s.c.boot)
    && forall id :: Good(s, id)
  }

  lemma InvShapes(s: Sys)
    requires Inv(s)
    ensures Shaped(s)
  {
    forall id | id in s.pcs ensures id in s.traces && Shape(s.pcs[id].slots) && s.pcs[id].seenAt < WRAP {
      assert Good(s, id);
    }
    forall id | id in s.traces ensures |s.traces[id].held| == CHALS { assert Good(s, id); }
  }

  lemma SaidStays(a: Trace, b: Trace, tn: Blob, at: nat, later: nat)
    requires Said(a, tn, at) && a.said <= b.said && at <= later
    ensures Said(b, tn, later)
  {
  }

  lemma AppWaits(a: Trace, b: Trace, now: nat, later: nat)
    requires AppInv(a, now) && b.said == a.said && b.signed == a.signed && now <= later
    ensures AppInv(b, later)
  {
  }

  lemma BeatWaits(pc: Pc, pc2: Pc, a: Trace, b: Trace, c: Clock, c2: Clock)
    requires BeatInv(pc, a, c) && c2.boot == c.boot && c.now <= c2.now
    requires pc2.tn == pc.tn && pc2.seenAt == pc.seenAt && b.beat == a.beat && a.said <= b.said
    ensures BeatInv(pc2, b, c2)
  {
  }

  lemma TraceWaits(id: Blob, tr: Trace, now: nat, later: nat, owner: map<Blob, Blob>, owner2: map<Blob, Blob>)
    requires TraceInv(id, tr, now, owner) && now <= later
    requires forall x :: x in owner ==> x in owner2 && owner2[x] == owner[x]
    ensures TraceInv(id, tr, later, owner2)
  {
    AppWaits(tr, tr, now, later);
  }

  lemma WaitKeepsInv(s: Sys, now: nat)
    requires Inv(s) && s.c.now <= now <= s.c.called + GAP
    ensures Inv(Wait(s, now))
  {
    forall id ensures Good(Wait(s, now), id) { WaitKeepsOne(s, now, id); }
  }

  lemma WaitKeepsOne(s: Sys, now: nat, id: Blob)
    requires s.c.Valid() && Good(s, id) && s.c.now <= now <= s.c.called + GAP
    ensures Good(Wait(s, now), id)
  {
    var c := Wait(s, now).c;
    if id in s.traces { TraceWaits(id, s.traces[id], s.c.now, now, s.owner, s.owner); }
    if id in s.pcs {
      WaitKeeps(s.pcs[id].slots, s.traces[id], s.c, c);
      BeatWaits(s.pcs[id], s.pcs[id], s.traces[id], s.traces[id], s.c, c);
    }
  }

  /** Changing one computer keeps the invariant when the new entry and trace have it. */
  lemma PutKeepsInv(s: Sys, id: Blob, pc: Pc, tr: Trace, owner: map<Blob, Blob>)
    requires Inv(s) && TraceInv(id, tr, s.c.now, owner) && PcInv(pc, tr, s.c)
    requires forall x :: x in s.owner ==> x in owner && owner[x] == s.owner[x]
    ensures Inv(Put(s, id, pc, tr).(owner := owner))
  {
    var w := Put(s, id, pc, tr).(owner := owner);
    forall i ensures Good(w, i) { if i != id { OthersStay(s, w, i); } }
  }

  lemma OthersStay(s: Sys, w: Sys, i: Blob)
    requires Good(s, i) && w.c == s.c && (i in w.pcs <==> i in s.pcs) && (i in w.traces <==> i in s.traces)
    requires (i in s.pcs ==> w.pcs[i] == s.pcs[i]) && (i in s.traces ==> w.traces[i] == s.traces[i])
    requires forall x :: x in s.owner ==> x in w.owner && w.owner[x] == s.owner[x]
    ensures Good(w, i)
  {
    if i in s.traces { TraceWaits(i, s.traces[i], s.c.now, s.c.now, s.owner, w.owner); }
  }

  lemma IssuedTrace(id: Blob, tr: Trace, tr2: Trace, chal: Blob, now: nat, owner: map<Blob, Blob>)
    requires TraceInv(id, tr, now, owner) && chal !in owner && Honest(tr2, now)
    requires tr2 == tr.(issued := tr.issued + [Stamp(chal, now)], held := tr2.held) && |tr2.held| == CHALS
    ensures TraceInv(id, tr2, now, owner[chal := id])
  {
    AppWaits(tr, tr2, now, now);
  }

  lemma AskedKeeps(s: Sys, id: Blob, chal: Blob)
    requires Inv(s) && Shaped(s) && chal !in s.owner
    ensures Inv(Do(s, Asked(id, chal)))
  {
    if id in s.pcs {
      var pc, tr := s.pcs[id], s.traces[id];
      assert Good(s, id);
      assert Unissued(tr, chal);
      IssueKeeps(pc.slots, tr, chal, s.c);
      var pc2, tr2 := pc.(slots := Issue(pc.slots, chal, s.c.Ms())), Issued(pc.slots, tr, chal, s.c);
      IssuedTrace(id, tr, tr2, chal, s.c.now, s.owner);
      BeatWaits(pc, pc2, tr, tr2, s.c, s.c);
      PutKeepsInv(s, id, pc2, tr2, s.owner[chal := id]);
    }
  }

  lemma UseKeeps(s: Sys, id: Blob, chal: Blob)
    requires Inv(s) && Shaped(s)
    ensures Inv(Use(s, id, chal))
  {
    if id in s.pcs {
      var pc, tr := s.pcs[id], s.traces[id];
      assert Good(s, id);
      TakeKeeps(pc.slots, tr, chal, s.c);
      var pc2, tr2 := pc.(slots := Take(pc.slots, chal, s.c.Ms())), Taken(pc.slots, tr, chal, s.c);
      AppWaits(tr, tr2, s.c.now, s.c.now);
      BeatWaits(pc, pc2, tr, tr2, s.c, s.c);
      PutKeepsInv(s, id, pc2, tr2, s.owner);
      assert Use(s, id, chal) == Put(s, id, pc2, tr2).(owner := s.owner);
    }
  }

  lemma SlotsIgnoreRest(slots: seq<Slot>, a: Trace, b: Trace, c: Clock)
    requires SlotsInv(slots, a, c)
    requires b.issued == a.issued && b.taken == a.taken && b.from == a.from && b.held == a.held
    ensures SlotsInv(slots, b, c)
  {
    forall j | 0 <= j < |b.taken| ensures Backed(b, b.taken[j]) { BackedStays(a, b, a.taken[j]); }
    forall s | 0 <= s < CHALS && slots[s].live ensures Holds(slots[s], b, b.held[s], c) {
      assert Holds(slots[s], a, a.held[s], c);
    }
    forall k: nat | Outstanding(b, k, c.now) ensures IsHeld(slots, b, k) {
      assert Outstanding(a, k, c.now);
      assert IsHeld(slots, a, k);
    }
  }

  lemma SeenKeeps(s: Sys, id: Blob, chal: Blob, tn: Blob)
    requires Inv(s) && Shaped(s) && id in s.pcs && (chal, tn) in s.traces[id].signed
    ensures Inv(Seen(s, id, tn))
  {
    var pc, tr := s.pcs[id], s.traces[id];
    var pc2, tr2 := pc.(tn := tn, seenAt := s.c.Ms()), tr.(beat := Some(TN.Nonce(tn, s.c.now)));
    assert Good(s, id);
    assert Said(tr, (chal, tn).1, s.c.now);
    SaidStays(tr, tr2, tn, s.c.now, s.c.now);
    AppWaits(tr, tr2, s.c.now, s.c.now);
    SlotsIgnoreRest(pc.slots, tr, tr2, s.c);
    PutKeepsInv(s, id, pc2, tr2, s.owner);
    assert Seen(s, id, tn) == Put(s, id, pc2, tr2).(owner := s.owner);
  }

  ghost function Says(tr: Trace, chal: Blob, tn: Blob, now: nat): Trace {
    tr.(said := tr.said + [TN.Nonce(tn, now)], signed := tr.signed + {(chal, tn)})
  }

  lemma SaysKeeps(id: Blob, tr: Trace, chal: Blob, tn: Blob, now: nat, owner: map<Blob, Blob>)
    requires TraceInv(id, tr, now, owner)
    ensures TraceInv(id, Says(tr, chal, tn, now), now, owner)
  {
    var tr2 := Says(tr, chal, tn, now);
    assert tr2.said[|tr.said|] == TN.Nonce(tn, now);
    forall p | p in tr2.signed ensures Said(tr2, p.1, now) {
      if p in tr.signed { SaidStays(tr, tr2, p.1, now, now); }
    }
    forall j | 0 <= j < |tr2.taken| ensures Backed(tr2, tr2.taken[j]) { BackedStays(tr, tr2, tr.taken[j]); }
  }

  lemma SignedKeeps(s: Sys, id: Blob, chal: Blob, tn: Blob)
    requires Inv(s) && Shaped(s)
    ensures Inv(Do(s, Signed(id, chal, tn)))
  {
    var w := Do(s, Signed(id, chal, tn));
    forall i ensures Good(w, i) { if i == id { SignerKeeps(s, w, id, chal, tn); } else { OthersStay(s, w, i); } }
  }

  lemma SignerKeeps(s: Sys, w: Sys, id: Blob, chal: Blob, tn: Blob)
    requires Good(s, id) && w == s.(traces := s.traces[id := Says(TraceOf(s, id), chal, tn, s.c.now)])
    ensures Good(w, id)
  {
    var tr, tr2 := TraceOf(s, id), w.traces[id];
    SaysKeeps(id, tr, chal, tn, s.c.now, s.owner);
    if id in s.pcs {
      SlotsIgnoreRest(s.pcs[id].slots, tr, tr2, s.c);
      BeatWaits(s.pcs[id], s.pcs[id], tr, tr2, s.c, s.c);
    }
  }

  lemma TickKeeps(s: Sys)
    requires Inv(s) && Shaped(s)
    ensures Inv(Tick(s))
  {
    SinceIsAge(s.c.now - s.c.boot, s.c.swept - s.c.boot);
    forall id ensures Good(Tick(s), id) { TickKeepsOne(s, id); }
  }

  lemma TickKeepsOne(s: Sys, id: Blob)
    requires Shaped(s) && s.c.Valid() && s.last == Millis(s.c.swept - s.c.boot) && Good(s, id)
    ensures Good(Tick(s), id)
  {
    var w := Tick(s);
    SinceIsAge(s.c.now - s.c.boot, s.c.swept - s.c.boot);
    if id in s.pcs {
      if Since(s.c.Ms(), s.last) < TICK_MS {
        WaitKeeps(s.pcs[id].slots, s.traces[id], s.c, w.c);
      } else {
        ExpireKeeps(s.pcs[id].slots, s.traces[id], s.c);
      }
      BeatWaits(s.pcs[id], w.pcs[id], s.traces[id], s.traces[id], s.c, w.c);
    }
  }

  lemma WipedKeeps(id: Blob, tr: Trace, c: Clock, now: nat, owner: map<Blob, Blob>)
    requires TraceInv(id, tr, now, owner) && c.Valid() && now <= c.now
    ensures TraceInv(id, Wiped(tr), c.now, owner) && PcInv(NEW_PC, Wiped(tr), c)
  {
    WipeKeeps(tr, now, c);
    AppWaits(tr, Wiped(tr), now, c.now);
  }

  lemma RestartKeeps(s: Sys)
    requires Inv(s)
    ensures Inv(Restart(s))
  {
    forall id ensures Good(Restart(s), id) { RestartKeepsOne(s, id); }
  }

  lemma RestartKeepsOne(s: Sys, id: Blob)
    requires Good(s, id)
    ensures Good(Restart(s), id)
  {
    if id in s.traces { WipedKeeps(id, s.traces[id], Restart(s).c, s.c.now, s.owner); }
  }

  lemma RemovedKeeps(s: Sys, id: Blob)
    requires Inv(s) && Shaped(s)
    ensures Inv(Do(s, Removed(id)))
  {
    var w := Do(s, Removed(id));
    forall i ensures Good(w, i) { assert Good(s, i); }
  }

  lemma BeatenKeeps(s: Sys, id: Blob, chal: Blob, tn: Blob, macOk: bool)
    requires Inv(s) && Shaped(s) && Allowed(s, s.c.now, Beaten(id, chal, tn, macOk))
    ensures Inv(Do(s, Beaten(id, chal, tn, macOk)))
  {
    UseKeepsShape(s, id, chal);
    if macOk && id in s.pcs { SeenKeeps(Use(s, id, chal), id, chal, tn); }
  }

  lemma UseKeepsShape(s: Sys, id: Blob, chal: Blob)
    requires Inv(s) && Shaped(s)
    ensures var u := Use(s, id, chal);
      Inv(u) && Shaped(u) && u.pcs.Keys == s.pcs.Keys
      && (id in s.pcs ==> u.traces[id].signed == s.traces[id].signed)
  {
    UseKeeps(s, id, chal);
    InvShapes(Use(s, id, chal));
  }

  lemma PairedKeeps(s: Sys, id: Blob)
    requires Inv(s) && Shaped(s)
    ensures Inv(Do(s, Paired(id)))
  {
    var tr := TraceOf(s, id);
    assert Good(s, id);
    WipedKeeps(id, tr, s.c, s.c.now, s.owner);
    PutKeepsInv(s, id, NEW_PC, Wiped(tr), s.owner);
    assert Do(s, Paired(id)) == Put(s, id, NEW_PC, Wiped(tr)).(owner := s.owner);
  }

  lemma DoKeeps(s: Sys, e: Event)
    requires Inv(s) && Shaped(s) && Allowed(s, s.c.now, e)
    ensures Inv(Do(s, e))
  {
    match e
    case Asked(id, chal) => AskedKeeps(s, id, chal);
    case Signed(id, chal, tn) => SignedKeeps(s, id, chal, tn);
    case Beaten(id, chal, tn, macOk) =>
      BeatenKeeps(s, id, chal, tn, macOk);
    case Proved(id, chal) => UseKeeps(s, id, chal);
    case Ticked => TickKeeps(s);
    case Paired(id) => PairedKeeps(s, id);
    case Removed(id) => RemovedKeeps(s, id);
    case Restarted => RestartKeeps(s);
  }

  // ---- runs ----------------------------------------------------------------------------

  ghost predicate Link(ss: seq<Sys>, ts: seq<nat>, evs: seq<Event>, m: nat) {
    && m < |evs| == |ts| && m + 1 < |ss|
    && Allowed(ss[m], ts[m], evs[m])
    && Shaped(Wait(ss[m], ts[m]))
    && ss[m + 1] == Do(Wait(ss[m], ts[m]), evs[m])
  }

  ghost predicate IsRun(ss: seq<Sys>, ts: seq<nat>, evs: seq<Event>) {
    && |ss| == |evs| + 1 == |ts| + 1 && ss[0] == START
    && forall m :: 0 <= m < |evs| ==> Link(ss, ts, evs, m)
  }

  lemma LinkKeeps(ss: seq<Sys>, ts: seq<nat>, evs: seq<Event>, m: nat)
    requires Link(ss, ts, evs, m) && Inv(ss[m])
    ensures Inv(ss[m + 1])
  {
    WaitKeepsInv(ss[m], ts[m]);
    DoKeeps(Wait(ss[m], ts[m]), evs[m]);
  }

  lemma {:induction false} RunKeepsInv(ss: seq<Sys>, ts: seq<nat>, evs: seq<Event>, m: nat)
    requires IsRun(ss, ts, evs) && m < |ss|
    ensures Inv(ss[m])
    decreases m
  {
    if m > 0 {
      RunKeepsInv(ss, ts, evs, m - 1);
      assert Link(ss, ts, evs, m - 1);
      LinkKeeps(ss, ts, evs, m - 1);
    }
  }
}
