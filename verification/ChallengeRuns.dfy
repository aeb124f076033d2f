/** What every run says of challenges and tickets, in terms of its events alone. */
module ChallengeRuns {
  import opened Common
  import opened Clock32
  import opened Crypto
  import opened Challenges
  import opened Heartbeats
  import opened HeartbeatRuns
  import TN = TicketNonces

  /** The board accepts e's challenge: it is used up, whatever becomes of the proof. */
  ghost predicate Accepts(s: Sys, e: Event) {
    && (e.Beaten? || e.Proved?) && e.id in s.pcs
    && Shape(s.pcs[e.id].slots) && s.c.boot <= s.c.now && Takes(s.pcs[e.id].slots, e.chal, s.c.Ms())
  }

  ghost predicate Wipes(e: Event, id: Blob) {
    e == Paired(id) || e == Removed(id) || e == Restarted
  }

  /** The events after which a computer has an entry with no challenge. */
  ghost predicate Renews(e: Event, id: Blob) {
    e == Paired(id) || e == Restarted
  }

  /** The state in which event m happens. */
  ghost function At(ss: seq<Sys>, ts: seq<nat>, m: nat): Sys
    requires m < |ss| && m < |ts|
  {
    Wait(ss[m], ts[m])
  }

  ghost predicate AcceptedAt(ss: seq<Sys>, ts: seq<nat>, evs: seq<Event>, m: nat) {
    m < |evs| && m < |ss| && m < |ts| && Accepts(At(ss, ts, m), evs[m])
  }

  ghost predicate GivenAt(ss: seq<Sys>, ts: seq<nat>, evs: seq<Event>, m: nat, id: Blob, x: Stamp) {
    m < |evs| && m < |ss| && m < |ts| && evs[m] == Asked(id, x.chal) && id in ss[m].pcs && ts[m] == x.at
  }

  /** How one event changes one computer's trace. */
  ghost predicate Grows(s: Sys, e: Event, id: Blob, tr: Trace, tr2: Trace) {
    && tr2.issued == tr.issued + (if e.Asked? && e.id == id && id in s.pcs then [Stamp(e.chal, s.c.now)] else [])
    && tr2.taken == tr.taken + (if Accepts(s, e) && e.id == id then [Stamp(e.chal, s.c.now)] else [])
    && tr2.from == (if Renews(e, id) then |tr2.issued| else tr.from)
    && tr2.said == tr.said + (if e.Signed? && e.id == id then [TN.Nonce(e.tn, s.c.now)] else [])
    && tr2.signed == tr.signed + (if e.Signed? && e.id == id then {(e.chal, e.tn)} else {})
  }

  lemma UseGrows(s: Sys, e: Event, id: Blob)
    requires Shaped(s) && (e.Beaten? || e.Proved?)
    ensures Do(s, e).traces.Keys == s.traces.Keys
    ensures id in s.traces ==> Grows(s, e, id, s.traces[id], Do(s, e).traces[id])
  {
    var u := Use(s, e.id, e.chal);
    assert id in s.traces ==> Grows(s, e, id, s.traces[id], u.traces[id]);
    if e.Beaten? && e.id in s.pcs {
      assert Seen(u, e.id, e.tn).traces == u.traces[e.id := u.traces[e.id].(beat := Some(TN.Nonce(e.tn, u.c.now)))];
    }
  }

  lemma WipeGrows(s: Sys, e: Event, id: Blob)
    requires Shaped(s) && (e.Paired? || e.Removed? || e.Restarted?)
    ensures id in s.traces ==> id in Do(s, e).traces
    ensures id in Do(s, e).traces ==> Grows(s, e, id, TraceOf(s, id), Do(s, e).traces[id])
  {
  }

  lemma TraceGrows(s: Sys, e: Event, id: Blob)
    requires Shaped(s)
    ensures id in s.traces ==> id in Do(s, e).traces
    ensures id in Do(s, e).traces ==> Grows(s, e, id, TraceOf(s, id), Do(s, e).traces[id])
  {
    if e.Beaten? || e.Proved? {
      UseGrows(s, e, id);
    } else if e.Paired? || e.Removed? || e.Restarted? {
      WipeGrows(s, e, id);
    }
  }

  lemma LinkGrows(ss: seq<Sys>, ts: seq<nat>, evs: seq<Event>, m: nat, id: Blob)
    requires Link(ss, ts, evs, m)
    ensures id in ss[m].traces ==> id in ss[m + 1].traces
    ensures id in ss[m + 1].traces ==> Grows(At(ss, ts, m), evs[m], id, TraceOf(ss[m], id), ss[m + 1].traces[id])
  {
    TraceGrows(At(ss, ts, m), evs[m], id);
  }

  // ---- which computers the board knows --------------------------------------------------------

  /** Event i pairs the computer, and none from there to n removes it. */
  ghost predicate PairedSince(evs: seq<Event>, i: nat, n: nat, id: Blob) {
    i < n <= |evs| && evs[i] == Paired(id) && forall j :: i < j < n ==> evs[j] != Removed(id)
  }

  /** Over every run the board knows a computer exactly from its pairing to its removal, restarts
      included: only then are its challenges given, its proofs taken and its heartbeats answered. */
  lemma {:induction false} KnownExactly(ss: seq<Sys>, ts: seq<nat>, evs: seq<Event>, n: nat, id: Blob)
    requires IsRun(ss, ts, evs) && n <= |evs|
    ensures id in ss[n].pcs <==> exists i: nat :: PairedSince(evs, i, n, id)
    ensures n < |evs| && AcceptedAt(ss, ts, evs, n) && evs[n].id == id ==> exists i: nat :: PairedSince(evs, i, n, id)
  {
    if n > 0 {
      KnownExactly(ss, ts, evs, n - 1, id);
      assert Link(ss, ts, evs, n - 1);
      if evs[n - 1] == Paired(id) {
        assert PairedSince(evs, n - 1, n, id);
      } else if id in ss[n].pcs {
        var i: nat :| PairedSince(evs, i, n - 1, id);
        assert PairedSince(evs, i, n, id);
      }
      forall i: nat | PairedSince(evs, i, n, id) ensures id in ss[n].pcs {
        if i < n - 1 { assert PairedSince(evs, i, n - 1, id); }
      }
    }
  }

  // ---- where a challenge came from, and that it is gone for good once accepted --------------

  /** A challenge in a trace was given to that computer by an earlier event. */
  lemma {:induction false} IssuedCameFrom(ss: seq<Sys>, ts: seq<nat>, evs: seq<Event>, m: nat, id: Blob, k: nat)
    requires IsRun(ss, ts, evs) && m < |ss| && id in ss[m].traces && k < |ss[m].traces[id].issued|
    ensures exists j: nat :: j < m && GivenAt(ss, ts, evs, j, id, ss[m].traces[id].issued[k])
    decreases m
  {
    var x := ss[m].traces[id].issued[k];
    if m > 0 {
      var n := m - 1;
      assert Link(ss, ts, evs, n);
      LinkGrows(ss, ts, evs, n, id);
      if k < |TraceOf(ss[n], id).issued| {
        IssuedCameFrom(ss, ts, evs, n, id, k);
      } else {
        assert GivenAt(ss, ts, evs, n, id, x);
      }
    }
  }

  /** If the entry still counts it, the entry was not renewed since. */
  ghost predicate GivenSince(ss: seq<Sys>, ts: seq<nat>, evs: seq<Event>, j: nat, m: nat, id: Blob, x: Stamp) {
    && j < m <= |evs| && GivenAt(ss, ts, evs, j, id, x)
    && forall w :: j < w < m ==> !Renews(evs[w], id)
  }

  lemma {:induction false} CountedCameFrom(ss: seq<Sys>, ts: seq<nat>, evs: seq<Event>, m: nat, id: Blob, k: nat)
    requires IsRun(ss, ts, evs) && m < |ss| && id in ss[m].traces
    requires ss[m].traces[id].from <= k < |ss[m].traces[id].issued|
    ensures exists j: nat :: GivenSince(ss, ts, evs, j, m, id, ss[m].traces[id].issued[k])
    decreases m
  {
    var x := ss[m].traces[id].issued[k];
    if m > 0 {
      var n := m - 1;
      assert Link(ss, ts, evs, n);
      LinkGrows(ss, ts, evs, n, id);
      if k < |TraceOf(ss[n], id).issued| {
        CountedCameFrom(ss, ts, evs, n, id, k);
        var j: nat :| GivenSince(ss, ts, evs, j, n, id, x);
        assert GivenSince(ss, ts, evs, j, m, id, x);
      } else {
        assert GivenSince(ss, ts, evs, n, m, id, x);
      }
    }
  }

  lemma {:induction false} TakenStays(ss: seq<Sys>, ts: seq<nat>, evs: seq<Event>, i: nat, j: nat, id: Blob, chal: Blob)
    requires IsRun(ss, ts, evs) && i <= j < |ss| && id in ss[i].traces && WasTaken(ss[i].traces[id], chal)
    ensures id in ss[j].traces && WasTaken(ss[j].traces[id], chal)
    decreases j
  {
    if i < j {
      var n := j - 1;
      TakenStays(ss, ts, evs, i, n, id, chal);
      assert Link(ss, ts, evs, n);
      LinkGrows(ss, ts, evs, n, id);
      var a, b := ss[n].traces[id], ss[j].traces[id];
      var t :| 0 <= t < |a.taken| && a.taken[t].chal == chal;
      assert b.taken[t] == a.taken[t];
    }
  }

  lemma AtInv(ss: seq<Sys>, ts: seq<nat>, evs: seq<Event>, m: nat)
    requires IsRun(ss, ts, evs) && m < |evs|
    ensures Inv(At(ss, ts, m))
  {
    assert Link(ss, ts, evs, m);
    RunKeepsInv(ss, ts, evs, m);
    WaitKeepsInv(ss[m], ts[m]);
  }

  /** An accepted challenge is in that computer's trace, in time, and was not taken before. */
  lemma AcceptedIsBacked(s: Sys, e: Event)
    requires Inv(s) && Accepts(s, e)
    ensures e.id in s.traces && Backed(s.traces[e.id], Stamp(e.chal, s.c.now)) && !WasTaken(s.traces[e.id], e.chal)
  {
    assert Good(s, e.id);
    TakeHonest(s.pcs[e.id].slots, s.traces[e.id], e.chal, s.c);
  }

  /** An accepted challenge was issued to the same computer at most 30 s of true time before. */
  lemma AcceptedWasIssued(ss: seq<Sys>, ts: seq<nat>, evs: seq<Event>, m: nat)
    requires IsRun(ss, ts, evs) && AcceptedAt(ss, ts, evs, m)
    ensures exists j: nat, at: nat :: j < m && GivenAt(ss, ts, evs, j, evs[m].id, Stamp(evs[m].chal, at))
                                      && at <= ts[m] <= at + CHAL_MS
  {
    var s, e := At(ss, ts, m), evs[m];
    AtInv(ss, ts, evs, m);
    AcceptedIsBacked(s, e);
    var tr := s.traces[e.id];
    var k :| 0 <= k < |tr.issued| && tr.issued[k].chal == e.chal
             && tr.issued[k].at <= ts[m] <= tr.issued[k].at + CHAL_MS;
    IssuedCameFrom(ss, ts, evs, m, e.id, k);
    assert tr.issued[k] == Stamp(e.chal, tr.issued[k].at);
  }

  /** Once accepted, a challenge is never accepted again, for any computer. */
  lemma NeverAcceptedAgain(ss: seq<Sys>, ts: seq<nat>, evs: seq<Event>, i: nat, j: nat)
    requires IsRun(ss, ts, evs) && i < j && AcceptedAt(ss, ts, evs, i) && AcceptedAt(ss, ts, evs, j)
    ensures evs[i].chal != evs[j].chal
  {
    var a, b := evs[i], evs[j];
    AtInv(ss, ts, evs, i);
    AtInv(ss, ts, evs, j);
    var x, y := At(ss, ts, i), At(ss, ts, j);
    AcceptedIsBacked(x, a);
    AcceptedIsBacked(y, b);
    assert Link(ss, ts, evs, i);
    LinkGrows(ss, ts, evs, i, a.id);
    var t2 := ss[i + 1].traces[a.id];
    assert t2.taken[|t2.taken| - 1].chal == a.chal;
    TakenStays(ss, ts, evs, i + 1, j, a.id, a.chal);
    if a.chal == b.chal { SameOwner(y, a.id, b.id, a.chal); }
  }

  /** A challenge taken from one computer and issued to another: they are the same. */
  lemma SameOwner(s: Sys, a: Blob, b: Blob, chal: Blob)
    requires Inv(s) && a in s.traces && b in s.traces && WasTaken(s.traces[a], chal)
    requires exists at :: Backed(s.traces[b], Stamp(chal, at))
    ensures a == b
  {
    assert Good(s, a) && Good(s, b);
    var t :| 0 <= t < |s.traces[a].taken| && s.traces[a].taken[t].chal == chal;
    assert Backed(s.traces[a], s.traces[a].taken[t]);
  }

  lemma {:induction false} OwnerStays(ss: seq<Sys>, ts: seq<nat>, evs: seq<Event>, i: nat, j: nat, chal: Blob)
    requires IsRun(ss, ts, evs) && i <= j < |ss| && chal in ss[i].owner
    ensures chal in ss[j].owner
    decreases j
  {
    if i < j {
      OwnerStays(ss, ts, evs, i, j - 1, chal);
      assert Link(ss, ts, evs, j - 1);
    }
  }

  /** A challenge is given to one computer only, once. */
  lemma GivenOnce(ss: seq<Sys>, ts: seq<nat>, evs: seq<Event>, i: nat, j: nat, a: Blob, x: Stamp, b: Blob, y: Stamp)
    requires IsRun(ss, ts, evs) && i < j && GivenAt(ss, ts, evs, i, a, x) && GivenAt(ss, ts, evs, j, b, y)
    ensures x.chal != y.chal
  {
    assert Link(ss, ts, evs, i) && Link(ss, ts, evs, j);
    assert x.chal in ss[i + 1].owner;
    OwnerStays(ss, ts, evs, i + 1, j, x.chal);
  }

  // ---- a challenge survives the next three --------------------------------------------------

  ghost function AskedBetween(evs: seq<Event>, id: Blob, i: nat, j: nat): nat
    requires i <= j <= |evs|
    decreases j
  {
    if i == j then 0
    else AskedBetween(evs, id, i, j - 1) + (if evs[j - 1].Asked? && evs[j - 1].id == id then 1 else 0)
  }

  /** Nothing between i and j wipes the computer's entry or presents the challenge for it. */
  ghost predicate LeftAlone(evs: seq<Event>, id: Blob, chal: Blob, i: nat, j: nat) {
    forall m :: i <= m < j && m < |evs| ==>
      !Wipes(evs[m], id) && !((evs[m].Beaten? || evs[m].Proved?) && evs[m].id == id && evs[m].chal == chal)
  }

  ghost predicate Waiting(s: Sys, id: Blob, k: nat, x: Stamp, later: nat) {
    && id in s.pcs && id in s.traces
    && var tr := s.traces[id];
    && tr.from <= k < |tr.issued| <= k + 1 + later && tr.issued[k] == x && !WasTaken(tr, x.chal) && Leads(tr, k)
  }

  lemma StepsWait(s: Sys, e: Event, id: Blob, k: nat, x: Stamp, later: nat)
    requires Shaped(s) && Waiting(s, id, k, x, later) && !Wipes(e, id)
    requires !((e.Beaten? || e.Proved?) && e.id == id && e.chal == x.chal)
    ensures Waiting(Do(s, e), id, k, x, later + (if e.Asked? && e.id == id then 1 else 0))
  {
    TraceGrows(s, e, id);
    var tr, tr2 := s.traces[id], Do(s, e).traces[id];
    assert id in Do(s, e).pcs;
    assert forall j :: 0 <= j <= k ==> tr2.issued[j] == tr.issued[j];
    forall t | 0 <= t < |tr2.taken| ensures tr2.taken[t].chal != x.chal {
      assert t < |tr.taken| ==> tr2.taken[t] == tr.taken[t];
    }
  }

  /** No challenge of this entry was drawn in this millisecond. */
  ghost predicate NoneNow(s: Sys, id: Blob) {
    id in s.traces && forall j :: 0 <= s.traces[id].from <= j < |s.traces[id].issued| ==> s.traces[id].issued[j].at < s.c.now
  }

  lemma FirstWait(s: Sys, id: Blob, chal: Blob)
    requires Inv(s) && Shaped(s) && id in s.pcs && chal !in s.owner && NoneNow(s, id)
    ensures Waiting(Do(s, Asked(id, chal)), id, |s.traces[id].issued|, Stamp(chal, s.c.now), 0)
  {
    var tr := s.traces[id];
    assert Good(s, id);
    forall t | 0 <= t < |tr.taken| ensures tr.taken[t].chal != chal { assert Backed(tr, tr.taken[t]); }
  }

  lemma {:induction false} StillWaiting(ss: seq<Sys>, ts: seq<nat>, evs: seq<Event>, i: nat, j: nat, id: Blob, x: Stamp)
    requires IsRun(ss, ts, evs) && i < j < |ss| && GivenAt(ss, ts, evs, i, id, x)
    requires LeftAlone(evs, id, x.chal, i + 1, j)
    requires NoneNow(At(ss, ts, i), id)
    ensures Waiting(ss[j], id, |TraceOf(ss[i], id).issued|, x, AskedBetween(evs, id, i + 1, j))
    decreases j
  {
    var n := j - 1;
    if n == i {
      AtInv(ss, ts, evs, i);
      LinkFirst(ss, ts, evs, i, id, x);
    } else {
      StillWaiting(ss, ts, evs, i, n, id, x);
      LinkWaits(ss, ts, evs, n, id, |TraceOf(ss[i], id).issued|, x, AskedBetween(evs, id, i + 1, n));
    }
  }

  lemma LinkFirst(ss: seq<Sys>, ts: seq<nat>, evs: seq<Event>, m: nat, id: Blob, x: Stamp)
    requires Link(ss, ts, evs, m) && Inv(At(ss, ts, m)) && GivenAt(ss, ts, evs, m, id, x) && NoneNow(At(ss, ts, m), id)
    ensures Waiting(ss[m + 1], id, |TraceOf(ss[m], id).issued|, x, 0)
  {
    FirstWait(At(ss, ts, m), id, x.chal);
  }

  lemma LinkWaits(ss: seq<Sys>, ts: seq<nat>, evs: seq<Event>, m: nat, id: Blob, k: nat, x: Stamp, later: nat)
    requires Link(ss, ts, evs, m) && Waiting(ss[m], id, k, x, later) && LeftAlone(evs, id, x.chal, m, m + 1)
    ensures Waiting(ss[m + 1], id, k, x, later + (if evs[m].Asked? && evs[m].id == id then 1 else 0))
  {
    StepsWait(At(ss, ts, m), evs[m], id, k, x, later);
  }

  /** No challenge was given to this computer earlier in the millisecond of event i, unless its
      entry was renewed in between. */
  ghost predicate FirstInMs(ts: seq<nat>, evs: seq<Event>, i: nat, id: Blob)
    requires i < |evs| == |ts|
  {
    forall m :: 0 <= m < i && evs[m].Asked? && evs[m].id == id && ts[m] == ts[i] ==>
      exists w :: m < w < i && Renews(evs[w], id)
  }

  lemma FirstLeads(ss: seq<Sys>, ts: seq<nat>, evs: seq<Event>, i: nat, id: Blob)
    requires IsRun(ss, ts, evs) && i < |evs| && id in ss[i].pcs && FirstInMs(ts, evs, i, id)
    ensures NoneNow(At(ss, ts, i), id)
  {
    AtInv(ss, ts, evs, i);
    assert Good(At(ss, ts, i), id);
    var tr := ss[i].traces[id];
    forall j | 0 <= tr.from <= j < |tr.issued| ensures tr.issued[j].at < ts[i] {
      CountedCameFrom(ss, ts, evs, i, id, j);
      var m: nat :| GivenSince(ss, ts, evs, m, i, id, tr.issued[j]);
      assert evs[m].Asked? && ts[m] == tr.issued[j].at;
    }
  }

  /** A challenge survives the next three: presented within 30 s it is accepted, if it was the
      first its computer was given in that millisecond, at most three were given after it, and
      the computer's entry was not wiped. */
  lemma SurvivesThree(ss: seq<Sys>, ts: seq<nat>, evs: seq<Event>, i: nat, j: nat, id: Blob, x: Stamp)
    requires IsRun(ss, ts, evs) && i < j < |evs| && GivenAt(ss, ts, evs, i, id, x)
    requires LeftAlone(evs, id, x.chal, i + 1, j) && AskedBetween(evs, id, i + 1, j) <= 3
    requires FirstInMs(ts, evs, i, id) && ts[j] <= x.at + CHAL_MS
    ensures evs[j] == Proved(id, x.chal) ==> AcceptedAt(ss, ts, evs, j)
    ensures evs[j].Beaten? && evs[j].id == id && evs[j].chal == x.chal ==> AcceptedAt(ss, ts, evs, j)
  {
    FirstLeads(ss, ts, evs, i, id);
    StillWaiting(ss, ts, evs, i, j, id, x);
    AtInv(ss, ts, evs, j);
    var s, k := At(ss, ts, j), |TraceOf(ss[i], id).issued|;
    assert Good(s, id);
    OutstandingIsTaken(s.pcs[id].slots, s.traces[id], s.c, k);
  }
}
