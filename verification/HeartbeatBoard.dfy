/** A paired computer's entry as the board changes it: challenges, heartbeats and tickets. */
module HeartbeatBoard {
  import opened Common
  import opened Clock32
  import opened Crypto
  import opened Challenges
  import opened Heartbeats
  import opened HeartbeatRuns
  import opened ChallengeRuns
  import TicketRuns
  import TN = TicketNonces

  datatype TicketAnswer = Ticket(tn: Blob) | WifiOnly | PinRequired | Offline | Failed

  datatype Answer = Accepted | StaleChallenge | BadProof

  /** A heartbeat uses up its challenge, right or wrong; only a right one is remembered. */
  ghost function Beat(pc: Pc, chal: Blob, tn: Blob, macOk: bool, ms: nat): (Pc, Answer)
    requires Shape(pc.slots) && ms < WRAP
  {
    var used := pc.(slots := Take(pc.slots, chal, ms));
    if !Takes(pc.slots, chal, ms) then (used, StaleChallenge)
    else if !macOk then (used, BadProof)
    else (used.(tn := tn, seenAt := ms), Accepted)
  }

  /** The entry in a run changes as the handler changes it, and no other entry does. */
  lemma RunBeats(s: Sys, e: Event)
    requires Shaped(s) && e.Beaten? && e.id in s.pcs
    ensures Do(s, e).pcs == s.pcs[e.id := Beat(s.pcs[e.id], e.chal, e.tn, e.macOk, s.c.Ms()).0]
  {
  }

  /** What the board answers to event m of a run, a heartbeat. */
  ghost function AnswerAt(ss: seq<Sys>, ts: seq<nat>, evs: seq<Event>, m: nat): Answer
    requires IsRun(ss, ts, evs) && m < |evs| && evs[m].Beaten? && evs[m].id in ss[m].pcs
  {
    assert Link(ss, ts, evs, m);
    var s, e := At(ss, ts, m), evs[m];
    Beat(s.pcs[e.id], e.chal, e.tn, e.macOk, s.c.Ms()).1
  }

  /** Over every run a heartbeat is accepted exactly when it takes a challenge with a right proof;
      then, and only then, its nonce and time become the computer's. A challenge that can not be
      taken is stale whatever the proof. */
  lemma AnswerIsExact(ss: seq<Sys>, ts: seq<nat>, evs: seq<Event>, m: nat)
    requires IsRun(ss, ts, evs) && m < |evs| && evs[m].Beaten? && evs[m].id in ss[m].pcs
    ensures var a, id := AnswerAt(ss, ts, evs, m), evs[m].id;
      && (a == StaleChallenge <==> !AcceptedAt(ss, ts, evs, m))
      && (a == BadProof <==> AcceptedAt(ss, ts, evs, m) && !evs[m].macOk)
      && (a == Accepted <==> TicketRuns.BeatAt(ss, ts, evs, m, id, TN.Nonce(evs[m].tn, ts[m])))
      && id in ss[m].traces && id in ss[m + 1].traces
      && ss[m + 1].traces[id].beat == if a == Accepted then Some(TN.Nonce(evs[m].tn, ts[m])) else ss[m].traces[id].beat
  {
    assert Link(ss, ts, evs, m);
    RunKeepsInv(ss, ts, evs, m);
    InvShapes(ss[m]);
    LinkGrows(ss, ts, evs, m, evs[m].id);
    TicketRuns.BeatGrows(At(ss, ts, m), evs[m], evs[m].id);
  }

  /** A right heartbeat is never refused: with the first challenge of its millisecond, at most three
      given after it, within 30 s, it is accepted and the computer counts as online by it. */
  lemma RightBeatIsAccepted(ss: seq<Sys>, ts: seq<nat>, evs: seq<Event>, i: nat, j: nat, id: Blob, x: Stamp)
    requires IsRun(ss, ts, evs) && i < j < |evs| && GivenAt(ss, ts, evs, i, id, x)
    requires LeftAlone(evs, id, x.chal, i + 1, j) && AskedBetween(evs, id, i + 1, j) <= 3
    requires FirstInMs(ts, evs, i, id) && ts[j] <= x.at + CHAL_MS
    requires evs[j].Beaten? && evs[j].id == id && evs[j].chal == x.chal && evs[j].macOk
    ensures id in ss[j].pcs && AnswerAt(ss, ts, evs, j) == Accepted
    ensures id in ss[j + 1].traces && ss[j + 1].traces[id].beat == Some(TN.Nonce(evs[j].tn, ts[j]))
  {
    SurvivesThree(ss, ts, evs, i, j, id, x);
    AnswerIsExact(ss, ts, evs, j);
  }

  class Computer {
    const slots: Slots
    var tn: Blob
    var seenAt: nat

    ghost predicate Valid()
      reads this, slots, slots.chalAt
    {
      slots.Valid() && seenAt < WRAP
    }

    ghost function View(): Pc
      reads this, slots, slots.chal, slots.chalAt, slots.chalLive
      requires Valid()
    {
      Pc(slots.View(), tn, seenAt)
    }

    constructor ()
      ensures Valid() && View() == NEW_PC
      ensures fresh(slots) && fresh(slots.chal) && fresh(slots.chalAt) && fresh(slots.chalLive)
    {
      slots := new Slots();
      tn, seenAt := 0, 0;
    }

    /** compBeat, once the request is well formed; macOk: the proof checks under the entry's key. */
    method OnBeat(chal: Blob, nonce: Blob, macOk: bool, ms: nat) returns (r: Answer)
      requires Valid() && ms < WRAP
      modifies this, slots.chal, slots.chalLive
      ensures Valid() && (View(), r) == Beat(old(View()), chal, nonce, macOk, ms)
      ensures r == StaleChallenge <==> !Takes(old(slots.View()), chal, ms)
      ensures r == BadProof <==> Takes(old(slots.View()), chal, ms) && !macOk
      ensures r == Accepted <==> Takes(old(slots.View()), chal, ms) && macOk
      ensures slots.View() == Take(old(slots.View()), chal, ms)
      ensures if r == Accepted then tn == nonce && seenAt == ms else tn == old(tn) && seenAt == old(seenAt)
    {
      var found := slots.TakeChallenge(chal, ms);
      if !found { return StaleChallenge; }
      if !macOk { return BadProof; }
      tn, seenAt := nonce, ms;
      r := Accepted;
    }

    /** A viewer's ticket names the nonce of the last heartbeat. It is given exactly when a signed-in
        dashboard of a board with a PIN asks while the computer is online, and it can be signed;
        the first of these that fails is the refusal. */
    method OnTicket(serial: bool, pinSet: bool, signs: bool, ms: nat) returns (r: TicketAnswer)
      requires Valid() && ms < WRAP
      ensures (r == Ticket(View().tn)) <==> !serial && pinSet && TicketRuns.Online(View(), ms) && signs
      ensures r == Failed <==> !serial && pinSet && TicketRuns.Online(View(), ms) && !signs
      ensures r == WifiOnly <==> serial
      ensures r == PinRequired <==> !serial && !pinSet
      ensures r == Offline <==> !serial && pinSet && !TicketRuns.Online(View(), ms)
    {
      if serial { return WifiOnly; }
      if !pinSet { return PinRequired; }
      if seenAt == 0 || Since(ms, seenAt) >= ONLINE_MS { return Offline; }
      r := if signs then Ticket(tn) else Failed;
    }
  }
}
