/** The app's session as an object whose fields each step updates, proved to follow the
    step functions of Session, with the history of what it sent. */
module Agent {
  import opened Common
  import opened Crypto
  import opened Session
  import N = TicketNonces
  import Decimal

  /** A request sent, and the keys the board had rejected by then. */
  datatype Sent = Sent(req: Request, dead: set<Blob>)

  function Stamped(sent: seq<Request>, dead: set<Blob>): (r: seq<Sent>)
    ensures |r| == |sent| && forall i :: 0 <= i < |sent| ==> r[i] == Sent(sent[i], dead)
  {
    seq(|sent|, i requires 0 <= i < |sent| => Sent(sent[i], dead))
  }

  /** Over the whole history no heartbeat used a key rejected before it. */
  ghost predicate NoDeadBeat(log: seq<Sent>, dead: set<Blob>) {
    && (forall i :: 0 <= i < |log| && log[i].req.Beat? ==> log[i].req.key !in log[i].dead)
    && (forall i, j :: 0 <= i < j < |log| ==> log[i].dead <= log[j].dead)
    && (forall i :: 0 <= i < |log| ==> log[i].dead <= dead)
  }

  lemma LogGrows(log: seq<Sent>, dead: set<Blob>, sent: seq<Request>, more: set<Blob>)
    requires NoDeadBeat(log, dead) && forall i :: 0 <= i < |sent| && sent[i].Beat? ==> sent[i].key !in dead
    ensures NoDeadBeat(log + Stamped(sent, dead), dead + more)
  {
  }

  class Agent {
    const scheme: Scheme
    const id: Blob
    const nonces: N.TicketNonces
    var key: Option<Blob>
    var phase: Phase
    var status: Status
    var backoff: nat
    var listening: bool
    var keyChanged: bool
    ghost var log: seq<Sent>
    ghost var dead: set<Blob>        // keys the board rejected
    ghost var quiet: nat             // how much had been sent when the app last fell idle

    /** No dead key was ever used again, none is held, and nothing was sent since the app fell idle. */
    ghost predicate Valid()
      reads this, nonces
    {
      && nonces.Valid() && NoDeadBeat(log, dead) && NoneDead(scheme, View(), dead)
      && quiet <= |log| && (phase.Idle? ==> quiet == |log|)
    }

    /** What a step in the middle of its work relies on: the history is left to the step's end. */
    ghost predicate Working()
      reads this, nonces
    {
      nonces.Valid()
    }

    /** The fields as one value. */
    function View(): State
      reads this, nonces
    {
      State(id, key, phase, status, backoff, listening, keyChanged, nonces.q)
    }

    constructor (c: Scheme, id: Blob, key: Option<Blob>, nonces: N.TicketNonces)
      requires nonces.Valid() && nonces.q == []
      ensures Valid() && View() == New(id, key) && this.nonces == nonces && scheme == c && log == [] && dead == {}
    {
      scheme, this.id, this.key, this.nonces := c, id, key, nonces;
      log, dead, quiet := [], {}, 0;
      phase := if key.Some? then Paired else Unpaired;
      status, backoff, listening, keyChanged := Connecting, BACKOFF_MIN, false, false;
    }

    /** The user forgets the pairing. */
    method DropPairing()
      requires Valid()
      modifies this
      ensures Valid() && View() == ResetPairing(old(View())) && log == old(log) && dead == old(dead)
    {
      ForgetKey();
    }

    method ForgetKey()
      requires Working()
      modifies this`key, this`keyChanged, this`phase
      ensures Working() && View() == ResetPairing(old(View()))
    {
      key := None;
      keyChanged := true;
      phase := Unpaired;
    }

    method AskToPair()
      requires Valid()
      modifies this
      ensures Valid() && View() == RequestPairing(old(View())) && log == old(log) && dead == old(dead)
    {
      if phase.Idle? {
        phase := Unpaired;
        status := Connecting;
      }
    }

    method Rediscover()
      requires Valid()
      modifies this
      ensures Valid() && View() == FoundAgain(old(View())) && log == old(log) && dead == old(dead)
    {
      if status.Reconnecting? {
        status := Connecting;
        backoff := BACKOFF_MIN;
      }
    }

    method HandleError(e: Answer) returns (wait: nat)
      requires Working() && !e.Ok?
      modifies this`key, this`phase, this`status, this`backoff, this`keyChanged
      ensures Working() && (View(), wait) == OnError(old(View()), e)
    {
      if !e.Refused? {
        status := if phase.Paired? then Reconnecting else Connecting;
        wait := backoff;
        backoff := if backoff * 2 < BACKOFF_MAX then backoff * 2 else BACKOFF_MAX;
        return;
      }
      match e.why
      case PinRequired =>
        status := NeedsPin;
        wait := PIN_WAIT;
      case RateLimited(ms) =>
        wait := if ms > 1000 then ms else 1000;
      case StaleChallenge =>
        wait := BACKOFF_MIN;
      case UnknownPc =>
        if phase.Paired? {
          ForgetKey();
          status := Connecting;
          wait := BACKOFF_MIN;
        } else {
          status := Problem;
          wait := BACKOFF_MAX;
        }
      case BadProof =>
        if phase.Paired? {
          ForgetKey();
          status := Connecting;
          wait := BACKOFF_MIN;
        } else {
          phase := Idle;
          status := PairingFailed;
          wait := IDLE_WAIT;
        }
      case _ =>
        status := Problem;
        wait := BACKOFF_MAX;
    }

    /** Everything poll_pairing does with the answer to its first request. */
    method TakePoll(a: Answer, now: nat) returns (n: Next)
      requires Working() && phase.Pairing?
      modifies this`key, this`phase, this`status, this`backoff, this`keyChanged
      ensures Working() && (View(), n) == OnPoll(scheme, old(View()), a, now)
    {
      if !a.Ok? { return Failed(a); }
      if !phase.announced { phase := phase.(askedAt := Some(now)); }
      phase := phase.(announced := true);
      if a.state.None? { return Failed(Malformed); }
      match a.state.value
      case SPending =>
        status := WaitingForApproval;
        n := Wait(PAIR_POLL);
      case SConfirm =>
        if a.boardKey.None? { return Failed(Malformed); }
        var done := Complete(scheme, phase.init, a.boardKey.value.0, a.boardKey.value.1);
        if done.None? {
          phase := Idle;
          status := PairingFailed;
          return Wait(IDLE_WAIT);
        }
        phase := phase.(confirmed := done);
        n := SendReveal(done.value.nA);
      case SCodeShown =>
        if phase.confirmed.Some? {
          status := ShowCode(Decimal.FormatCode(phase.confirmed.value.code));
        } else {
          phase := Unpaired;
        }
        n := Wait(PAIR_POLL);
      case SPaired =>
        if phase.confirmed.Some? {
          key := Some(phase.confirmed.value.key);
          keyChanged := true;
          status := Connecting;
          phase := Paired;
          n := Wait(0);
        } else {
          phase := Unpaired;
          n := Wait(PAIR_POLL);
        }
      case SNone =>
        if phase.askedAt.Some? { return AskUptime; }
        phase := Idle;
        status := PairingExpired;
        n := Wait(IDLE_WAIT);
      case SAborted =>
        phase := Idle;
        status := PairingFailed;
        n := Wait(IDLE_WAIT);
    }

    method Conclude(n: Next) returns (wait: nat)
      requires Working() && (n.Wait? || (n.Failed? && !n.e.Ok?))
      modifies this`key, this`phase, this`status, this`backoff, this`keyChanged
      ensures Working() && Outcome(View(), wait, []) == Finish(old(View()), n, [])
    {
      if n.Wait? {
        backoff := BACKOFF_MIN;
        wait := n.ms;
      } else {
        wait := HandleError(n.e);
      }
    }

    method PollPairing(w: World) returns (wait: nat, sent: seq<Request>)
      requires Working() && phase.Pairing?
      modifies this`key, this`phase, this`status, this`backoff, this`keyChanged
      ensures Working() && Outcome(View(), wait, sent) == StepPairing(scheme, old(View()), w)
    {
      sent := [PollRequest(scheme, View())];
      var n := TakePoll(w.first, w.now1);
      if n.SendReveal? {
        sent := sent + [Reveal(n.nA)];
        if w.second.Ok? {
          status := ShowCode(Decimal.FormatCode(phase.confirmed.value.code));
          n := Wait(PAIR_POLL);
        } else {
          n := Failed(w.second);
        }
      } else if n.AskUptime? {
        sent := sent + [Uptime];
        if Restarted(w.up, Elapsed(phase.askedAt.value, w.now2)) {
          phase := phase.(announced := false, askedAt := None);
          n := Wait(0);
        } else {
          phase := Idle;
          status := PairingExpired;
          n := Wait(IDLE_WAIT);
        }
      }
      wait := Conclude(n);
    }

    method BeatOnce(w: World) returns (wait: nat, sent: seq<Request>)
      requires Working()
      modifies this`key, this`phase, this`status, this`backoff, this`keyChanged, nonces
      ensures Working() && Outcome(View(), wait, sent) == StepBeat(old(View()), w)
    {
      sent := [];
      var n: Next;
      if key.None? {
        phase := Unpaired;
        n := Wait(0);
      } else if !listening {
        status := Connecting;
        n := Wait(PAIR_POLL);
      } else {
        sent := [Chal];
        if !w.first.Ok? { n := Failed(w.first); }
        else if w.first.chal.None? { n := Failed(Malformed); }
        else {
          nonces.AnnounceNonce(w.tn, w.now1);
          assert nonces.q == N.Announce(old(nonces.q), w.tn, w.now1);
          sent := sent + [Beat(key.value, w.tn, w.first.chal.value)];
          if w.second.Ok? {
            status := Online;
            n := Wait(BEAT_EVERY);
          } else {
            n := Failed(w.second);
          }
        }
      }
      wait := Conclude(n);
    }

    /** One step. A fresh attempt derives none of the dead keys. What it sends is written down with
        the keys dead by then, and a key lost to a refusal is dead from now on. */
    method Step(w: World) returns (wait: nat, sent: seq<Request>)
      requires Valid() && (w.init.Some? ==> Clear(scheme, w.init.value, dead))
      modifies this, nonces
      ensures Valid() && Outcome(View(), wait, sent) == Session.Step(scheme, old(View()), w)
      ensures log == old(log) + Stamped(sent, old(dead)) && dead == old(dead) + Lost(old(View()), View())
      ensures old(phase.Idle?) ==> sent == []
    {
      ghost var s := View();
      StepNoneDead(scheme, s, w, dead);
      wait, sent := Act(w);
      LogGrows(log, dead, sent, Lost(s, View()));
      log := log + Stamped(sent, dead);
      dead := dead + Lost(s, View());
      if phase.Idle? && !s.phase.Idle? { quiet := |log|; }
    }

    method Act(w: World) returns (wait: nat, sent: seq<Request>)
      requires Working()
      modifies this`key, this`phase, this`status, this`backoff, this`keyChanged, nonces
      ensures Working() && Outcome(View(), wait, sent) == Session.Step(scheme, old(View()), w)
    {
      sent := [];
      match phase
      case Idle =>
        wait := IDLE_WAIT;
      case Unpaired =>
        if w.init.None? {
          wait := Conclude(Failed(Unreachable));
        } else {
          phase := Pairing(w.init.value, None, false, None);
          wait, sent := PollPairing(w);
        }
      case Pairing(_, _, _, _) =>
        wait, sent := PollPairing(w);
      case Paired =>
        wait, sent := BeatOnce(w);
    }
  }
}
