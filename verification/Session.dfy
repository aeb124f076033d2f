/** The app's conversation with its board, one step at a time: what it sends, and how each
    answer changes it. A step is at most two requests; the functions below split it at the
    point where the network can lose something. */
module Session {
  import opened Common
  import opened Crypto
  import Decimal
  import opened TicketNonces

  const BEAT_EVERY := 20_000
  const PAIR_POLL := 1000
  const BACKOFF_MIN := 1000
  const BACKOFF_MAX := 30_000
  const IDLE_WAIT := 60_000
  const PIN_WAIT := 10_000

  /** One attempt's own secret and nonce, made fresh for it. */
  datatype Initiator = Initiator(secret: Blob, nA: Blob)

  function APub(c: Scheme, i: Initiator): Blob { c.pub(i.secret) }

  function Commitment(c: Scheme, i: Initiator): Blob { c.commit(APub(c, i), i.nA) }

  datatype Confirmed = Confirmed(code: nat, key: Blob, nA: Blob)

  /** Nothing when the board's key is a low-order point. */
  function Complete(c: Scheme, i: Initiator, bPub: Blob, nB: Blob): Option<Confirmed> {
    var shared := c.dh(i.secret, bPub);
    if shared == 0 then None
    else Some(Confirmed(c.Sas(APub(c, i), bPub, i.nA, nB), c.kdf(shared, APub(c, i), bPub, i.nA, nB), i.nA))
  }

  datatype Phase = Idle | Unpaired
                 | Pairing(init: Initiator, confirmed: Option<Confirmed>, announced: bool, askedAt: Option<nat>)
                 | Paired

  datatype Status = Connecting | NeedsPin | WaitingForApproval | ShowCode(text: string) | PairingFailed
                  | PairingExpired | Online | Reconnecting | Problem

  datatype State = State(id: Blob, key: Option<Blob>, phase: Phase, status: Status, backoff: nat,
                         listening: bool, keyChanged: bool, nonces: seq<Nonce>)

  datatype Request = Hello(aPub: Blob, commit: Blob) | Ask | Reveal(nA: Blob) | Uptime | Chal
                   | Beat(key: Blob, tn: Blob, chal: Blob)

  datatype Standing = SNone | SPending | SConfirm | SCodeShown | SPaired | SAborted

  datatype Refusal = PinRequired | Full | RateLimited(ms: nat) | UnknownPc | BadProof | StaleChallenge
                   | Unsupported | Other

  /** What came of one request. A reply may lack what it should carry. */
  datatype Answer = Unreachable | Malformed | Refused(why: Refusal)
                  | Ok(state: Option<Standing>, boardKey: Option<(Blob, Blob)>, chal: Option<Blob>)

  datatype Next = Wait(ms: nat) | Failed(e: Answer) | SendReveal(nA: Blob) | AskUptime | SendBeat(chal: Blob)

  function New(id: Blob, key: Option<Blob>): State {
    State(id, key, if key.Some? then Paired else Unpaired, Connecting, BACKOFF_MIN, false, false, [])
  }

  function ResetPairing(s: State): State { s.(key := None, keyChanged := true, phase := Unpaired) }

  function RequestPairing(s: State): State {
    if s.phase.Idle? then s.(phase := Unpaired, status := Connecting) else s
  }

  function FoundAgain(s: State): State {
    if s.status.Reconnecting? then s.(status := Connecting, backoff := BACKOFF_MIN) else s
  }

  function Max(a: nat, b: nat): nat { if a > b then a else b }

  function OnError(s: State, e: Answer): (State, nat)
    requires !e.Ok?
  {
    if !e.Refused? then
      (s.(status := if s.phase.Paired? then Reconnecting else Connecting,
          backoff := if s.backoff * 2 < BACKOFF_MAX then s.backoff * 2 else BACKOFF_MAX), s.backoff)
    else
      var why := e.why;
      if why.PinRequired? then (s.(status := NeedsPin), PIN_WAIT)
      else if why.RateLimited? then (s, Max(why.ms, 1000))
      else if (why.UnknownPc? || why.BadProof?) && s.phase.Paired? then
        (ResetPairing(s).(status := Connecting), BACKOFF_MIN)
      else if why.StaleChallenge? then (s, BACKOFF_MIN)
      else if why.BadProof? then (s.(phase := Idle, status := PairingFailed), IDLE_WAIT)
      else (s.(status := Problem), BACKOFF_MAX)
  }

  // ---- pairing ----

  function PollRequest(c: Scheme, s: State): Request
    requires s.phase.Pairing?
  {
    if s.phase.announced then Ask else Hello(APub(c, s.phase.init), Commitment(c, s.phase.init))
  }

  /** The answer to hello or state. */
  function OnPoll(c: Scheme, s: State, a: Answer, now: nat): (State, Next)
    requires s.phase.Pairing?
  {
    if !a.Ok? then (s, Failed(a))
    else
      var p := s.phase.(announced := true, askedAt := if s.phase.announced then s.phase.askedAt else Some(now));
      var s1 := s.(phase := p);
      if a.state.None? then (s1, Failed(Malformed))
      else match a.state.value
        case SPending => (s1.(status := WaitingForApproval), Wait(PAIR_POLL))
        case SConfirm =>
          if a.boardKey.None? then (s1, Failed(Malformed))
          else
            var done := Complete(c, p.init, a.boardKey.value.0, a.boardKey.value.1);
            if done.None? then (s1.(phase := Idle, status := PairingFailed), Wait(IDLE_WAIT))
            else (s1.(phase := p.(confirmed := done)), SendReveal(done.value.nA))
        case SCodeShown =>
          if p.confirmed.Some? then (s1.(status := ShowCode(Decimal.FormatCode(p.confirmed.value.code))), Wait(PAIR_POLL))
          else (s1.(phase := Unpaired), Wait(PAIR_POLL))
        case SPaired =>
          if p.confirmed.Some? then
            (s1.(key := Some(p.confirmed.value.key), keyChanged := true, status := Connecting, phase := Paired), Wait(0))
          else (s1.(phase := Unpaired), Wait(PAIR_POLL))
        case SNone =>
          if p.askedAt.Some? then (s1, AskUptime) else (s1.(phase := Idle, status := PairingExpired), Wait(IDLE_WAIT))
        case SAborted => (s1.(phase := Idle, status := PairingFailed), Wait(IDLE_WAIT))
  }

  function OnReveal(s: State, a: Answer): (State, Next)
    requires s.phase.Pairing? && s.phase.confirmed.Some?
  {
    if !a.Ok? then (s, Failed(a))
    else (s.(status := ShowCode(Decimal.FormatCode(s.phase.confirmed.value.code))), Wait(PAIR_POLL))
  }

  /** A board up for less than the time since it took our request has restarted. */
  predicate Restarted(up: Option<nat>, asked: nat) { up.Some? && up.value * 1000 + 1000 < asked }

  function Elapsed(from: nat, to: nat): nat { if from <= to then to - from else 0 }

  /** The answer to how long the board has been up, after it said it knows no request. */
  function OnUptime(s: State, up: Option<nat>, now: nat): (State, Next)
    requires s.phase.Pairing? && s.phase.askedAt.Some?
  {
    if Restarted(up, Elapsed(s.phase.askedAt.value, now))
    then (s.(phase := s.phase.(announced := false, askedAt := None)), Wait(0))
    else (s.(phase := Idle, status := PairingExpired), Wait(IDLE_WAIT))
  }

  // ---- heartbeat ----

  /** The nonce is announced before the board can hand out a ticket naming it. */
  function OnChal(s: State, a: Answer, tn: Blob, now: nat): (State, Next) {
    if !a.Ok? then (s, Failed(a))
    else if a.chal.None? then (s, Failed(Malformed))
    else (s.(nonces := Announce(s.nonces, tn, now)), SendBeat(a.chal.value))
  }

  function OnBeat(s: State, a: Answer): (State, Next) {
    if !a.Ok? then (s, Failed(a)) else (s.(status := Online), Wait(BEAT_EVERY))
  }

  // ---- one step ----

  /** Everything outside the app that one step meets: the attempt it would start, the answers
      to its first and second request, the board's uptime, the time at each look, a nonce. */
  datatype World = World(init: Option<Initiator>, first: Answer, second: Answer, up: Option<nat>,
                         now1: nat, now2: nat, tn: Blob)

  datatype Outcome = Outcome(s: State, wait: nat, sent: seq<Request>)

  function Finish(s: State, n: Next, sent: seq<Request>): Outcome
    requires n.Wait? || (n.Failed? && !n.e.Ok?)
  {
    if n.Wait? then Outcome(s.(backoff := BACKOFF_MIN), n.ms, sent)
    else var (s', w) := OnError(s, n.e); Outcome(s', w, sent)
  }

  function StepPairing(c: Scheme, s: State, w: World): Outcome
    requires s.phase.Pairing?
  {
    var req := PollRequest(c, s);
    var (s1, n1) := OnPoll(c, s, w.first, w.now1);
    if n1.SendReveal? then var (s2, n2) := OnReveal(s1, w.second); Finish(s2, n2, [req, Reveal(n1.nA)])
    else if n1.AskUptime? then var (s2, n2) := OnUptime(s1, w.up, w.now2); Finish(s2, n2, [req, Uptime])
    else Finish(s1, n1, [req])
  }

  function StepBeat(s: State, w: World): Outcome {
    if s.key.None? then Finish(s.(phase := Unpaired), Wait(0), [])
    else if !s.listening then Finish(s.(status := Connecting), Wait(PAIR_POLL), [])
    else
      var (s1, n1) := OnChal(s, w.first, w.tn, w.now1);
      if n1.SendBeat? then
        var (s2, n2) := OnBeat(s1, w.second); Finish(s2, n2, [Chal, Beat(s.key.value, w.tn, n1.chal)])
      else Finish(s1, n1, [Chal])
  }

  function Step(c: Scheme, s: State, w: World): Outcome {
    match s.phase
    case Idle => Outcome(s, IDLE_WAIT, [])
    case Unpaired =>
      if w.init.None? then Finish(s, Failed(Unreachable), [])
      else StepPairing(c, s.(phase := Pairing(w.init.value, None, false, None)), w)
    case Pairing(_, _, _, _) => StepPairing(c, s, w)
    case Paired => StepBeat(s, w)
  }

  // ---- what the app promises ----

  /** ORestart: the app ends and starts again with what it kept, its id and its key. */
  datatype Op = OStep(w: World) | OPair | OReset | OFound | OListen | ORestart

  function Do(c: Scheme, s: State, o: Op): (State, seq<Request>) {
    match o
    case OStep(w) => var r := Step(c, s, w); (r.s, r.sent)
    case OPair => (RequestPairing(s), [])
    case OReset => (ResetPairing(s), [])
    case OFound => (FoundAgain(s), [])
    case OListen => (s.(listening := true), [])
    case ORestart => (New(s.id, s.key), [])
  }

  function DoAll(c: Scheme, s: State, ops: seq<Op>): State
    decreases ops
  {
    if ops == [] then s else DoAll(c, Do(c, s, ops[0]).0, ops[1..])
  }

  function SentIn(c: Scheme, s: State, ops: seq<Op>): seq<Request>
    decreases ops
  {
    if ops == [] then [] else Do(c, s, ops[0]).1 + SentIn(c, Do(c, s, ops[0]).0, ops[1..])
  }

  /** The user asks to pair, or starts the app anew. */
  predicate UserAsks(o: Op) { o.OPair? || o.OReset? || o.ORestart? }

  /** A restart does ask again, unprompted: an app without a key starts a new attempt. */
  lemma RestartAsks(c: Scheme, s: State, w: World)
    requires s.phase.Idle? && s.key == None && w.init.Some?
    ensures SentIn(c, s, [ORestart, OStep(w)]) != []
    ensures SentIn(c, s, [ORestart, OStep(w)])[0] == Hello(APub(c, w.init.value), Commitment(c, w.init.value))
  {
    var s1 := New(s.id, None);
    assert [ORestart, OStep(w)][1..] == [OStep(w)] && [OStep(w)][1..] == [];
    assert SentIn(c, s, [ORestart, OStep(w)]) == [] + SentIn(c, s1, [OStep(w)]);
    assert SentIn(c, s1, [OStep(w)]) == Step(c, s1, w).sent + SentIn(c, Step(c, s1, w).s, []);
  }

  /** The answers that end an attempt: it is gone with no sign of a restart, aborted, or its
      proof was broken in transit. */
  ghost predicate EndsAttempt(c: Scheme, s: State, w: World)
    requires s.phase.Pairing?
  {
    var asked := if s.phase.announced then s.phase.askedAt else Some(w.now1);
    || (w.first.Ok? && w.first.state == Some(SAborted))
    || (w.first.Ok? && w.first.state == Some(SNone)
        && (asked.None? || !Restarted(w.up, Elapsed(asked.value, w.now2))))
    || w.first == Refused(BadProof)
    || (w.first.Ok? && w.first.state == Some(SConfirm) && w.first.boardKey.Some?
        && OnPoll(c, s, w.first, w.now1).1.SendReveal? && w.second == Refused(BadProof))
  }

  lemma EndsInIdle(c: Scheme, s: State, w: World)
    requires s.phase.Pairing? && EndsAttempt(c, s, w)
    ensures StepPairing(c, s, w).s.phase.Idle?
  {
  }

  /** After such an answer the app sends nothing, for as long as the user does not ask. */
  lemma NeverPesters(c: Scheme, s: State, w: World, ops: seq<Op>)
    requires s.phase.Pairing? && EndsAttempt(c, s, w)
    requires forall i :: 0 <= i < |ops| ==> !UserAsks(ops[i])
    ensures SentIn(c, Step(c, s, w).s, ops) == []
  {
    EndsInIdle(c, s, w);
    QuietWhileIdle(c, Step(c, s, w).s, ops);
  }

  lemma {:induction false} QuietWhileIdle(c: Scheme, s: State, ops: seq<Op>)
    requires s.phase.Idle?
    requires forall i :: 0 <= i < |ops| ==> !UserAsks(ops[i])
    ensures SentIn(c, s, ops) == [] && DoAll(c, s, ops).phase.Idle?
    decreases ops
  {
    if ops != [] {
      assert !UserAsks(ops[0]);
      QuietWhileIdle(c, Do(c, s, ops[0]).0, ops[1..]);
    }
  }

  /** k is what some attempt among inits would derive. */
  ghost predicate DerivedFrom(c: Scheme, inits: set<Initiator>, k: Blob) {
    exists i, bPub, nB :: i in inits && Complete(c, i, bPub, nB) != None && Complete(c, i, bPub, nB).value.key == k
  }

  /** The attempts the steps of ops may start. */
  ghost function Started(ops: seq<Op>): set<Initiator> {
    if ops == [] then {}
    else Started(ops[1..]) + if ops[0].OStep? && ops[0].w.init.Some? then {ops[0].w.init.value} else {}
  }

  /** Every key held, or about to be taken, was derived by an attempt among inits. */
  ghost predicate KeysFrom(c: Scheme, s: State, inits: set<Initiator>) {
    && (s.key.Some? ==> DerivedFrom(c, inits, s.key.value))
    && (s.phase.Pairing? ==> s.phase.init in inits)
    && (s.phase.Pairing? && s.phase.confirmed.Some? ==> DerivedFrom(c, inits, s.phase.confirmed.value.key))
  }

  ghost predicate BeatsFrom(c: Scheme, sent: seq<Request>, inits: set<Initiator>) {
    forall i :: 0 <= i < |sent| && sent[i].Beat? ==> DerivedFrom(c, inits, sent[i].key)
  }

  lemma OpKeepsKeys(c: Scheme, s: State, o: Op, inits: set<Initiator>)
    requires KeysFrom(c, s, inits)
    requires o.OStep? && o.w.init.Some? ==> o.w.init.value in inits
    ensures KeysFrom(c, Do(c, s, o).0, inits) && BeatsFrom(c, Do(c, s, o).1, inits)
  {
    if o.OStep? && (s.phase.Pairing? || (s.phase.Unpaired? && o.w.init.Some?)) {
      var s0 := if s.phase.Pairing? then s else s.(phase := Pairing(o.w.init.value, None, false, None));
      PairingKeepsKeys(c, s0, o.w, inits);
    }
  }

  lemma PairingKeepsKeys(c: Scheme, s: State, w: World, inits: set<Initiator>)
    requires s.phase.Pairing? && KeysFrom(c, s, inits)
    ensures KeysFrom(c, StepPairing(c, s, w).s, inits)
  {
    PollKeepsKeys(c, s, w, inits);
    var (s1, n1) := OnPoll(c, s, w.first, w.now1);
    if n1.SendReveal? { FinishKeepsKeys(c, OnReveal(s1, w.second).0, OnReveal(s1, w.second).1, [], inits); }
    else if n1.AskUptime? { FinishKeepsKeys(c, OnUptime(s1, w.up, w.now2).0, OnUptime(s1, w.up, w.now2).1, [], inits); }
    else { FinishKeepsKeys(c, s1, n1, [], inits); }
  }

  lemma FinishKeepsKeys(c: Scheme, s: State, n: Next, sent: seq<Request>, inits: set<Initiator>)
    requires KeysFrom(c, s, inits) && (n.Wait? || (n.Failed? && !n.e.Ok?))
    ensures KeysFrom(c, Finish(s, n, sent).s, inits)
  {
  }

  lemma PollKeepsKeys(c: Scheme, s: State, w: World, inits: set<Initiator>)
    requires s.phase.Pairing? && KeysFrom(c, s, inits)
    ensures KeysFrom(c, OnPoll(c, s, w.first, w.now1).0, inits)
  {
  }

  lemma {:induction false} OpsKeepKeys(c: Scheme, s: State, ops: seq<Op>, inits: set<Initiator>)
    requires KeysFrom(c, s, inits) && Started(ops) <= inits
    ensures BeatsFrom(c, SentIn(c, s, ops), inits)
    decreases ops
  {
    if ops != [] {
      OpKeepsKeys(c, s, ops[0], inits);
      OpsKeepKeys(c, Do(c, s, ops[0]).0, ops[1..], inits);
    }
  }

  // ---- dead keys ----

  /** No answer of the board's makes the attempt i derive a key among dead. */
  ghost predicate Clear(c: Scheme, i: Initiator, dead: set<Blob>) {
    forall bPub, nB :: Complete(c, i, bPub, nB) != None ==> Complete(c, i, bPub, nB).value.key !in dead
  }

  /** No dead key is held, or about to be taken. */
  ghost predicate NoneDead(c: Scheme, s: State, dead: set<Blob>) {
    && (s.key.Some? ==> s.key.value !in dead)
    && (s.phase.Pairing? ==> Clear(c, s.phase.init, dead))
    && (s.phase.Pairing? && s.phase.confirmed.Some? ==> s.phase.confirmed.value.key !in dead)
  }

  /** The key a step lost to a refusal. */
  function Lost(s: State, s': State): set<Blob> {
    if s.phase.Paired? && s.key.Some? && s'.key.None? then {s.key.value} else {}
  }

  /** A step never comes to hold a dead key, the one it just lost included; its heartbeats use
      the key it held; and idle it does nothing. */
  lemma StepNoneDead(c: Scheme, s: State, w: World, dead: set<Blob>)
    requires NoneDead(c, s, dead) && (w.init.Some? ==> Clear(c, w.init.value, dead))
    ensures var o := Step(c, s, w);
      && NoneDead(c, o.s, dead + Lost(s, o.s))
      && (forall i :: 0 <= i < |o.sent| && o.sent[i].Beat? ==> s.key == Some(o.sent[i].key))
      && (s.phase.Idle? ==> o.sent == [] && o.s == s)
  {
    if s.phase.Pairing? || (s.phase.Unpaired? && w.init.Some?) {
      var s0 := if s.phase.Pairing? then s else s.(phase := Pairing(w.init.value, None, false, None));
      PairingNoneDead(c, s0, w, dead);
    }
  }

  lemma PairingNoneDead(c: Scheme, s: State, w: World, dead: set<Blob>)
    requires s.phase.Pairing? && NoneDead(c, s, dead)
    ensures var o := StepPairing(c, s, w);
      NoneDead(c, o.s, dead) && forall i :: 0 <= i < |o.sent| ==> !o.sent[i].Beat?
  {
    PollNoneDead(c, s, w, dead);
    var (s1, n1) := OnPoll(c, s, w.first, w.now1);
    if n1.SendReveal? { FinishNoneDead(c, OnReveal(s1, w.second).0, OnReveal(s1, w.second).1, dead); }
    else if n1.AskUptime? { FinishNoneDead(c, OnUptime(s1, w.up, w.now2).0, OnUptime(s1, w.up, w.now2).1, dead); }
    else { FinishNoneDead(c, s1, n1, dead); }
  }

  lemma FinishNoneDead(c: Scheme, s: State, n: Next, dead: set<Blob>)
    requires NoneDead(c, s, dead) && (n.Wait? || (n.Failed? && !n.e.Ok?))
    ensures forall sent :: NoneDead(c, Finish(s, n, sent).s, dead)
  {
  }

  lemma PollNoneDead(c: Scheme, s: State, w: World, dead: set<Blob>)
    requires s.phase.Pairing? && NoneDead(c, s, dead)
    ensures NoneDead(c, OnPoll(c, s, w.first, w.now1).0, dead)
  {
  }

  /** Distinct attempts derive distinct keys. */
  ghost predicate KeysDiffer(c: Scheme) {
    forall i, j, b1, n1, b2, n2 :: i != j && Complete(c, i, b1, n1) != None && Complete(c, j, b2, n2) != None ==>
      Complete(c, i, b1, n1).value.key != Complete(c, j, b2, n2).value.key
  }

  /** Schemes whose attempts derive distinct keys exist, beside the laws. */
  lemma KeysCanDiffer()
    ensures Plain().Laws() && KeysDiffer(Plain())
  {
    LawsCanHold();
    var c := Plain();
    forall i, j, b1, n1, b2, n2 | i != j && Complete(c, i, b1, n1) != None && Complete(c, j, b2, n2) != None
      ensures Complete(c, i, b1, n1).value.key != Complete(c, j, b2, n2).value.key
    {
      if Complete(c, i, b1, n1).value.key == Complete(c, j, b2, n2).value.key {
        PairIsInjective(c.dh(i.secret, b1), Pair(i.secret, Pair(b1, Pair(i.nA, n1))), c.dh(j.secret, b2), Pair(j.secret, Pair(b2, Pair(j.nA, n2))));
        PairIsInjective(i.secret, Pair(b1, Pair(i.nA, n1)), j.secret, Pair(b2, Pair(j.nA, n2)));
        PairIsInjective(b1, Pair(i.nA, n1), b2, Pair(j.nA, n2));
        PairIsInjective(i.nA, n1, j.nA, n2);
      }
    }
  }

  /** The board does not know the computer, or its proof is wrong. */
  predicate Rejects(a: Answer) { a == Refused(BadProof) || a == Refused(UnknownPc) }

  /** A key the board rejected is dropped at once and never proves another heartbeat: every
      later one uses a key of an attempt started after the rejection. */
  lemma RejectedKeyIsDead(c: Scheme, s: State, w: World, ops: seq<Op>, prior: Initiator, bPub: Blob, nB: Blob)
    requires s.phase.Paired? && s.key.Some? && s.listening
    requires Rejects(w.first) || (w.first.Ok? && w.first.chal.Some? && Rejects(w.second))
    requires KeysDiffer(c) && Complete(c, prior, bPub, nB) != None && s.key.value == Complete(c, prior, bPub, nB).value.key
    requires prior !in Started(ops)
    ensures var s1 := Step(c, s, w).s;
      && s1.key == None && s1.keyChanged && s1.phase.Unpaired?
      && BeatsFrom(c, SentIn(c, s1, ops), Started(ops))
      && forall i :: 0 <= i < |SentIn(c, s1, ops)| ==>
           SentIn(c, s1, ops)[i].Beat? ==> SentIn(c, s1, ops)[i].key != s.key.value
  {
    OpsKeepKeys(c, Step(c, s, w).s, ops, Started(ops));
  }

  // ---- errors, waits and what the user is told ----

  /** What each error leaves, entirely: only a paired app whose key is rejected drops it, only a broken
      proof while pairing ends an attempt, and being told to slow down or to ask for a new challenge
      changes nothing; the wait is at least what the board asked for. */
  lemma ErrorTells(s: State, e: Answer)
    requires !e.Ok?
    ensures var (s', wait) := OnError(s, e);
      && (!e.Refused? ==> s' == s.(status := if s.phase.Paired? then Reconnecting else Connecting, backoff := s'.backoff)
                          && wait == s.backoff && s'.backoff == Least(2 * s.backoff, BACKOFF_MAX))
      && (Rejects(e) && s.phase.Paired? ==>
            s' == s.(key := None, keyChanged := true, phase := Unpaired, status := Connecting) && wait == 1000)
      && (e == Refused(BadProof) && !s.phase.Paired? ==> s' == s.(phase := Idle, status := PairingFailed) && wait == 60_000)
      && (e == Refused(PinRequired) ==> s' == s.(status := NeedsPin) && wait == 10_000)
      && (e == Refused(StaleChallenge) ==> s' == s && wait == 1000)
      && (e.Refused? && e.why.RateLimited? ==> s' == s && wait >= e.why.ms && wait >= 1000 && (wait == e.why.ms || wait == 1000))
      && (e == Refused(Full) || e == Refused(Unsupported) || e == Refused(Other) || (e == Refused(UnknownPc) && !s.phase.Paired?) ==>
            s' == s.(status := Problem) && wait == 30_000)
  {
  }

  function Least(a: nat, b: nat): nat { if a < b then a else b }

  function Pow2(n: nat): nat { if n == 0 then 1 else 2 * Pow2(n - 1) }

  /** The states through these steps. */
  function After(c: Scheme, s: State, ws: seq<World>): State {
    if ws == [] then s else Step(c, After(c, s, ws[..|ws| - 1]), ws[|ws| - 1]).s
  }

  /** The app has something to ask and hears nothing. */
  predicate Unheard(s: State, w: World) {
    && (w.first == Unreachable || w.first == Malformed)
    && (s.phase.Paired? ==> s.key.Some? && s.listening) && !s.phase.Idle?
  }

  /** Out of reach, the app waits twice as long each time, from one second up to half a minute, stays
      in its phase and keeps its key. */
  lemma {:induction false} BacksOff(c: Scheme, s: State, ws: seq<World>, n: nat)
    requires n < |ws| && s.backoff == BACKOFF_MIN && Unheard(s, ws[0])
    requires forall i :: 0 <= i < |ws| ==> ws[i].first == Unreachable || ws[i].first == Malformed
    ensures var s', w := After(c, s, ws[..n]), ws[n];
      && Unheard(s', w) && s'.key == s.key && (s'.phase.Paired? <==> s.phase.Paired?)
      && s'.backoff == Least(1000 * Pow2(n), 30_000) && Step(c, s', w).wait == s'.backoff
      && (n > 0 ==> s'.status == if s.phase.Paired? then Reconnecting else Connecting)
  {
    if n > 0 {
      BacksOff(c, s, ws, n - 1);
      assert ws[..n][..n - 1] == ws[..n - 1] && ws[..n][n - 1] == ws[n - 1];
      UnheardStep(c, After(c, s, ws[..n - 1]), ws[n - 1]);
    }
    UnheardStep(c, After(c, s, ws[..n]), ws[n]);
  }

  lemma UnheardStep(c: Scheme, s: State, w: World)
    requires Unheard(s, w)
    ensures var o := Step(c, s, w);
      && o.wait == s.backoff && o.s.backoff == Least(2 * s.backoff, 30_000) && o.s.key == s.key
      && (o.s.phase.Paired? <==> s.phase.Paired?) && !o.s.phase.Idle? && o.s.listening == s.listening
      && o.s.status == if s.phase.Paired? then Reconnecting else Connecting
  {
  }

  /** A step that is answered waits for as long as what it leaves: a minute when idle, a second while
      an attempt goes on, not at all to use a key or to ask a restarted board again; and it starts
      the back-off anew. */
  lemma AnsweredWaits(c: Scheme, s: State, w: World)
    requires s.phase.Pairing? && w.first.Ok? && w.first.state.Some?
    requires w.first.state == Some(SConfirm) ==> w.first.boardKey.Some? && w.second.Ok?
    ensures var o := StepPairing(c, s, w);
      && o.s.backoff == BACKOFF_MIN
      && o.wait == if o.s.phase.Idle? then 60_000
                   else if o.s.phase.Paired? || (o.s.phase.Pairing? && !o.s.phase.announced) then 0 else 1000
  {
  }

  /** A heartbeat that is answered: the nonce was announced, the app says online and waits 20 s. */
  lemma BeatAnswered(c: Scheme, s: State, w: World)
    requires s.phase.Paired? && s.key.Some? && s.listening && w.first.Ok? && w.first.chal.Some? && w.second.Ok?
    ensures var o := Step(c, s, w);
      && o.s == s.(status := Online, backoff := BACKOFF_MIN, nonces := Announce(s.nonces, w.tn, w.now1))
      && o.wait == 20_000 && o.sent == [Chal, Beat(s.key.value, w.tn, w.first.chal.value)]
  {
  }

  /** Without a listener a paired app sends nothing and stays paired; without a key it pairs anew. */
  lemma NothingToSend(c: Scheme, s: State, w: World)
    requires s.phase.Paired? && (s.key.None? || !s.listening)
    ensures var o := Step(c, s, w);
      && o.sent == [] && o.s.key == s.key
      && if s.key.None? then o.s.phase.Unpaired? && o.wait == 0 else o.s.phase.Paired? && o.s.status == Connecting && o.wait == 1000
  {
  }

  /** Found again, a lost session tries at once; any other is left as it is. */
  lemma FoundTries(s: State)
    ensures FoundAgain(s) == if s.status == Reconnecting then s.(status := Connecting, backoff := 1000) else s
  {
  }

  // ---- what the app sends ----

  /** A poll says hello until the board has answered once in this attempt, and only asks after that. */
  lemma HelloUntilHeard(c: Scheme, s: State, w: World)
    requires s.phase.Pairing?
    ensures var o := Step(c, s, w);
      && o.sent != []
      && o.sent[0] == (if s.phase.announced then Ask else Hello(APub(c, s.phase.init), Commitment(c, s.phase.init)))
      && (w.first.Ok? && o.s.phase.Pairing? && !(o.sent == [o.sent[0], Uptime]) ==> o.s.phase.announced)
      && (!w.first.Ok? && o.s.phase.Pairing? ==> o.s.phase == s.phase)
  {
  }

  /** The nonce is revealed exactly to a board whose key the attempt can use; a low-order one ends it. */
  lemma RevealsToUsable(c: Scheme, s: State, w: World)
    requires s.phase.Pairing? && w.first.Ok? && w.first.state == Some(SConfirm) && w.first.boardKey.Some?
    ensures var o := Step(c, s, w);
      if c.dh(s.phase.init.secret, w.first.boardKey.value.0) == 0
      then |o.sent| == 1 && o.s.phase.Idle? && o.s.status == PairingFailed && o.wait == 60_000
      else |o.sent| == 2 && o.sent[1] == Reveal(s.phase.init.nA)
  {
  }

  /** The board knows of no request: it restarted, if it has been up for a second less than the app has
      waited, and is asked anew; else the attempt expired. */
  lemma UptimeTells(s: State, up: Option<nat>, now: nat)
    requires s.phase.Pairing? && s.phase.askedAt.Some? && now >= s.phase.askedAt.value
    ensures var (s', n) := OnUptime(s, up, now);
      if up.Some? && 1000 * up.value + 1000 < now - s.phase.askedAt.value
      then s' == s.(phase := s.phase.(announced := false, askedAt := None)) && n == Wait(0)
      else s' == s.(phase := Idle, status := PairingExpired) && n == Wait(60_000)
  {
  }

  /** Asked to pair, an idle app announces a new attempt at its next step; any other is left as it is. */
  lemma AskingStarts(c: Scheme, s: State, w: World)
    ensures !s.phase.Idle? ==> RequestPairing(s) == s
    ensures s.phase.Idle? && w.init.Some? ==>
      var s1 := RequestPairing(s);
      && s1.status == Connecting && s1.key == s.key
      && Step(c, s1, w).sent != [] && Step(c, s1, w).sent[0] == Hello(APub(c, w.init.value), Commitment(c, w.init.value))
  {
  }

  /** An app started with a key goes on with its heartbeats once it listens; until then it shows that
      it connects and sends nothing. Idle it waits a minute at a time. */
  lemma StartsWithKey(c: Scheme, id: Blob, key: Blob, w: World)
    requires w.first.Ok? && w.first.chal.Some?
    ensures var s := New(id, Some(key));
      && s.key == Some(key) && s.id == id && s.status == Connecting && !s.keyChanged && s.nonces == [] && s.backoff == 1000
      && Step(c, s, w).sent == []
      && Step(c, s.(listening := true), w).sent == [Chal, Beat(key, w.tn, w.first.chal.value)]
    ensures New(id, None) == New(id, Some(key)).(key := None, phase := Unpaired)
  {
  }

  lemma IdleWaits(c: Scheme, s: State, w: World)
    requires s.phase.Idle?
    ensures Step(c, s, w) == Outcome(s, 60_000, [])
  {
  }
}
