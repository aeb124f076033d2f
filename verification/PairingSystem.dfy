/** One app and one board over a network that may lose a request or its reply, with other
    computers, dashboards, time, restarts and wipes in between. */
module PairingSystem {
  import opened Common
  import opened Crypto
  import B = PairingBoard
  import S = Session
  import Clock32

  /** What the app still has to do in its current step. */
  datatype Step = Rest | WantReveal | WantUptime

  /** used: the app's attempts so far, by their public keys. keeper: the public key of the attempt
      whose code made the board's pairing of this computer. clean: the live attempt was accepted
      while the board held no pairing for this computer. acked: its hello was acknowledged and
      the app still counts on it. time: the clock both sides live under. */
  datatype Sys = Sys(board: B.Board, app: S.State, step: Step, time: nat,
                     used: map<Blob, S.Initiator>, keeper: Option<Blob>, clean: bool, acked: bool)

  datatype Delivery = Lost | ReplyLost | TurnedAway(why: S.Refusal) | Through

  datatype Event =
    | Poll(d: Delivery, init: S.Initiator, name: string, ip: nat)
    | Reveal(d: Delivery, keysOk: bool)
    | Uptime(answered: bool)
    | AppError(answer: S.Answer)          // a heartbeat's answer, while paired
    | AskToPair | ResetPairing | AppRestart
    | Elsewhere(event: B.Event)        // anything else that happens to the board

  function Start(id: Blob): Sys {
    Sys(B.Start(), S.New(id, None), Rest, 0, map[], None, false, false)
  }

  function Word(r: B.Refusal): S.Refusal {
    match r
    case PinRequired => S.PinRequired
    case Full => S.Full
    case BadMac => S.BadProof
    case _ => S.Other
  }

  /** The board's refusals the app acts on; every other word is only shown. */
  lemma WordTells(r: B.Refusal)
    ensures Word(r) == S.PinRequired <==> r == B.PinRequired
    ensures Word(r) == S.Full <==> r == B.Full
    ensures Word(r) == S.BadProof <==> r == B.BadMac
    ensures Word(r) != S.Other ==> r == B.PinRequired || r == B.Full || r == B.BadMac
  {
  }

  function Translate(p: B.PairState): S.Standing {
    match p
    case SNone => S.SNone
    case SPending => S.SPending
    case SConfirm => S.SConfirm
    case SCodeShown => S.SCodeShown
    case SPaired => S.SPaired
    case SAborted => S.SAborted
  }

  /** The reply as the app reads it. */
  function Read(r: B.Reply): S.Answer {
    match r
    case Standing(p, bPub, nB) => S.Ok(Some(Translate(p)), if p.SConfirm? then Some((bPub, nB)) else None, None)
    case Refused(w) => S.Refused(Word(w))
    case Done => S.Ok(None, None, None)
  }

  /** The board after a request, and what the app hears. */
  function Carry(c: Scheme, b: B.Board, e: B.Event, d: Delivery): (B.Board, S.Answer)
    requires B.Shape(b) && B.Possible(e)
  {
    match d
    case Lost => (b, S.Unreachable)
    case TurnedAway(why) => (b, S.Refused(why))
    case ReplyLost => (B.Handle(c, b, e).0, S.Unreachable)
    case Through => (B.Handle(c, b, e).0, Read(B.Handle(c, b, e).1))
  }

  /** The step's end: waiting, or what an error does. */
  function Settle(s: S.State, n: S.Next): S.State {
    if n.Failed? && !n.e.Ok? then S.OnError(s, n.e).0 else s
  }

  function StepAfter(n: S.Next): Step {
    if n.SendReveal? then WantReveal else if n.AskUptime? then WantUptime else Rest
  }

  /** The app with an attempt under way: the one it has, or a new one. */
  function WithAttempt(s: S.State, init: S.Initiator): S.State {
    if s.phase.Unpaired? then s.(phase := S.Pairing(init, None, false, None)) else s
  }

  function PollEvent(c: Scheme, s: S.State, name: string, ip: nat): B.Event
    requires s.phase.Pairing?
  {
    if s.phase.announced then B.EState(s.id, ip)
    else B.EHello(1, s.id, name, S.APub(c, s.phase.init), S.Commitment(c, s.phase.init), ip)
  }

  /** What the system's poll carries is what the app sends. */
  lemma PollIsSent(c: Scheme, s: S.State, name: string, ip: nat)
    requires s.phase.Pairing?
    ensures var e := PollEvent(c, s, name, ip);
      match S.PollRequest(c, s)
      case Ask => e == B.EState(s.id, ip)
      case Hello(aPub, commit) => e == B.EHello(1, s.id, name, aPub, commit, ip)
      case _ => false
  {
  }

  /** The board's request for this computer, and its pairing key. */
  function RequestOf(ps: seq<B.Request>, id: Blob): (r: Option<B.Request>)
    ensures r.Some? ==> r.value.id == id && r.value.phase != B.Free
  {
    var pi := B.FindPending(ps, id);
    if pi >= 0 then Some(ps[pi]) else None
  }

  function MyRequest(b: B.Board, id: Blob): Option<B.Request> { RequestOf(b.pending, id) }

  function KeyIn(es: seq<B.Entry>, id: Blob): Option<Blob> {
    var k := B.FindPaired(es, id);
    if k >= 0 then Some(es[k].key) else None
  }

  function MyKey(b: B.Board, id: Blob): Option<Blob> { KeyIn(b.paired, id) }

  /** The board takes e as a new attempt. */
  predicate Accepts(c: Scheme, b: B.Board, e: B.Event, d: Delivery)
    requires B.Shape(b) && B.Possible(e)
  {
    && e.EHello? && (d.ReplyLost? || d.Through?) && B.Handle(c, b, e).1.Standing?
    && var r := MyRequest(b, e.id);
    !(r.Some? && B.SameAttempt(r.value, e.aPub, e.commit))
  }

  function DoPoll(c: Scheme, y: Sys, d: Delivery, init: S.Initiator, name: string, ip: nat): Sys
    requires B.Shape(y.board) && y.step.Rest? && (y.app.phase.Unpaired? || y.app.phase.Pairing?)
  {
    var isNew := y.app.phase.Unpaired?;
    var app := WithAttempt(y.app, init);
    var e := PollEvent(c, app, name, ip);
    var (b, a) := Carry(c, y.board, e, d);
    var (app1, n) := S.OnPoll(c, app, a, y.time);
    Polling(y, b, Settle(app1, n), StepAfter(n), y.used[S.APub(c, app.phase.init) := app.phase.init],
            if Accepts(c, y.board, e, d) then MyKey(y.board, app.id) == None else !isNew && y.clean,
            (a.Ok? && !app.phase.announced) || (!isNew && y.acked))
  }

  function Polling(y: Sys, b: B.Board, app: S.State, step: Step, used: map<Blob, S.Initiator>, clean: bool, acked: bool): Sys {
    y.(board := b, app := app, step := step, used := used,
       clean := app.phase.Pairing? && clean, acked := app.phase.Pairing? && acked)
  }

  function DoReveal(c: Scheme, y: Sys, d: Delivery, keysOk: bool): Sys
    requires B.Shape(y.board) && y.step.WantReveal? && y.app.phase.Pairing? && y.app.phase.confirmed.Some?
  {
    var (b, a) := Carry(c, y.board, B.EReveal(y.app.id, y.app.phase.confirmed.value.nA, keysOk), d);
    var (app1, n) := S.OnReveal(y.app, a);
    Polling(y, b, Settle(app1, n), Rest, y.used, y.clean, y.acked)
  }

  /** The board answers with its time since start in whole seconds, by its 32-bit clock. */
  function DoUptime(y: Sys, answered: bool): Sys
    requires y.step.WantUptime? && y.app.phase.Pairing? && y.app.phase.askedAt.Some?
  {
    var (app1, _) := S.OnUptime(y.app, if answered then Some(Clock32.Millis(y.board.now) / 1000) else None, y.time);
    y.(app := app1, step := Rest, clean := y.clean && app1.phase.Pairing?,
       acked := y.acked && app1.phase.Pairing? && app1.phase.announced)
  }

  function Leave(y: Sys, app: S.State): Sys {
    y.(app := app, step := Rest, clean := y.clean && app.phase.Pairing? && y.app.phase.Pairing?,
       acked := y.acked && app.phase.Pairing? && y.app.phase.Pairing?)
  }

  /** The code of request r was typed right: the request is gone and a pairing may stand for it. */
  predicate Kept(id: Blob, e: B.Event, r: Option<B.Request>, r': Option<B.Request>) {
    e.ECode? && e.id == id && r.Some? && r.value.phase.CodeShown? && r' == None
  }

  function NextKeeper(id: Blob, e: B.Event, r: Option<B.Request>, r': Option<B.Request>, k': Option<Blob>,
                      keeper: Option<Blob>): Option<Blob>
  {
    if k' == None then None else if Kept(id, e, r, r') then Some(r.value.aPub) else keeper
  }

  function Elsewhere0(c: Scheme, y: Sys, e: B.Event): Sys
    requires B.Shape(y.board) && B.Possible(e)
  {
    var b, id := B.Handle(c, y.board, e).0, y.app.id;
    y.(board := b, time := if e.EPass? then y.time + e.ms else y.time,
       keeper := NextKeeper(id, e, MyRequest(y.board, id), MyRequest(b, id), MyKey(b, id), y.keeper),
       acked := y.acked && !e.ERestart?)
  }

  /** What may happen next. New attempts have new keys; hellos naming this computer come from
      this app alone, and nobody else opens its live commitment. */
  ghost predicate Allowed(c: Scheme, y: Sys, e: Event) {
    match e
    case Poll(_, init, _, _) =>
      y.step.Rest? && (y.app.phase.Pairing? || (y.app.phase.Unpaired? && S.APub(c, init) !in y.used))
    case Reveal(_, _) => y.step.WantReveal?
    case Uptime(_) => y.step.WantUptime?
    case AppError(a) => y.step.Rest? && y.app.phase.Paired? && !a.Ok?
    case AskToPair => y.step.Rest?
    case ResetPairing => y.step.Rest?
    case AppRestart => true
    case Elsewhere(b) =>
      && B.Possible(b)
      && (b.EHello? ==> b.id != y.app.id)
      && (b.EReveal? && b.id == y.app.id && y.app.phase.Pairing? ==> b.nA != y.app.phase.init.nA)
  }

  function Apply(c: Scheme, y: Sys, e: Event): Sys
    requires B.Shape(y.board) && Ready(y) && Fits(y, e)
  {
    match e
    case Poll(d, init, name, ip) => DoPoll(c, y, d, init, name, ip)
    case Reveal(d, keysOk) => DoReveal(c, y, d, keysOk)
    case Uptime(answered) => DoUptime(y, answered)
    case AppError(a) => Leave(y, S.OnError(y.app, a).0)
    case AskToPair => Leave(y, S.RequestPairing(y.app))
    case ResetPairing => Leave(y, S.ResetPairing(y.app))
    case AppRestart => Leave(y, S.New(y.app.id, y.app.key))
    case Elsewhere(b) => Elsewhere0(c, y, b)
  }

  /** A step half done has what its second half needs. */
  predicate Ready(y: Sys) {
    && (y.step.WantReveal? ==> y.app.phase.Pairing? && y.app.phase.confirmed.Some?)
    && (y.step.WantUptime? ==> y.app.phase.Pairing? && y.app.phase.askedAt.Some?)
  }

  predicate Fits(y: Sys, e: Event) {
    match e
    case Poll(_, _, _, _) => y.step.Rest? && (y.app.phase.Unpaired? || y.app.phase.Pairing?)
    case Reveal(_, _) => y.step.WantReveal?
    case Uptime(_) => y.step.WantUptime?
    case AppError(a) => !a.Ok?
    case Elsewhere(b) => B.Possible(b)
    case _ => true
  }

  // ---- the invariant ----

  /** The request in r is the one the live attempt announced. */
  ghost predicate Matches(c: Scheme, s: S.State, r: B.Request) {
    s.phase.Pairing? && r.aPub == S.APub(c, s.phase.init) && r.commit == S.Commitment(c, s.phase.init)
  }

  ghost predicate LiveRequest(r: B.Request) { r.phase.Pending? || r.phase.Confirm? || r.phase.CodeShown? }

  /** Both sides hold one code and one key. */
  ghost predicate SameSecret(s: S.State, r: B.Request) {
    && s.phase.Pairing? && s.phase.confirmed.Some?
    && s.phase.confirmed.value.code == r.code && s.phase.confirmed.value.key == r.key
  }

  /** What holds between the app and the board's request r for it. */
  ghost predicate RequestAgrees(c: Scheme, y: Sys, r: B.Request) {
    && r.aPub in y.used
    && (r.phase.Confirm? ==> r.bPub == c.pub(r.bSec))
    && (r.phase.CodeShown? && Matches(c, y.app, r) ==> SameSecret(y.app, r))
    && (y.step.WantReveal? && Matches(c, y.app, r) ==>
          && !r.phase.Pending?
          && (r.phase.Confirm? ==> y.app.phase.confirmed == S.Complete(c, y.app.phase.init, r.bPub, r.nB)))
  }

  ghost predicate AppKnows(c: Scheme, y: Sys) {
    && Ready(y)
    && (y.app.phase.Pairing? ==>
          S.APub(c, y.app.phase.init) in y.used && y.used[S.APub(c, y.app.phase.init)] == y.app.phase.init)
    && (y.app.phase.Pairing? && y.app.phase.confirmed.Some? ==> y.app.phase.confirmed.value.nA == y.app.phase.init.nA)
    && (y.clean ==> y.app.phase.Pairing?)
  }

  /** Acknowledged with no restart since: the board has been up at least that long. */
  ghost predicate AckHolds(y: Sys) {
    y.acked ==>
      && y.app.phase.Pairing? && y.app.phase.announced && y.app.phase.askedAt.Some?
      && y.app.phase.askedAt.value <= y.time && y.time - y.app.phase.askedAt.value <= y.board.now
  }

  ghost predicate Inv(c: Scheme, y: Sys) {
    && B.Tables(y.board) && AppKnows(c, y) && AckHolds(y)
    && (var r := MyRequest(y.board, y.app.id);
        r.Some? && LiveRequest(r.value) ==> RequestAgrees(c, y, r.value))
  }

  // ---- what a board event does to one computer's request and key ----

  /** r and k before, r' and k' after. */
  ghost predicate Effect(c: Scheme, id: Blob, e: B.Event,
                         r: Option<B.Request>, k: Option<Blob>, r': Option<B.Request>, k': Option<Blob>) {
    match e
    case EHello(_, id', _, aPub, commit, _) =>
      && k' == k
      && if id' != id || (r.Some? && B.SameAttempt(r.value, aPub, commit)) then r' == r || (id' != id && r' == None)
         else r' == r || r' == None || (r'.Some? && r'.value.phase.Pending? && r'.value.aPub == aPub && r'.value.commit == commit)
    case EState(_, _) =>
      k' == k && (r' == r || (r.Some? && r.value.phase.Pending? && r'.Some? && r' == Some(r.value.(at := r'.value.at))))
    case EReveal(id', nA, _) =>
      && k' == k
      && if id' != id || r.None? || !r.value.phase.Confirm? then r' == r
         else if c.commit(r.value.aPub, nA) != r.value.commit then r' == None
         else r' == None || (r'.Some? && r'.value.phase.CodeShown? && c.dh(r.value.bSec, r.value.aPub) != 0
                && r'.value.aPub == r.value.aPub && r'.value.commit == r.value.commit
                && r'.value.code == c.Sas(r.value.aPub, r.value.bPub, nA, r.value.nB)
                && r'.value.key == c.kdf(c.dh(r.value.bSec, r.value.aPub), r.value.aPub, r.value.bPub, nA, r.value.nB))
    case EApprove(id', _, bSec, nB, _) =>
      && k' == k
      && (r' == r || (id' == id && r.Some? && r.value.phase.Pending?
            && (r' == None || (r'.Some? && r'.value == r.value.(phase := B.Confirm, bSec := bSec, nB := nB,
                                                                   bPub := c.pub(bSec), at := r'.value.at)))))
    case ECode(id', _, _, _) =>
      || (r' == r && k' == k)
      || (id' == id && r.Some? && r.value.phase.CodeShown?
          && (|| (k' == k && r'.Some? && (r'.value.phase.Aborted? || r'.value == r.value.(tries := r'.value.tries)))
              || (r' == None && (k' == None || k' == Some(r.value.key)))))
    case EUnpair(id') => if id' == id then r' == None && k' == None else r' == r && k' == k
    case EPass(_) => r' == r && k' == k
    case ETick => k' == k && (r' == r || r' == None)
    case ERestart => r' == None && k' == k
    case EWipe => r' == None && k' == None
  }

  /** With distinct ids a request in the table is the one its id finds. */
  lemma Unique(ps: seq<B.Request>, i: nat)
    requires B.GoodRequests(ps) && i < |ps| && ps[i].phase != B.Free
    ensures B.FindPending(ps, ps[i].id) == i && RequestOf(ps, ps[i].id) == Some(ps[i])
  {
  }

  /** Changing one request in place, or dropping it, is seen by its own computer only. */
  lemma Changed(ps: seq<B.Request>, i: nat, p: B.Request, id: Blob)
    requires B.GoodRequests(ps) && i < |ps| && ps[i].phase != B.Free
    requires p == B.WIPED || (p.phase != B.Free && p.id == ps[i].id && p.ip == ps[i].ip && B.GoodRequest(p))
    ensures RequestOf(ps[i := p], id) ==
      if id != ps[i].id then RequestOf(ps, id) else if p == B.WIPED then None else Some(p)
  {
    B.UpdateKeepsRequests(ps, i, p);
    var j := B.FindPending(ps[i := p], id);
    if j >= 0 { Unique(ps[i := p], j); }
    var j0 := B.FindPending(ps, id);
    if j0 >= 0 { Unique(ps, j0); }
    if id == ps[i].id { assert p != B.WIPED ==> ps[i := p][i].id == id; }
    else if j0 >= 0 { assert ps[i := p][j0].id == id; }
  }

  lemma ClearedEffect(ps: seq<B.Request>, id': Blob, ip: nat, id: Blob)
    requires B.GoodRequests(ps)
    ensures var r' := RequestOf(B.Cleared(ps, id', ip), id); r' == None || (id != id' && r' == RequestOf(ps, id))
  {
    B.ClearedSpec(ps, id', ip);
    var j := B.FindPending(B.Cleared(ps, id', ip), id);
    if j >= 0 { Unique(ps, j); }
  }

  lemma InsertEffect(ps: seq<B.Request>, i: nat, p: B.Request, id: Blob)
    requires i < |ps| && B.GoodRequests(ps) && B.GoodRequests(ps[i := p]) && ps[i].phase == B.Free && p.phase != B.Free
    ensures RequestOf(ps[i := p], id) == if id == p.id then Some(p) else RequestOf(ps, id)
  {
    var j := B.FindPending(ps, id);
    if id == p.id { Unique(ps[i := p], i); }
    else if j >= 0 { Unique(ps, j); Unique(ps[i := p], j); }
  }

  lemma HelloEffect(c: Scheme, b: B.Board, e: B.Event, id: Blob)
    requires B.Tables(b) && e.EHello?
    ensures var b' := B.Handle(c, b, e).0;
      Effect(c, id, e, MyRequest(b, id), MyKey(b, id), MyRequest(b', id), MyKey(b', id))
    ensures e.id == id && B.Handle(c, b, e).1.Standing? ==> MyRequest(B.Handle(c, b, e).0, id).Some?
    ensures !B.Handle(c, b, e).1.Standing? ==>
      MyRequest(B.Handle(c, b, e).0, id) == None || MyRequest(B.Handle(c, b, e).0, id) == MyRequest(b, id)
  {
    if e.v == 1 && |e.name| <= B.NAME_MAX {
      var ps := B.Cleared(b.pending, e.id, e.ip);
      B.ClearedSpec(b.pending, e.id, e.ip);
      ClearedEffect(b.pending, e.id, e.ip, id);
      var slot := B.FreePending(ps);
      if slot >= 0 {
        var p := B.NewRequest(e.id, e.name, e.aPub, e.commit, e.ip, Clock32.Millis(b.now));
        B.InsertKeepsRequests(ps, slot, p);
        InsertEffect(ps, slot, p, id);
      }
    }
  }

  /** A typed code changes nothing, or one request, or keeps a confirmed one as a pairing. */
  lemma CodeCases(b: B.Board, e: B.Event)
    requires B.Tables(b) && e.ECode? && B.Possible(e)
    ensures var b', pi := B.TypeCode(b, e.id, e.pinSet, e.text, e.puts).0, B.FindPending(b.pending, e.id);
      || b' == b
      || (pi >= 0 && b.pending[pi].phase.CodeShown?
          && b' == b.(pending := b.pending[pi := B.AfterWrong(b.pending[pi], Clock32.Millis(b.now))]))
      || (pi >= 0 && b.pending[pi].phase.CodeShown?
          && exists slot: nat :: slot < |b.paired| && TakesSlot(b, e.id, slot) && b' == B.Keep(b, pi, slot, e.puts).0)
  {
  }

  /** The computer's own place, or a free one when it has none. */
  ghost predicate TakesSlot(b: B.Board, id: Blob, slot: nat) {
    slot < |b.paired| && if B.FindPaired(b.paired, id) >= 0 then slot == B.FindPaired(b.paired, id) else !b.paired[slot].used
  }

  /** Writing one place of the pairings is seen by its own computer only. */
  lemma SlotEffect(es: seq<B.Entry>, slot: nat, x: B.Entry, id': Blob, id: Blob)
    requires slot < |es| && B.DistinctPairings(es) && (x == B.EMPTY || (x.used && x.id == id'))
    requires if B.FindPaired(es, id') >= 0 then slot == B.FindPaired(es, id') else !es[slot].used
    ensures KeyIn(es[slot := x], id) == if id != id' then KeyIn(es, id) else if x.used then Some(x.key) else None
  {
    var k, k' := B.FindPaired(es, id), B.FindPaired(es[slot := x], id);
    if k' >= 0 && k' != slot { assert es[k'].used; }
    if k >= 0 && k != slot { assert es[slot := x][k].used; }
    assert es[slot := x][slot] == x;
  }

  lemma CodeEffect(c: Scheme, b: B.Board, e: B.Event, id: Blob)
    requires B.Tables(b) && e.ECode? && B.Possible(e)
    ensures var b' := B.Handle(c, b, e).0;
      Effect(c, id, e, MyRequest(b, id), MyKey(b, id), MyRequest(b', id), MyKey(b', id))
  {
    var b', pi := B.TypeCode(b, e.id, e.pinSet, e.text, e.puts).0, B.FindPending(b.pending, e.id);
    CodeCases(b, e);
    if b' != b {
      var p := b.pending[pi];
      if b' == b.(pending := b.pending[pi := B.AfterWrong(p, Clock32.Millis(b.now))]) {
        assert B.GoodRequest(p);
        Changed(b.pending, pi, B.AfterWrong(p, Clock32.Millis(b.now)), id);
      } else {
        Changed(b.pending, pi, B.WIPED, id);
        var slot: nat :| slot < |b.paired| && TakesSlot(b, e.id, slot) && b' == B.Keep(b, pi, slot, e.puts).0;
        SlotEffect(b.paired, slot, b'.paired[slot], e.id, id);
      }
    }
  }

  lemma UnpairEffect(c: Scheme, b: B.Board, e: B.Event, id: Blob)
    requires B.Tables(b) && e.EUnpair?
    ensures var b' := B.Handle(c, b, e).0;
      Effect(c, id, e, MyRequest(b, id), MyKey(b, id), MyRequest(b', id), MyKey(b', id))
  {
    var b' := B.Handle(c, b, e).0;
    var pi := B.FindPending(b.pending, e.id);
    if pi >= 0 { Changed(b.pending, pi, B.WIPED, id); }
    var slot := B.FindPaired(b.paired, e.id);
    if slot >= 0 { SlotEffect(b.paired, slot, B.EMPTY, e.id, id); }
  }

  lemma TickEffect(c: Scheme, b: B.Board, id: Blob)
    requires B.Tables(b)
    ensures var r, r' := MyRequest(b, id), MyRequest(B.Tick(b), id); r' == r || r' == None
  {
  }

  lemma StateEffect(c: Scheme, b: B.Board, e: B.Event, id: Blob)
    requires B.Tables(b) && e.EState?
    ensures var b' := B.Handle(c, b, e).0;
      Effect(c, id, e, MyRequest(b, id), MyKey(b, id), MyRequest(b', id), MyKey(b', id))
  {
    var b', pi := B.Handle(c, b, e).0, B.FindPending(b.pending, e.id);
    if pi >= 0 && b'.pending != b.pending { Changed(b.pending, pi, b'.pending[pi], id); }
  }

  lemma RevealEffect(c: Scheme, b: B.Board, e: B.Event, id: Blob)
    requires B.Tables(b) && e.EReveal?
    ensures var b' := B.Handle(c, b, e).0;
      Effect(c, id, e, MyRequest(b, id), MyKey(b, id), MyRequest(b', id), MyKey(b', id))
  {
    var b', pi := B.Handle(c, b, e).0, B.FindPending(b.pending, e.id);
    if pi >= 0 && b'.pending != b.pending { Changed(b.pending, pi, b'.pending[pi], id); }
  }

  lemma ApproveEffect(c: Scheme, b: B.Board, e: B.Event, id: Blob)
    requires B.Tables(b) && e.EApprove?
    ensures var b' := B.Handle(c, b, e).0;
      Effect(c, id, e, MyRequest(b, id), MyKey(b, id), MyRequest(b', id), MyKey(b', id))
  {
    var b', pi := B.Handle(c, b, e).0, B.FindPending(b.pending, e.id);
    if pi >= 0 && b'.pending != b.pending { Changed(b.pending, pi, b'.pending[pi], id); }
  }

  lemma HandleEffect(c: Scheme, b: B.Board, e: B.Event, id: Blob)
    requires B.Tables(b) && B.Possible(e)
    ensures var b' := B.Handle(c, b, e).0;
      Effect(c, id, e, MyRequest(b, id), MyKey(b, id), MyRequest(b', id), MyKey(b', id))
  {
    match e
    case EHello(_, _, _, _, _, _) => HelloEffect(c, b, e, id);
    case ECode(_, _, _, _) => CodeEffect(c, b, e, id);
    case EUnpair(_) => UnpairEffect(c, b, e, id);
    case ETick => TickEffect(c, b, id);
    case EState(_, _) => StateEffect(c, b, e, id);
    case EReveal(_, _, _) => RevealEffect(c, b, e, id);
    case EApprove(_, _, _, _, _) => ApproveEffect(c, b, e, id);
    case _ =>
  }
}
