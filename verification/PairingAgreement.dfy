/** Two-party agreement: what every reachable state of the system keeps. */
module PairingAgreement {
  import opened Common
  import opened Crypto
  import B = PairingBoard
  import S = Session
  import Clock32
  import opened PairingSystem

  /** The reply to hello and state says where this computer stands. */
  function Seen(r: Option<B.Request>, k: Option<Blob>): B.Reply {
    if r.Some? then B.Standing0(r.value) else B.Standing(if k.Some? then B.SPaired else B.SNone, 0, 0)
  }

  lemma ReplyIsSeen(c: Scheme, b: B.Board, e: B.Event)
    requires B.Tables(b) && (e.EState? || e.EHello?)
    ensures var (b', reply) := B.Handle(c, b, e);
      (e.EState? ==> reply.Standing?) && (reply.Standing? ==> reply == Seen(MyRequest(b', e.id), MyKey(b', e.id)))
  {
  }

  /** Events that are not the app's own. */
  lemma ElsewhereKeeps(c: Scheme, y: Sys, e: B.Event)
    requires c.Laws() && Inv(c, y) && Allowed(c, y, Elsewhere(e))
    ensures Inv(c, Apply(c, y, Elsewhere(e)))
  {
    B.HandleKeepsTables(c, y.board, e);
    HandleEffect(c, y.board, e, y.app.id);
    var y' := Apply(c, y, Elsewhere(e));
    assert AckHolds(y') by { NowAfter(c, y.board, e); }
    var r, r' := MyRequest(y.board, y.app.id), MyRequest(y'.board, y.app.id);
    if r'.Some? && LiveRequest(r'.value) { ElsewhereRequest(c, y, e, r.value, r'.value); }
  }

  lemma NowAfter(c: Scheme, b: B.Board, e: B.Event)
    requires B.Shape(b) && B.Possible(e)
    ensures e.ERestart? || B.Handle(c, b, e).0.now == b.now + if e.EPass? then e.ms else 0
  {
  }

  lemma ElsewhereRequest(c: Scheme, y: Sys, e: B.Event, r: B.Request, r': B.Request)
    requires c.Laws() && Inv(c, y) && Allowed(c, y, Elsewhere(e)) && B.Tables(Apply(c, y, Elsewhere(e)).board)
    requires MyRequest(y.board, y.app.id) == Some(r) && LiveRequest(r')
    requires MyRequest(Apply(c, y, Elsewhere(e)).board, y.app.id) == Some(r')
    requires Effect(c, y.app.id, e, Some(r), MyKey(y.board, y.app.id), Some(r'), MyKey(Apply(c, y, Elsewhere(e)).board, y.app.id))
    ensures RequestAgrees(c, Apply(c, y, Elsewhere(e)), r')
  {
  }

  // ---- the app's first request ----

  /** What the app's own hello or state leaves of the board's tables. */
  ghost predicate BoardAfterPoll(c: Scheme, app: S.State, b: B.Board, b': B.Board, accepted: bool) {
    var r, r' := MyRequest(b, app.id), MyRequest(b', app.id);
    && B.Tables(b') && b'.now == b.now && MyKey(b', app.id) == MyKey(b, app.id)
    && (r' == r || r' == None
        || (r.Some? && r.value.phase.Pending? && r'.Some? && r' == Some(r.value.(at := r'.value.at)))
        || (accepted && r'.Some? && r'.value.phase.Pending? && Matches(c, app, r'.value)))
    && (accepted ==> r'.Some? && r'.value.phase.Pending? && Matches(c, app, r'.value))
  }

  /** What an answer leaves of the app, given its request r on the board. */
  ghost predicate AppAfterPoll(c: Scheme, app: S.State, heard: bool, now: nat, app': S.State, n: S.Next, r: Option<B.Request>)
    requires app.phase.Pairing?
  {
    var p, p' := app.phase, app'.phase;
    && app'.id == app.id
    && (p'.Pairing? ==>
          && p'.init == p.init
          && (p'.confirmed.Some? ==> p'.confirmed.value.nA == p.init.nA)
          && (if heard then p'.announced && p'.askedAt == (if p.announced then p.askedAt else Some(now)) else p' == p)
          && (!n.SendReveal? ==> p'.confirmed == p.confirmed))
    && (n.SendReveal? ==>
          && p'.Pairing? && r.Some? && r.value.phase.Confirm? && p'.confirmed.Some?
          && p'.confirmed == S.Complete(c, p.init, r.value.bPub, r.value.nB))
    && (n.AskUptime? ==> p'.Pairing? && p'.askedAt.Some?)
  }

  lemma PollBoard(c: Scheme, b: B.Board, app: S.State, name: string, ip: nat, d: Delivery)
    requires B.Tables(b) && app.phase.Pairing?
    ensures var e := PollEvent(c, app, name, ip);
      var (b', a) := Carry(c, b, e, d);
      && BoardAfterPoll(c, app, b, b', Accepts(c, b, e, d))
      && (a.Ok? ==> a == Read(Seen(MyRequest(b', app.id), MyKey(b', app.id))))
  {
    var e := PollEvent(c, app, name, ip);
    HandledPoll(c, b, app, e, Accepts(c, b, e, Through));
    ReplyIsSeen(c, b, e);
  }

  lemma HandledPoll(c: Scheme, b: B.Board, app: S.State, e: B.Event, accepted: bool)
    requires B.Tables(b) && app.phase.Pairing?
    requires e.EState? || (e.EHello? && e.aPub == S.APub(c, app.phase.init) && e.commit == S.Commitment(c, app.phase.init))
    requires e.id == app.id && accepted == Accepts(c, b, e, Through)
    ensures BoardAfterPoll(c, app, b, B.Handle(c, b, e).0, accepted)
  {
    B.HandleKeepsTables(c, b, e);
    NowAfter(c, b, e);
    if e.EHello? {
      HelloEffect(c, b, e, app.id);
      if accepted { AcceptedIsMine(c, b, e); }
    } else {
      StateEffect(c, b, e, app.id);
    }
  }

  lemma AcceptedIsMine(c: Scheme, b: B.Board, e: B.Event)
    requires B.Tables(b) && e.EHello? && B.Handle(c, b, e).1.Standing?
    requires var r := MyRequest(b, e.id); !(r.Some? && B.SameAttempt(r.value, e.aPub, e.commit))
    ensures var r' := MyRequest(B.Handle(c, b, e).0, e.id);
      r'.Some? && r'.value.phase.Pending? && B.SameAttempt(r'.value, e.aPub, e.commit)
  {
    HelloEffect(c, b, e, e.id);
    var b' := B.Handle(c, b, e).0;
    B.ClearedSpec(b.pending, e.id, e.ip);
    var slot := B.FreePending(B.Cleared(b.pending, e.id, e.ip));
    B.HandleKeepsTables(c, b, e);
    Unique(b'.pending, slot);
  }

  /** The state with the attempt the poll belongs to under way. */
  function Begun(c: Scheme, y: Sys, init: S.Initiator): Sys {
    if y.app.phase.Unpaired? then
      y.(app := WithAttempt(y.app, init), used := y.used[S.APub(c, init) := init], clean := false, acked := false)
    else y
  }

  lemma BegunKeeps(c: Scheme, y: Sys, e: Event)
    requires Inv(c, y) && e.Poll? && Allowed(c, y, e)
    ensures Inv(c, Begun(c, y, e.init)) && Begun(c, y, e.init).app.phase.Pairing? && Begun(c, y, e.init).step.Rest?
    ensures Begun(c, y, e.init).used == y.used[S.APub(c, Begun(c, y, e.init).app.phase.init) := Begun(c, y, e.init).app.phase.init]
    ensures Apply(c, y, e) == DoPoll(c, Begun(c, y, e.init), e.d, e.init, e.name, e.ip)
  {
  }

  /** What the answer makes of the app, given where its request stands. */
  lemma PollApp(c: Scheme, app: S.State, a: S.Answer, now: nat, r: Option<B.Request>, k: Option<Blob>)
    requires app.phase.Pairing? && (a.Ok? ==> a == Read(Seen(r, k)))
    requires app.phase.confirmed.Some? ==> app.phase.confirmed.value.nA == app.phase.init.nA
    ensures var (app1, n) := S.OnPoll(c, app, a, now);
      AppAfterPoll(c, app, a.Ok?, now, Settle(app1, n), n, r)
  {
  }

  /** What a poll from y leaves, in terms of this computer's request and key alone. */
  ghost predicate Polled(c: Scheme, y: Sys, y': Sys, accepted: bool, heard: bool)
    requires y.app.phase.Pairing?
  {
    var id, p, p' := y.app.id, y.app.phase, y'.app.phase;
    var r, r', k := MyRequest(y.board, id), MyRequest(y'.board, id), MyKey(y.board, id);
    && B.Tables(y'.board) && y'.board.now == y.board.now && y'.time == y.time && y'.used == y.used && y'.keeper == y.keeper
    && y'.app.id == id && MyKey(y'.board, id) == k && Ready(y')
    && (|| r' == r || r' == None
        || (r.Some? && r.value.phase.Pending? && r'.Some? && r' == Some(r.value.(at := r'.value.at)))
        || (accepted && r'.Some? && r'.value.phase.Pending? && Matches(c, y.app, r'.value)))
    && (accepted ==> r'.Some? && r'.value.phase.Pending? && Matches(c, y.app, r'.value))
    && y'.clean == (p'.Pairing? && (if accepted then k == None else y.clean))
    && y'.acked == (p'.Pairing? && ((heard && !p.announced) || y.acked))
    && (p'.Pairing? ==>
          && p'.init == p.init
          && (p'.confirmed.Some? ==> p'.confirmed.value.nA == p.init.nA)
          && (if heard then p'.announced && p'.askedAt == (if p.announced then p.askedAt else Some(y.time)) else p' == p)
          && (!y'.step.WantReveal? ==> p'.confirmed == p.confirmed))
    && (y'.step.WantReveal? ==>
          r'.Some? && r'.value.phase.Confirm? && p'.confirmed == S.Complete(c, p.init, r'.value.bPub, r'.value.nB))
  }

  lemma PollIsPolled(c: Scheme, y: Sys, d: Delivery, init: S.Initiator, name: string, ip: nat)
    requires Inv(c, y) && y.step.Rest? && y.app.phase.Pairing?
    ensures var e := PollEvent(c, y.app, name, ip);
      Polled(c, y, DoPoll(c, y, d, init, name, ip), Accepts(c, y.board, e, d), Carry(c, y.board, e, d).1.Ok?)
  {
    var e := PollEvent(c, y.app, name, ip);
    var (b, a) := Carry(c, y.board, e, d);
    var (app1, n) := S.OnPoll(c, y.app, a, y.time);
    PollBoard(c, y.board, y.app, name, ip, d);
    PollApp(c, y.app, a, y.time, MyRequest(b, y.app.id), MyKey(b, y.app.id));
    PollParts(c, y, b, a.Ok?, Settle(app1, n), n, Accepts(c, y.board, e, d));
  }

  lemma PollParts(c: Scheme, y: Sys, b: B.Board, heard: bool, app: S.State, n: S.Next, accepted: bool)
    requires AppKnows(c, y) && y.step.Rest? && y.app.phase.Pairing?
    requires BoardAfterPoll(c, y.app, y.board, b, accepted)
    requires AppAfterPoll(c, y.app, heard, y.time, app, n, MyRequest(b, y.app.id))
    ensures Polled(c, y, Polling(y, b, app, StepAfter(n), y.used[S.APub(c, y.app.phase.init) := y.app.phase.init],
                                 if accepted then MyKey(y.board, y.app.id) == None else y.clean,
                                 (heard && !y.app.phase.announced) || y.acked), accepted, heard)
  {
    assert y.used == y.used[S.APub(c, y.app.phase.init) := y.app.phase.init];
  }

  lemma PolledKeeps(c: Scheme, y: Sys, y': Sys, accepted: bool, heard: bool)
    requires Inv(c, y) && y.step.Rest? && y.app.phase.Pairing? && Polled(c, y, y', accepted, heard)
    ensures Inv(c, y')
  {
  }

  // ---- the second requests ----

  lemma RevealKeeps(c: Scheme, y: Sys, d: Delivery, keysOk: bool)
    requires c.Laws() && Inv(c, y) && y.step.WantReveal?
    ensures Inv(c, DoReveal(c, y, d, keysOk))
  {
    var e := B.EReveal(y.app.id, y.app.phase.confirmed.value.nA, keysOk);
    var (b, a) := Carry(c, y.board, e, d);
    var (app1, n) := S.OnReveal(y.app, a);
    RevealBoard(c, y.board, e, d, y.app.id);
    RevealApp(y.app, a);
    RevealParts(c, y, b, Settle(app1, n), keysOk);
  }

  lemma RevealApp(app: S.State, a: S.Answer)
    requires app.phase.Pairing? && app.phase.confirmed.Some?
    ensures var (app1, n) := S.OnReveal(app, a);
      Settle(app1, n).id == app.id && (Settle(app1, n).phase.Pairing? ==> Settle(app1, n).phase == app.phase)
  {
  }

  lemma RevealBoard(c: Scheme, b: B.Board, e: B.Event, d: Delivery, id: Blob)
    requires B.Tables(b) && e.EReveal?
    ensures var b' := Carry(c, b, e, d).0;
      && B.Tables(b') && b'.now == b.now && MyKey(b', id) == MyKey(b, id)
      && (MyRequest(b', id) == MyRequest(b, id)
          || Effect(c, id, e, MyRequest(b, id), MyKey(b, id), MyRequest(b', id), MyKey(b', id)))
  {
    B.HandleKeepsTables(c, b, e);
    RevealEffect(c, b, e, id);
    NowAfter(c, b, e);
  }

  lemma RevealParts(c: Scheme, y: Sys, b: B.Board, app: S.State, keysOk: bool)
    requires c.Laws() && Inv(c, y) && y.step.WantReveal?
    requires B.Tables(b) && b.now == y.board.now && app.id == y.app.id
    requires app.phase.Pairing? ==> app.phase == y.app.phase
    requires MyKey(b, y.app.id) == MyKey(y.board, y.app.id)
    requires MyRequest(b, y.app.id) == MyRequest(y.board, y.app.id)
      || Effect(c, y.app.id, B.EReveal(y.app.id, y.app.phase.confirmed.value.nA, keysOk), MyRequest(y.board, y.app.id),
                MyKey(y.board, y.app.id), MyRequest(b, y.app.id), MyKey(b, y.app.id))
    ensures Inv(c, Polling(y, b, app, Rest, y.used, y.clean, y.acked))
  {
    var y' := Polling(y, b, app, Rest, y.used, y.clean, y.acked);
    var r, r' := MyRequest(y.board, y.app.id), MyRequest(b, y.app.id);
    if r'.Some? && LiveRequest(r'.value) { RevealedAgrees(c, y, y', r.value, r'.value); }
  }

  /** The reveal of the app's own nonce gives the board the app's code and key. */
  lemma RevealedAgrees(c: Scheme, y: Sys, y': Sys, r: B.Request, r': B.Request)
    requires c.Laws() && Inv(c, y) && y.step.WantReveal? && y'.step.Rest?
    requires MyRequest(y.board, y.app.id) == Some(r) && LiveRequest(r')
    requires y'.app.id == y.app.id && y'.used == y.used && (y'.clean ==> y.clean)
    requires MyKey(y'.board, y.app.id) == MyKey(y.board, y.app.id)
    requires y'.app.phase.Pairing? ==> y'.app.phase == y.app.phase
    requires y'.clean ==> y'.app.phase.Pairing?
    requires r' == r || Effect(c, y.app.id, B.EReveal(y.app.id, y.app.phase.confirmed.value.nA, true),
                               Some(r), MyKey(y.board, y.app.id), Some(r'), MyKey(y.board, y.app.id))
    ensures RequestAgrees(c, y', r')
  {
  }

  lemma UptimeKeeps(c: Scheme, y: Sys, answered: bool)
    requires Inv(c, y) && y.step.WantUptime?
    ensures Inv(c, DoUptime(y, answered))
  {
  }

  lemma LeaveKeeps(c: Scheme, y: Sys, app: S.State)
    requires Inv(c, y) && app.id == y.app.id
    requires app.phase.Pairing? ==> app.phase == y.app.phase
    ensures Inv(c, Leave(y, app))
  {
  }

  lemma ApplyKeeps(c: Scheme, y: Sys, e: Event)
    requires c.Laws() && Inv(c, y) && Allowed(c, y, e)
    ensures Inv(c, Apply(c, y, e))
  {
    match e
    case Poll(d, init, name, ip) =>
      BegunKeeps(c, y, e);
      var z := Begun(c, y, init);
      var q := PollEvent(c, z.app, name, ip);
      PollIsPolled(c, z, d, init, name, ip);
      PolledKeeps(c, z, DoPoll(c, z, d, init, name, ip), Accepts(c, z.board, q, d), Carry(c, z.board, q, d).1.Ok?);
    case Reveal(d, keysOk) => RevealKeeps(c, y, d, keysOk);
    case Uptime(answered) => UptimeKeeps(c, y, answered);
    case AppError(a) => LeaveKeeps(c, y, S.OnError(y.app, a).0);
    case AskToPair => LeaveKeeps(c, y, S.RequestPairing(y.app));
    case ResetPairing => LeaveKeeps(c, y, S.ResetPairing(y.app));
    case AppRestart => LeaveKeeps(c, y, S.New(y.app.id, y.app.key));
    case Elsewhere(b) => ElsewhereKeeps(c, y, b);
  }

  // ---- over every run ----

  ghost predicate IsRun(c: Scheme, id: Blob, evs: seq<Event>, ys: seq<Sys>) {
    && |ys| == |evs| + 1 && ys[0] == Start(id)
    && forall m :: 0 <= m < |evs| ==> Link(c, evs, ys, m)
  }

  ghost predicate Link(c: Scheme, evs: seq<Event>, ys: seq<Sys>, m: nat) {
    m < |evs| && m + 1 < |ys| && Goes(c, ys[m], evs[m], ys[m + 1])
  }

  ghost predicate Goes(c: Scheme, y: Sys, e: Event, y': Sys) {
    B.Shape(y.board) && Ready(y) && Fits(y, e) && Allowed(c, y, e) && y' == Apply(c, y, e)
  }

  lemma {:induction false} RunKeepsInv(c: Scheme, id: Blob, evs: seq<Event>, ys: seq<Sys>, n: nat)
    requires c.Laws() && IsRun(c, id, evs, ys) && n <= |evs|
    ensures Inv(c, ys[n])
  {
    if n > 0 {
      RunKeepsInv(c, id, evs, ys, n - 1);
      LinkKeeps(c, evs, ys, n - 1);
    }
  }

  lemma LinkKeeps(c: Scheme, evs: seq<Event>, ys: seq<Sys>, m: nat)
    requires c.Laws() && Link(c, evs, ys, m) && Inv(c, ys[m])
    ensures Inv(c, ys[m + 1])
  {
    ApplyKeeps(c, ys[m], evs[m]);
  }

  /** Whenever the board shows the code step for the app's live attempt, both sides hold the
      same code and the same key: what the person types is what the computer displays. */
  lemma CodesAgree(c: Scheme, id: Blob, evs: seq<Event>, ys: seq<Sys>, n: nat)
    requires c.Laws() && IsRun(c, id, evs, ys) && n <= |evs|
    ensures var y := ys[n];
      var r := MyRequest(y.board, y.app.id);
      r.Some? && r.value.phase.CodeShown? && Matches(c, y.app, r.value) ==> SameSecret(y.app, r.value)
  {
    RunKeepsInv(c, id, evs, ys, n);
  }

  lemma TakenKey(c: Scheme, app: S.State, a: S.Answer, now: nat, r: Option<B.Request>, k: Option<Blob>)
    requires app.phase.Pairing? && (a.Ok? ==> a == Read(Seen(r, k)))
    requires r.Some? ==> r.value.phase != B.Free
    ensures var (app1, n) := S.OnPoll(c, app, a, now);
      Settle(app1, n).phase.Paired? ==>
        && Settle(app1, n).id == app.id && k.Some? && app.phase.confirmed.Some? && Settle(app1, n).key == Some(app.phase.confirmed.value.key)
  {
  }

  /** The app's hello was answered in event n. */
  ghost predicate HelloHeard(c: Scheme, evs: seq<Event>, ys: seq<Sys>, n: nat)
    requires n < |evs| && |ys| == |evs| + 1
  {
    Hears(c, ys[n], evs[n])
  }

  ghost predicate Hears(c: Scheme, y: Sys, e: Event) {
    && e.Poll? && B.Shape(y.board)
    && var app := WithAttempt(y.app, e.init);
    && app.phase.Pairing? && !app.phase.announced
    && Carry(c, y.board, PollEvent(c, app, e.name, e.ip), e.d).1.Ok?
  }

  ghost predicate OneAttempt(ys: seq<Sys>, i: S.Initiator, m: nat, n: nat)
    requires n < |ys|
  {
    forall j :: m < j <= n ==> ys[j].app.phase.Pairing? && ys[j].app.phase.init == i
  }

  /** The app has been waiting this long since the acknowledgement. */
  function Waited(y: Sys): int
    requires y.app.phase.Pairing? && y.app.phase.askedAt.Some?
  {
    y.time - y.app.phase.askedAt.value
  }

  /** The board's 32-bit clock reads less, by over the second of slack, than the app has waited. */
  predicate Misreads(y: Sys)
    requires y.app.phase.Pairing? && y.app.phase.askedAt.Some?
  {
    Clock32.Millis(y.board.now) / 1000 * 1000 + 1000 < Waited(y)
  }

  /** Asked for its uptime, a board that never restarted seems to have restarted exactly when its
      clock misreads; which takes that the clock passed a multiple of 2^32 ms since the
      acknowledgement, and happens whenever it did so over a second after it. */
  lemma MisreadExactly(c: Scheme, y: Sys)
    requires Inv(c, y) && y.step.WantUptime? && y.acked
    ensures var p' := DoUptime(y, true).app.phase; (p'.Pairing? && !p'.announced) <==> Misreads(y)
    ensures var at, now := y.board.now - Waited(y), y.board.now;
      && (Misreads(y) ==> at / Clock32.WRAP < now / Clock32.WRAP)
      && (now / Clock32.WRAP * Clock32.WRAP > at + 1000 ==> Misreads(y))
  {
    var now := y.board.now;
    assert now == now / Clock32.WRAP * Clock32.WRAP + now % Clock32.WRAP;
    if Misreads(y) { SameLap(now - Waited(y), now); }
  }

  lemma SameLap(a: nat, b: nat)
    requires a <= b && b % Clock32.WRAP < b - a
    ensures a / Clock32.WRAP < b / Clock32.WRAP
  {
  }

  /** The board's clock passed a multiple of 2^32 ms between the two states. */
  predicate Passed(before: Sys, after: Sys) { before.board.now / Clock32.WRAP < after.board.now / Clock32.WRAP }

  /** What lets one attempt be acknowledged twice. */
  ghost predicate Excuse(evs: seq<Event>, ys: seq<Sys>, m: nat, j: nat)
    requires m < j < |evs| && |ys| == |evs| + 1
  {
    evs[j] == Elsewhere(B.ERestart) || (evs[j] == Uptime(true) && Passed(ys[m], ys[j]))
  }

  /** One attempt's hello is acknowledged at most once, unless in between the board restarted, or
      was asked for its uptime after its clock passed a multiple of 2^32 ms. */
  lemma AcknowledgedOnce(c: Scheme, id: Blob, evs: seq<Event>, ys: seq<Sys>, m: nat, n: nat, i: S.Initiator)
    requires c.Laws() && IsRun(c, id, evs, ys) && m < n < |evs|
    requires HelloHeard(c, evs, ys, m) && HelloHeard(c, evs, ys, n) && OneAttempt(ys, i, m, n)
    ensures exists j :: m < j < n && Excuse(evs, ys, m, j)
  {
    if forall j :: m < j < n ==> !Excuse(evs, ys, m, j) {
      assert Link(c, evs, ys, m);
      RunKeepsInv(c, id, evs, ys, m);
      FirstAck(c, evs, ys, m);
      AckStays(c, id, evs, ys, m, n, i);
      RunKeepsInv(c, id, evs, ys, n);
    }
  }

  /** Acknowledged in state y, and the board's clock and the app's went on together since. */
  ghost predicate Steady(y: Sys, y': Sys) {
    && y'.acked && y'.app.phase.Pairing? && y'.app.phase.askedAt == Some(y.time)
    && y'.board.now - y'.time == y.board.now - y.time
  }

  lemma {:induction false} AckStays(c: Scheme, id: Blob, evs: seq<Event>, ys: seq<Sys>, m: nat, n: nat, i: S.Initiator)
    requires c.Laws() && IsRun(c, id, evs, ys) && m < n < |evs| && OneAttempt(ys, i, m, n) && Steady(ys[m], ys[m + 1])
    requires forall j :: m < j < n ==> !Excuse(evs, ys, m, j)
    ensures Steady(ys[m], ys[n])
  {
    if m + 1 < n {
      AckStays(c, id, evs, ys, m, n - 1, i);
      AckInRun(c, id, evs, ys, m, n - 1);
    }
  }

  lemma AckInRun(c: Scheme, id: Blob, evs: seq<Event>, ys: seq<Sys>, m: nat, n: nat)
    requires c.Laws() && IsRun(c, id, evs, ys) && m < n < |evs| && !Excuse(evs, ys, m, n)
    requires Steady(ys[m], ys[n]) && ys[n + 1].app.phase.Pairing?
    ensures Steady(ys[m], ys[n + 1])
  {
    RunKeepsInv(c, id, evs, ys, n);
    AckLink(c, evs, ys, m, n);
  }

  lemma FirstAck(c: Scheme, evs: seq<Event>, ys: seq<Sys>, m: nat)
    requires |ys| == |evs| + 1 && m < |evs| && Link(c, evs, ys, m) && HelloHeard(c, evs, ys, m) && ys[m + 1].app.phase.Pairing?
    requires Inv(c, ys[m])
    ensures Steady(ys[m], ys[m + 1])
  {
    var y, e := ys[m], evs[m];
    BegunKeeps(c, y, e);
    PollIsPolled(c, Begun(c, y, e.init), e.d, e.init, e.name, e.ip);
  }

  lemma AckLink(c: Scheme, evs: seq<Event>, ys: seq<Sys>, i: nat, m: nat)
    requires |ys| == |evs| + 1 && i < m < |evs| && !Excuse(evs, ys, i, m)
    requires Link(c, evs, ys, m) && Inv(c, ys[m]) && Steady(ys[i], ys[m]) && ys[m + 1].app.phase.Pairing?
    ensures Steady(ys[i], ys[m + 1])
  {
    AckStep(c, ys[i], ys[m], evs[m]);
  }

  lemma AckStep(c: Scheme, y0: Sys, y: Sys, e: Event)
    requires Inv(c, y) && Allowed(c, y, e) && Steady(y0, y) && Apply(c, y, e).app.phase.Pairing?
    requires e != Elsewhere(B.ERestart) && !(e == Uptime(true) && Passed(y0, y))
    ensures Steady(y0, Apply(c, y, e))
  {
    match e
    case Poll(d, init, name, ip) => PollIsPolled(c, y, d, init, name, ip);
    case Reveal(d, keysOk) => AckReveal(c, y, d, keysOk);
    case Uptime(answered) => if answered { MisreadExactly(c, y); }
    case Elsewhere(b) => NowAfter(c, y.board, b);
    case _ =>
  }

  lemma AckReveal(c: Scheme, y: Sys, d: Delivery, keysOk: bool)
    requires Inv(c, y) && y.step.WantReveal?
    ensures var y' := DoReveal(c, y, d, keysOk);
      && y'.board.now == y.board.now && y'.time == y.time
      && (y'.app.phase.Pairing? ==> y'.app.phase == y.app.phase && y'.acked == y.acked)
  {
    var e := B.EReveal(y.app.id, y.app.phase.confirmed.value.nA, keysOk);
    NowAfter(c, y.board, e);
    RevealApp(y.app, Carry(c, y.board, e, d).1);
  }
}
