/** What the computer shows: over every run of app, board and network, a code on its screen is the
    code the board waits for, and typing it pairs the two. */
module PairingScreen {
  import opened Common
  import opened Crypto
  import B = PairingBoard
  import S = Session
  import Decimal
  import opened PairingSystem
  import opened PairingAgreement
  import opened PairingAnswers
  import K = PairingKeys

  /** The app shows a code; r is the board's live request of its attempt, if there is one. */
  ghost predicate Shows(c: Scheme, app: S.State, r: Option<B.Request>) {
    app.phase.Pairing? && app.status.ShowCode? && r.Some? && LiveRequest(r.value) && Matches(c, app, r.value)
  }

  /** Then the board waits for a code, and it is the one shown. */
  ghost predicate ScreenFits(c: Scheme, app: S.State, r: Option<B.Request>) {
    && (r.Some? && r.value.phase.CodeShown? ==> r.value.code < 1_000_000)
    && (Shows(c, app, r) ==> r.value.phase.CodeShown? && app.status.text == Decimal.FormatCode(r.value.code))
  }

  ghost predicate Screen(c: Scheme, y: Sys) { ScreenFits(c, y.app, MyRequest(y.board, y.app.id)) }

  // ---- events that are not the app's own ----

  lemma ElsewhereKeepsScreen(c: Scheme, y: Sys, e: B.Event)
    requires c.Laws() && Inv(c, y) && Screen(c, y) && Allowed(c, y, Elsewhere(e))
    ensures Screen(c, Elsewhere0(c, y, e))
  {
    var b' := B.Handle(c, y.board, e).0;
    HandleEffect(c, y.board, e, y.app.id);
    EffectKeepsScreen(c, y.app, e, MyRequest(y.board, y.app.id), MyKey(y.board, y.app.id), MyRequest(b', y.app.id), MyKey(b', y.app.id));
  }

  lemma EffectKeepsScreen(c: Scheme, app: S.State, e: B.Event, r: Option<B.Request>, k: Option<Blob>,
                          r': Option<B.Request>, k': Option<Blob>)
    requires ScreenFits(c, app, r) && Effect(c, app.id, e, r, k, r', k') && (e.EHello? ==> e.id != app.id)
    ensures ScreenFits(c, app, r')
  {
  }

  // ---- the app's own requests ----

  /** An answer heard leaves a code on the screen only if the board is at the code step, or leaves
      the screen as it was. */
  lemma PollShows(c: Scheme, app: S.State, a: S.Answer, now: nat, r: Option<B.Request>, k: Option<Blob>)
    requires app.phase.Pairing? && (a.Ok? ==> a == Read(Seen(r, k)))
    ensures var (app1, n) := S.OnPoll(c, app, a, now);
      var app' := Settle(app1, n);
      app'.phase.Pairing? && app'.status.ShowCode? ==>
        || (app'.status == app.status && (a.Ok? ==> r == None || !r.value.phase.Pending?))
        || (a.Ok? && r.Some? && r.value.phase.CodeShown? && app.phase.confirmed.Some?
            && app'.status.text == Decimal.FormatCode(app.phase.confirmed.value.code))
    ensures a == S.Unreachable ==> !Settle(S.OnPoll(c, app, a, now).0, S.OnPoll(c, app, a, now).1).status.ShowCode?
  {
  }

  lemma PollKeepsScreen(c: Scheme, y: Sys, d: Delivery, init: S.Initiator, name: string, ip: nat)
    requires c.Laws() && Inv(c, y) && Screen(c, y) && y.step.Rest? && y.app.phase.Pairing?
    requires Inv(c, DoPoll(c, y, d, init, name, ip))
    ensures Screen(c, DoPoll(c, y, d, init, name, ip))
  {
    var e := PollEvent(c, y.app, name, ip);
    var (b, a) := Carry(c, y.board, e, d);
    PollIsPolled(c, y, d, init, name, ip);
    PollBoard(c, y.board, y.app, name, ip, d);
    PollShows(c, y.app, a, y.time, MyRequest(b, y.app.id), MyKey(b, y.app.id));
  }

  lemma BegunKeepsScreen(c: Scheme, y: Sys, e: Event)
    requires Inv(c, y) && Screen(c, y) && e.Poll? && Allowed(c, y, e)
    ensures Screen(c, Begun(c, y, e.init))
  {
  }

  /** The board answers a reveal with where the request stands only at the code step. */
  lemma RevealAnswer(c: Scheme, b: B.Board, e: B.Event)
    requires B.Tables(b) && e.EReveal? && B.Handle(c, b, e).1.Standing?
    ensures var r' := MyRequest(B.Handle(c, b, e).0, e.id);
      r'.Some? && r'.value.phase.CodeShown? && r'.value.code < 1_000_000 && B.Handle(c, b, e).1 == B.Standing(B.SCodeShown, 0, 0)
  {
    var pi := B.FindPending(b.pending, e.id);
    Changed(b.pending, pi, B.Handle(c, b, e).0.pending[pi], e.id);
  }

  lemma RevealKeepsScreen(c: Scheme, y: Sys, d: Delivery, keysOk: bool)
    requires c.Laws() && Inv(c, y) && Screen(c, y) && y.step.WantReveal?
    ensures Screen(c, DoReveal(c, y, d, keysOk))
  {
    RevealedFits(c, y, d, keysOk);
    RevealApp(y.app, Carry(c, y.board, B.EReveal(y.app.id, y.app.phase.confirmed.value.nA, keysOk), d).1);
  }

  lemma RevealedFits(c: Scheme, y: Sys, d: Delivery, keysOk: bool)
    requires c.Laws() && Inv(c, y) && Screen(c, y) && y.step.WantReveal?
    ensures var (b, a) := Carry(c, y.board, B.EReveal(y.app.id, y.app.phase.confirmed.value.nA, keysOk), d);
      ScreenFits(c, Settle(S.OnReveal(y.app, a).0, S.OnReveal(y.app, a).1), MyRequest(b, y.app.id))
  {
    var e := B.EReveal(y.app.id, y.app.phase.confirmed.value.nA, keysOk);
    var (b, a) := Carry(c, y.board, e, d);
    RevealLeaves(c, y.board, e, d, y.app);
    RevealSecret(c, y, d, keysOk);
    RevealFits(c, y.app, a, MyRequest(y.board, y.app.id), MyRequest(b, y.app.id));
  }

  lemma RevealSecret(c: Scheme, y: Sys, d: Delivery, keysOk: bool)
    requires c.Laws() && Inv(c, y) && y.step.WantReveal?
    ensures var (b, a) := Carry(c, y.board, B.EReveal(y.app.id, y.app.phase.confirmed.value.nA, keysOk), d);
      var r', app' := MyRequest(b, y.app.id), Settle(S.OnReveal(y.app, a).0, S.OnReveal(y.app, a).1);
      r'.Some? && r'.value.phase.CodeShown? && Matches(c, app', r'.value) ==> SameSecret(app', r'.value)
  {
    RevealKeeps(c, y, d, keysOk);
    RevealApp(y.app, Carry(c, y.board, B.EReveal(y.app.id, y.app.phase.confirmed.value.nA, keysOk), d).1);
  }

  /** What a reveal and its answer can leave of the request. */
  ghost predicate Left(app: S.State, a: S.Answer, r: Option<B.Request>, r': Option<B.Request>) {
    && (r'.Some? && r'.value.phase.CodeShown? ==> r'.value.code < 1_000_000)
    && (a.Ok? ==> r'.Some? && r'.value.phase.CodeShown?)
    && (!a.Ok? ==> a == S.Unreachable || r' == r || r' == None)
  }

  lemma RevealLeaves(c: Scheme, b: B.Board, e: B.Event, d: Delivery, app: S.State)
    requires B.Tables(b) && e.EReveal? && e.id == app.id && ScreenFits(c, app, MyRequest(b, app.id))
    ensures Left(app, Carry(c, b, e, d).1, MyRequest(b, app.id), MyRequest(Carry(c, b, e, d).0, app.id))
  {
    RevealEffect(c, b, e, e.id);
    if B.Handle(c, b, e).1.Standing? { RevealAnswer(c, b, e); } else { RevealRefused(c, b, e); }
  }

  lemma RevealRefused(c: Scheme, b: B.Board, e: B.Event)
    requires B.Tables(b) && e.EReveal? && !B.Handle(c, b, e).1.Standing?
    ensures B.Handle(c, b, e).1.Refused?
    ensures var r' := MyRequest(B.Handle(c, b, e).0, e.id); r' == MyRequest(b, e.id) || r' == None
  {
    var pi := B.FindPending(b.pending, e.id);
    if pi >= 0 { Changed(b.pending, pi, B.WIPED, e.id); }
  }

  lemma RevealFits(c: Scheme, app: S.State, a: S.Answer, r: Option<B.Request>, r': Option<B.Request>)
    requires app.phase.Pairing? && app.phase.confirmed.Some? && ScreenFits(c, app, r) && Left(app, a, r, r')
    requires var app' := Settle(S.OnReveal(app, a).0, S.OnReveal(app, a).1);
      r'.Some? && r'.value.phase.CodeShown? && Matches(c, app', r'.value) ==> SameSecret(app', r'.value)
    ensures ScreenFits(c, Settle(S.OnReveal(app, a).0, S.OnReveal(app, a).1), r')
  {
  }

  lemma LeaveKeepsScreen(c: Scheme, y: Sys, app: S.State)
    requires Screen(c, y) && app.id == y.app.id && (app.phase.Pairing? ==> app == y.app)
    ensures Screen(c, Leave(y, app))
  {
  }

  lemma UptimeKeepsScreen(c: Scheme, y: Sys, answered: bool)
    requires Inv(c, y) && Screen(c, y) && y.step.WantUptime?
    ensures Screen(c, DoUptime(y, answered))
  {
  }

  lemma ApplyKeepsScreen(c: Scheme, y: Sys, e: Event)
    requires c.Laws() && Inv(c, y) && Screen(c, y) && Allowed(c, y, e)
    ensures Screen(c, Apply(c, y, e))
  {
    ApplyKeeps(c, y, e);
    match e
    case Poll(d, init, name, ip) =>
      BegunKeeps(c, y, e);
      BegunKeepsScreen(c, y, e);
      PollKeepsScreen(c, Begun(c, y, init), d, init, name, ip);
    case Reveal(d, keysOk) => RevealKeepsScreen(c, y, d, keysOk);
    case Uptime(answered) => UptimeKeepsScreen(c, y, answered);
    case AppError(a) => LeaveKeepsScreen(c, y, S.OnError(y.app, a).0);
    case AskToPair => LeaveKeepsScreen(c, y, S.RequestPairing(y.app));
    case ResetPairing => LeaveKeepsScreen(c, y, S.ResetPairing(y.app));
    case AppRestart => LeaveKeepsScreen(c, y, S.New(y.app.id, y.app.key));
    case Elsewhere(b) => ElsewhereKeepsScreen(c, y, b);
  }

  // ---- over every run ----

  lemma {:induction false} RunKeepsScreen(c: Scheme, id: Blob, evs: seq<Event>, ys: seq<Sys>, n: nat)
    requires c.Laws() && IsRun(c, id, evs, ys) && n <= |evs|
    ensures Screen(c, ys[n])
  {
    if n > 0 {
      RunKeepsScreen(c, id, evs, ys, n - 1);
      RunKeepsInv(c, id, evs, ys, n - 1);
      ScreenLink(c, evs, ys, n - 1);
    }
  }

  lemma ScreenLink(c: Scheme, evs: seq<Event>, ys: seq<Sys>, m: nat)
    requires c.Laws() && Link(c, evs, ys, m) && Inv(c, ys[m]) && Screen(c, ys[m])
    ensures Screen(c, ys[m + 1])
  {
    ApplyKeepsScreen(c, ys[m], evs[m]);
  }

  /** Whenever the app shows a code while the board holds the live request of its attempt, the
      board waits for a code, and of all texts a person may type exactly the one shown counts. */
  lemma ScreenIsRight(c: Scheme, id: Blob, evs: seq<Event>, ys: seq<Sys>, n: nat, text: string)
    requires c.Laws() && IsRun(c, id, evs, ys) && n <= |evs|
    requires Shows(c, ys[n].app, MyRequest(ys[n].board, ys[n].app.id))
    ensures var r := MyRequest(ys[n].board, ys[n].app.id).value;
      r.phase.CodeShown? && (B.RightCode(text, r.code) <==> text == ys[n].app.status.text)
  {
    RunKeepsScreen(c, id, evs, ys, n);
    Decimal.TypedIsShown(text, MyRequest(ys[n].board, ys[n].app.id).value.code);
  }

  /** Event n tells the app that the board is at the code step: a poll heard as "code_shown", or its
      reveal that came through. */
  ghost predicate TellsCode(c: Scheme, y: Sys, e: Event) {
    && B.Shape(y.board)
    && match e
       case Poll(d, init, name, ip) =>
         && (y.app.phase.Pairing? || y.app.phase.Unpaired?)
         && var a := Carry(c, y.board, PollEvent(c, WithAttempt(y.app, init), name, ip), d).1;
         a.Ok? && a.state == Some(S.SCodeShown)
       case Reveal(d, keysOk) =>
         && y.step.WantReveal? && Ready(y)
         && Carry(c, y.board, B.EReveal(y.app.id, y.app.phase.confirmed.value.nA, keysOk), d).1.Ok?
       case _ => false
  }

  /** Told so, the app shows the code - if it still has the attempt. */
  lemma ToldMeansShown(c: Scheme, id: Blob, evs: seq<Event>, ys: seq<Sys>, n: nat)
    requires c.Laws() && IsRun(c, id, evs, ys) && n < |evs| && TellsCode(c, ys[n], evs[n]) && ys[n + 1].app.phase.Pairing?
    ensures ys[n + 1].step.Rest? && Shows(c, ys[n + 1].app, MyRequest(ys[n + 1].board, ys[n + 1].app.id))
  {
    RunKeepsInv(c, id, evs, ys, n);
    K.RunKeepsFacts(c, id, evs, ys, n);
    K.RunKeepsFacts(c, id, evs, ys, n + 1);
    assert Link(c, evs, ys, n);
    var y, e := ys[n], evs[n];
    if e.Poll? { PollTells(c, y, e); } else { RevealTells(c, y, e.d, e.keysOk); }
  }

  lemma PollTells(c: Scheme, y: Sys, e: Event)
    requires Inv(c, y) && e.Poll? && Allowed(c, y, e) && TellsCode(c, y, e) && Apply(c, y, e).app.phase.Pairing?
    requires K.KeyFacts(c, Apply(c, y, e))
    ensures var y' := Apply(c, y, e); y'.step.Rest? && Shows(c, y'.app, MyRequest(y'.board, y'.app.id))
  {
    BegunKeeps(c, y, e);
    var z := Begun(c, y, e.init);
    var (b, a) := Carry(c, z.board, PollEvent(c, z.app, e.name, e.ip), e.d);
    PollIsPolled(c, z, e.d, e.init, e.name, e.ip);
    PollBoard(c, z.board, z.app, e.name, e.ip, e.d);
    HeardCode(c, z.app, a, z.time, MyRequest(b, z.app.id), MyKey(b, z.app.id));
  }

  lemma HeardCode(c: Scheme, app: S.State, a: S.Answer, now: nat, r: Option<B.Request>, k: Option<Blob>)
    requires app.phase.Pairing? && a.Ok? && a == Read(Seen(r, k)) && a.state == Some(S.SCodeShown)
    ensures var (app1, n) := S.OnPoll(c, app, a, now);
      && r.Some? && r.value.phase.CodeShown? && StepAfter(n).Rest?
      && (Settle(app1, n).phase.Pairing? ==> Settle(app1, n).status.ShowCode? && Settle(app1, n).phase.announced)
  {
  }

  lemma RevealTells(c: Scheme, y: Sys, d: Delivery, keysOk: bool)
    requires Inv(c, y) && y.step.WantReveal? && TellsCode(c, y, Reveal(d, keysOk)) && DoReveal(c, y, d, keysOk).app.phase.Pairing?
    requires K.KeyFacts(c, y) && K.KeyFacts(c, DoReveal(c, y, d, keysOk))
    ensures var y' := DoReveal(c, y, d, keysOk); y'.step.Rest? && Shows(c, y'.app, MyRequest(y'.board, y'.app.id))
  {
    RevealAnswer(c, y.board, B.EReveal(y.app.id, y.app.phase.confirmed.value.nA, keysOk));
  }

  // ---- what the app says of the board ----

  /** The app after an answer to its poll, the board holding request r and key k of its computer: it
      waits, takes the key, shows the code or gives up just as the board stands. */
  ghost predicate TellsTruth(c: Scheme, app: S.State, app': S.State, step: Step, now: nat, r: Option<B.Request>, k: Option<Blob>)
    requires app.phase.Pairing?
  {
    var p := app.phase.(announced := true, askedAt := if app.phase.announced then app.phase.askedAt else Some(now));
    var own := app.phase.confirmed;
    if r == None && k == None then
      if p.askedAt.Some? then app' == app.(phase := p) && step.WantUptime?
      else app' == app.(phase := S.Idle, status := S.PairingExpired) && step.Rest?
    else if r == None then
      && step.Rest?
      && if own.Some? then app' == app.(phase := S.Paired, key := Some(own.value.key), keyChanged := true, status := S.Connecting)
         else app' == app.(phase := S.Unpaired)
    else match r.value.phase
      case Pending => app' == app.(phase := p, status := S.WaitingForApproval) && step.Rest?
      case Confirm =>
        var done := S.Complete(c, p.init, r.value.bPub, r.value.nB);
        if done.None? then app' == app.(phase := S.Idle, status := S.PairingFailed) && step.Rest?
        else app' == app.(phase := p.(confirmed := done)) && step.WantReveal?
      case CodeShown =>
        && step.Rest?
        && if own.Some? then app' == app.(phase := p, status := S.ShowCode(Decimal.FormatCode(own.value.code)))
           else app' == app.(phase := S.Unpaired)
      case Aborted => app' == app.(phase := S.Idle, status := S.PairingFailed) && step.Rest?
      case Free => false
  }

  lemma AnswerTells(c: Scheme, app: S.State, a: S.Answer, now: nat, r: Option<B.Request>, k: Option<Blob>)
    requires app.phase.Pairing? && a == Read(Seen(r, k)) && (r.Some? ==> r.value.phase != B.Free)
    ensures var (app1, n) := S.OnPoll(c, app, a, now);
      TellsTruth(c, app, Settle(app1, n), StepAfter(n), now, r, k)
  {
  }

  /** Over every run, a poll whose answer the app heard leaves it where the board stands. */
  lemma HeardIsTrue(c: Scheme, id: Blob, evs: seq<Event>, ys: seq<Sys>, n: nat)
    requires c.Laws() && IsRun(c, id, evs, ys) && n < |evs| && evs[n].Poll? && B.Shape(ys[n].board)
    requires ys[n].app.phase.Pairing? || ys[n].app.phase.Unpaired?
    requires var app := WithAttempt(ys[n].app, evs[n].init);
      Carry(c, ys[n].board, PollEvent(c, app, evs[n].name, evs[n].ip), evs[n].d).1.Ok?
    ensures var y' := ys[n + 1];
      TellsTruth(c, WithAttempt(ys[n].app, evs[n].init), y'.app, y'.step, ys[n].time, MyRequest(y'.board, y'.app.id), MyKey(y'.board, y'.app.id))
  {
    RunKeepsInv(c, id, evs, ys, n);
    assert Link(c, evs, ys, n);
    PollIsTrue(c, ys[n], evs[n]);
  }

  lemma PollIsTrue(c: Scheme, y: Sys, e: Event)
    requires Inv(c, y) && e.Poll? && Allowed(c, y, e)
    requires var app := WithAttempt(y.app, e.init); Carry(c, y.board, PollEvent(c, app, e.name, e.ip), e.d).1.Ok?
    ensures var y' := Apply(c, y, e);
      TellsTruth(c, WithAttempt(y.app, e.init), y'.app, y'.step, y.time, MyRequest(y'.board, y'.app.id), MyKey(y'.board, y'.app.id))
  {
    BegunKeeps(c, y, e);
    var z := Begun(c, y, e.init);
    var (b, a) := Carry(c, z.board, PollEvent(c, z.app, e.name, e.ip), e.d);
    PollBoard(c, z.board, z.app, e.name, e.ip, e.d);
    AnswerTells(c, z.app, a, z.time, MyRequest(b, z.app.id), MyKey(b, z.app.id));
  }

  /** A reveal that comes through is never refused as broken: the board has the very nonce the attempt
      committed to. It brings both to the code step, unless the board can not use the app's key. */
  lemma RevealIsTaken(c: Scheme, id: Blob, evs: seq<Event>, ys: seq<Sys>, n: nat)
    requires c.Laws() && IsRun(c, id, evs, ys) && n < |evs| && evs[n].Reveal? && evs[n].d.Through?
    requires var r := MyRequest(ys[n].board, ys[n].app.id); r.Some? && LiveRequest(r.value) && Matches(c, ys[n].app, r.value)
    ensures var y, y', r := ys[n], ys[n + 1], MyRequest(ys[n].board, ys[n].app.id).value;
      if c.dh(r.bSec, r.aPub) != 0 && evs[n].keysOk
      then Shows(c, y'.app, MyRequest(y'.board, y.app.id)) && y'.app.phase == y.app.phase
      else MyRequest(y'.board, y.app.id) == None && y'.app == y.app.(status := S.Problem)
  {
    RunKeepsInv(c, id, evs, ys, n);
    K.RunKeepsFacts(c, id, evs, ys, n);
    assert Link(c, evs, ys, n);
    RevealStep(c, ys[n], evs[n].keysOk);
  }

  lemma RevealStep(c: Scheme, y: Sys, keysOk: bool)
    requires Inv(c, y) && K.KeyFacts(c, y) && y.step.WantReveal?
    requires var r := MyRequest(y.board, y.app.id); r.Some? && LiveRequest(r.value) && Matches(c, y.app, r.value)
    ensures var y', r := DoReveal(c, y, Through, keysOk), MyRequest(y.board, y.app.id).value;
      if c.dh(r.bSec, r.aPub) != 0 && keysOk
      then Shows(c, y'.app, MyRequest(y'.board, y.app.id)) && y'.app.phase == y.app.phase
      else MyRequest(y'.board, y.app.id) == None && y'.app == y.app.(status := S.Problem)
  {
    RevealAnswers(c, y.board, y.app.id, y.app.phase.confirmed.value.nA, keysOk);
  }

  // ---- typing what is shown ----

  /** From every reachable state in which the app shows a code for its live request: typing it makes
      this attempt's entry, with the app's key, wherever there is a place and flash keeps it; and the
      next answer the app hears makes it take that very key. */
  lemma TypingPairs(c: Scheme, id: Blob, evs: seq<Event>, ys: seq<Sys>, n: nat, puts: nat, init: S.Initiator, name: string, ip: nat)
    returns (y1: Sys, y2: Sys)
    requires c.Laws() && IsRun(c, id, evs, ys) && n <= |evs| && ys[n].step.Rest? && puts >= 3
    requires Shows(c, ys[n].app, MyRequest(ys[n].board, ys[n].app.id)) && ys[n].app.phase.announced
    requires MyKey(ys[n].board, ys[n].app.id).Some? || B.FreePaired(ys[n].board.paired) >= 0
    ensures Goes(c, ys[n], Elsewhere(B.ECode(ys[n].app.id, true, ys[n].app.status.text, puts)), y1)
    ensures Goes(c, y1, Poll(Through, init, name, ip), y2)
    ensures y2.app.phase.Paired? && y2.app.key.Some? && y2.app.key == MyKey(y2.board, y2.app.id)
    ensures y2.keeper == Some(S.APub(c, ys[n].app.phase.init))
  {
    RunKeepsInv(c, id, evs, ys, n);
    RunKeepsScreen(c, id, evs, ys, n);
    y1 := TypingKeeps(c, ys[n], puts);
    y2 := Taking(c, y1, init, name, ip);
  }

  lemma TypingKeeps(c: Scheme, y: Sys, puts: nat) returns (y1: Sys)
    requires c.Laws() && Inv(c, y) && Screen(c, y) && y.step.Rest? && puts >= 3
    requires Shows(c, y.app, MyRequest(y.board, y.app.id))
    requires MyKey(y.board, y.app.id).Some? || B.FreePaired(y.board.paired) >= 0
    ensures Goes(c, y, Elsewhere(B.ECode(y.app.id, true, y.app.status.text, puts)), y1)
    ensures Inv(c, y1) && y1.app == y.app && y1.step.Rest? && y1.keeper == Some(S.APub(c, y.app.phase.init))
    ensures MyRequest(y1.board, y.app.id) == None && y.app.phase.confirmed.Some?
    ensures MyKey(y1.board, y.app.id) == Some(y.app.phase.confirmed.value.key)
  {
    Decimal.TypedIsShown(y.app.status.text, MyRequest(y.board, y.app.id).value.code);
    var e := B.ECode(y.app.id, true, y.app.status.text, puts);
    RightCodeAnswers(c, y.board, y.app.id, y.app.status.text, puts);
    ElsewhereKeeps(c, y, e);
    y1 := Elsewhere0(c, y, e);
  }

  lemma Taking(c: Scheme, y1: Sys, init: S.Initiator, name: string, ip: nat) returns (y2: Sys)
    requires Inv(c, y1) && y1.step.Rest? && y1.app.phase.Pairing? && y1.app.phase.announced && y1.app.phase.confirmed.Some?
    requires MyRequest(y1.board, y1.app.id) == None && MyKey(y1.board, y1.app.id) == Some(y1.app.phase.confirmed.value.key)
    ensures Goes(c, y1, Poll(Through, init, name, ip), y2)
    ensures y2.app.phase.Paired? && y2.app.key.Some? && y2.app.key == MyKey(y2.board, y2.app.id) && y2.keeper == y1.keeper
  {
    assert B.Handle(c, y1.board, B.EState(y1.app.id, ip)) == (y1.board, B.Standing(B.SPaired, 0, 0));
    y2 := Apply(c, y1, Poll(Through, init, name, ip));
  }
}
