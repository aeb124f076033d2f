/** Whose key the board keeps, and when the key the app takes is that one. */
module PairingKeys {
  import opened Common
  import opened Crypto
  import B = PairingBoard
  import S = Session
  import opened PairingSystem
  import opened PairingAgreement

  /** The attempt i derives k from some answer of the board's. */
  ghost predicate Derives(c: Scheme, i: S.Initiator, k: Blob) {
    exists bPub, nB :: S.Complete(c, i, bPub, nB) != None && S.Complete(c, i, bPub, nB).value.key == k
  }

  ghost predicate Mine(c: Scheme, app: S.State, p: Option<Blob>) {
    app.phase.Pairing? && p == Some(S.APub(c, app.phase.init))
  }

  /** A live request belongs to one of the app's attempts, whose pairing is not made yet; once the
      app was acknowledged, to its live attempt. */
  ghost predicate RequestFacts(c: Scheme, app: S.State, step: Step, used: map<Blob, S.Initiator>, keeper: Option<Blob>,
                               r: B.Request)
  {
    && r.aPub in used && r.commit == S.Commitment(c, used[r.aPub]) && keeper != Some(r.aPub)
    && (r.phase.CodeShown? ==> Derives(c, used[r.aPub], r.key))
    && (app.phase.Pairing? && app.phase.announced ==> Matches(c, app, r))
    && (Matches(c, app, r) && r.phase.CodeShown? ==> app.phase.announced)
    && (Matches(c, app, r) && step.WantReveal? ==> r.phase.Confirm?)
  }

  ghost predicate Facts(c: Scheme, app: S.State, step: Step, used: map<Blob, S.Initiator>, keeper: Option<Blob>, clean: bool,
                        r: Option<B.Request>, k: Option<Blob>)
  {
    && (forall p :: p in used ==> S.APub(c, used[p]) == p)
    && (keeper.Some? <==> k.Some?)
    && (keeper.Some? ==> keeper.value in used && Derives(c, used[keeper.value], k.value))
    && (app.phase.Pairing? && app.phase.confirmed.Some? ==> Derives(c, app.phase.init, app.phase.confirmed.value.key))
    && (Mine(c, app, keeper) ==>
          app.phase.announced && app.phase.confirmed.Some? && k == Some(app.phase.confirmed.value.key))
    && (step.WantReveal? ==> app.phase.Pairing? && app.phase.announced)
    && (step.WantUptime? ==> r == None && k == None)
    && (clean ==> app.phase.Pairing? && (keeper == None || Mine(c, app, keeper)))
    && (r.Some? && LiveRequest(r.value) ==> RequestFacts(c, app, step, used, keeper, r.value))
    && (clean && r.Some? && LiveRequest(r.value) ==> Matches(c, app, r.value))
  }

  ghost predicate KeyFacts(c: Scheme, y: Sys) {
    Facts(c, y.app, y.step, y.used, y.keeper, y.clean, MyRequest(y.board, y.app.id), MyKey(y.board, y.app.id))
  }

  /** The key both formulas give: opening the committed nonce derives what the attempt derives. */
  lemma OpensToDerived(c: Scheme, i: S.Initiator, r: B.Request, nA: Blob)
    requires c.Laws() && r.aPub == S.APub(c, i) && r.commit == S.Commitment(c, i) && c.commit(r.aPub, nA) == r.commit
    requires r.bPub == c.pub(r.bSec) && c.dh(r.bSec, r.aPub) != 0
    ensures Derives(c, i, c.kdf(c.dh(r.bSec, r.aPub), r.aPub, r.bPub, nA, r.nB))
  {
    assert nA == i.nA;
    assert c.dh(i.secret, c.pub(r.bSec)) == c.dh(r.bSec, c.pub(i.secret));
    assert S.Complete(c, i, r.bPub, r.nB) != None;
  }

  // ---- events that are not the app's own ----

  lemma ElsewhereFacts(c: Scheme, y: Sys, e: B.Event, r': Option<B.Request>, k': Option<Blob>)
    requires c.Laws() && Inv(c, y) && KeyFacts(c, y) && Allowed(c, y, Elsewhere(e))
    requires Effect(c, y.app.id, e, MyRequest(y.board, y.app.id), MyKey(y.board, y.app.id), r', k')
    ensures Facts(c, y.app, y.step, y.used, NextKeeper(y.app.id, e, MyRequest(y.board, y.app.id), r', k', y.keeper), y.clean, r', k')
  {
    if e.ECode? { CodeFacts(c, y, e, r', k'); } else if e.EReveal? { OpeningFacts(c, y, e, r', k'); }
  }

  lemma CodeFacts(c: Scheme, y: Sys, e: B.Event, r': Option<B.Request>, k': Option<Blob>)
    requires Inv(c, y) && KeyFacts(c, y) && e.ECode?
    requires Effect(c, y.app.id, e, MyRequest(y.board, y.app.id), MyKey(y.board, y.app.id), r', k')
    ensures Facts(c, y.app, y.step, y.used, NextKeeper(y.app.id, e, MyRequest(y.board, y.app.id), r', k', y.keeper), y.clean, r', k')
  {
  }

  lemma OpeningFacts(c: Scheme, y: Sys, e: B.Event, r': Option<B.Request>, k': Option<Blob>)
    requires c.Laws() && Inv(c, y) && KeyFacts(c, y) && e.EReveal? && Allowed(c, y, Elsewhere(e))
    requires Effect(c, y.app.id, e, MyRequest(y.board, y.app.id), MyKey(y.board, y.app.id), r', k')
    ensures Facts(c, y.app, y.step, y.used, NextKeeper(y.app.id, e, MyRequest(y.board, y.app.id), r', k', y.keeper), y.clean, r', k')
  {
    var r := MyRequest(y.board, y.app.id);
    if r' != r && r'.Some? { OpensToDerived(c, y.used[r.value.aPub], r.value, e.nA); }
  }

  lemma ElsewhereKeepsFacts(c: Scheme, y: Sys, e: B.Event)
    requires c.Laws() && Inv(c, y) && KeyFacts(c, y) && Allowed(c, y, Elsewhere(e))
    ensures KeyFacts(c, Elsewhere0(c, y, e))
  {
    var b' := B.Handle(c, y.board, e).0;
    HandleEffect(c, y.board, e, y.app.id);
    ElsewhereFacts(c, y, e, MyRequest(b', y.app.id), MyKey(b', y.app.id));
  }

  // ---- the app's own requests ----

  /** A hello that was answered stands on the board. */
  lemma HeardIsMine(c: Scheme, b: B.Board, app: S.State, e: B.Event)
    requires B.Tables(b) && app.phase.Pairing? && e.EHello? && e.id == app.id
    requires e.aPub == S.APub(c, app.phase.init) && e.commit == S.Commitment(c, app.phase.init)
    requires B.Handle(c, b, e).1.Standing?
    ensures var r' := MyRequest(B.Handle(c, b, e).0, app.id); r'.Some? && Matches(c, app, r'.value)
  {
    var r := MyRequest(b, app.id);
    HelloEffect(c, b, e, app.id);
    if !(r.Some? && B.SameAttempt(r.value, e.aPub, e.commit)) { AcceptedIsMine(c, b, e); }
  }

  /** What a poll adds to Polled: only hellos are accepted, an answered one stands on the board,
      and the app asks for the uptime only when the board knows nothing of it. */
  ghost predicate PolledMore(c: Scheme, y: Sys, y': Sys, accepted: bool, heard: bool)
    requires y.app.phase.Pairing?
  {
    var r' := MyRequest(y'.board, y.app.id);
    && (accepted ==> !y.app.phase.announced)
    && (heard && !y.app.phase.announced ==> r'.Some? && Matches(c, y.app, r'.value))
    && (y'.step.WantUptime? ==> r' == None && MyKey(y'.board, y.app.id) == None)
    && (y'.step.WantReveal? ==> heard)
  }

  lemma PollMeansMore(c: Scheme, y: Sys, d: Delivery, init: S.Initiator, name: string, ip: nat)
    requires Inv(c, y) && y.step.Rest? && y.app.phase.Pairing?
    ensures var e := PollEvent(c, y.app, name, ip);
      PolledMore(c, y, DoPoll(c, y, d, init, name, ip), Accepts(c, y.board, e, d), Carry(c, y.board, e, d).1.Ok?)
  {
    var e := PollEvent(c, y.app, name, ip);
    var (b, a) := Carry(c, y.board, e, d);
    PollBoard(c, y.board, y.app, name, ip, d);
    if a.Ok? && e.EHello? { HeardIsMine(c, y.board, y.app, e); }
    AsksWhenNone(c, y.app, a, y.time, MyRequest(b, y.app.id), MyKey(b, y.app.id));
  }

  lemma AsksWhenNone(c: Scheme, app: S.State, a: S.Answer, now: nat, r: Option<B.Request>, k: Option<Blob>)
    requires app.phase.Pairing? && (a.Ok? ==> a == Read(Seen(r, k))) && (r.Some? ==> r.value.phase != B.Free)
    ensures var n := S.OnPoll(c, app, a, now).1;
      (n.AskUptime? ==> r == None && k == None) && (n.SendReveal? ==> a.Ok?)
  {
  }

  lemma PolledKeepsFacts(c: Scheme, y: Sys, y': Sys, accepted: bool, heard: bool)
    requires Inv(c, y) && KeyFacts(c, y) && y.step.Rest? && y.app.phase.Pairing?
    requires Polled(c, y, y', accepted, heard) && PolledMore(c, y, y', accepted, heard)
    ensures KeyFacts(c, y')
  {
  }

  lemma PollKeepsFacts(c: Scheme, y: Sys, e: Event)
    requires Inv(c, y) && KeyFacts(c, y) && e.Poll? && Allowed(c, y, e)
    ensures KeyFacts(c, Apply(c, y, e))
  {
    BegunKeeps(c, y, e);
    var z := Begun(c, y, e.init);
    BegunKeepsFacts(c, y, e.init);
    var q := PollEvent(c, z.app, e.name, e.ip);
    PollIsPolled(c, z, e.d, e.init, e.name, e.ip);
    PollMeansMore(c, z, e.d, e.init, e.name, e.ip);
    PolledKeepsFacts(c, z, DoPoll(c, z, e.d, e.init, e.name, e.ip), Accepts(c, z.board, q, e.d), Carry(c, z.board, q, e.d).1.Ok?);
  }

  lemma BegunKeepsFacts(c: Scheme, y: Sys, init: S.Initiator)
    requires KeyFacts(c, y) && y.step.Rest? && (y.app.phase.Unpaired? ==> S.APub(c, init) !in y.used)
    ensures KeyFacts(c, Begun(c, y, init))
  {
  }

  lemma RevealKeepsFacts(c: Scheme, y: Sys, d: Delivery, keysOk: bool)
    requires c.Laws() && Inv(c, y) && KeyFacts(c, y) && y.step.WantReveal?
    ensures KeyFacts(c, DoReveal(c, y, d, keysOk))
  {
    var e := B.EReveal(y.app.id, y.app.phase.confirmed.value.nA, keysOk);
    var (b, a) := Carry(c, y.board, e, d);
    var (app1, n) := S.OnReveal(y.app, a);
    RevealBoard(c, y.board, e, d, y.app.id);
    RevealApp(y.app, a);
    RevealFacts(c, y, e, b, Settle(app1, n));
  }

  lemma RevealFacts(c: Scheme, y: Sys, e: B.Event, b: B.Board, app: S.State)
    requires c.Laws() && Inv(c, y) && KeyFacts(c, y) && y.step.WantReveal? && app.id == y.app.id
    requires e.EReveal? && e.id == y.app.id && e.nA == y.app.phase.confirmed.value.nA
    requires app.phase.Pairing? ==> app.phase == y.app.phase
    requires MyKey(b, y.app.id) == MyKey(y.board, y.app.id)
    requires MyRequest(b, y.app.id) == MyRequest(y.board, y.app.id)
      || Effect(c, y.app.id, e, MyRequest(y.board, y.app.id), MyKey(y.board, y.app.id), MyRequest(b, y.app.id), MyKey(b, y.app.id))
    ensures KeyFacts(c, Polling(y, b, app, Rest, y.used, y.clean, y.acked))
  {
    var r, r' := MyRequest(y.board, y.app.id), MyRequest(b, y.app.id);
    if r' != r && r'.Some? { OpensToDerived(c, y.used[r.value.aPub], r.value, e.nA); }
  }

  lemma LeaveKeepsFacts(c: Scheme, y: Sys, app: S.State)
    requires KeyFacts(c, y) && app.id == y.app.id && (app.phase.Pairing? ==> app.phase == y.app.phase)
    ensures KeyFacts(c, Leave(y, app))
  {
  }

  lemma UptimeKeepsFacts(c: Scheme, y: Sys, answered: bool)
    requires Inv(c, y) && KeyFacts(c, y) && y.step.WantUptime?
    ensures KeyFacts(c, DoUptime(y, answered))
  {
  }

  lemma ApplyKeepsFacts(c: Scheme, y: Sys, e: Event)
    requires c.Laws() && Inv(c, y) && KeyFacts(c, y) && Allowed(c, y, e)
    ensures KeyFacts(c, Apply(c, y, e))
  {
    match e
    case Poll(_, _, _, _) => PollKeepsFacts(c, y, e);
    case Reveal(d, keysOk) => RevealKeepsFacts(c, y, d, keysOk);
    case Uptime(answered) => UptimeKeepsFacts(c, y, answered);
    case AppError(a) => LeaveKeepsFacts(c, y, S.OnError(y.app, a).0);
    case AskToPair => LeaveKeepsFacts(c, y, S.RequestPairing(y.app));
    case ResetPairing => LeaveKeepsFacts(c, y, S.ResetPairing(y.app));
    case AppRestart => LeaveKeepsFacts(c, y, S.New(y.app.id, y.app.key));
    case Elsewhere(b) => ElsewhereKeepsFacts(c, y, b);
  }

  // ---- over every run ----

  lemma {:induction false} RunKeepsFacts(c: Scheme, id: Blob, evs: seq<Event>, ys: seq<Sys>, n: nat)
    requires c.Laws() && IsRun(c, id, evs, ys) && n <= |evs|
    ensures KeyFacts(c, ys[n])
  {
    if n > 0 {
      RunKeepsFacts(c, id, evs, ys, n - 1);
      RunKeepsInv(c, id, evs, ys, n - 1);
      LinkKeepsFacts(c, evs, ys, n - 1);
    }
  }

  lemma LinkKeepsFacts(c: Scheme, evs: seq<Event>, ys: seq<Sys>, m: nat)
    requires c.Laws() && Link(c, evs, ys, m) && Inv(c, ys[m]) && KeyFacts(c, ys[m])
    ensures KeyFacts(c, ys[m + 1])
  {
    ApplyKeepsFacts(c, ys[m], evs[m]);
  }

  /** The app takes a key in event n: it is the one its attempt derived, and the board has an entry. */
  lemma TakesDerived(c: Scheme, id: Blob, evs: seq<Event>, ys: seq<Sys>, n: nat)
    requires c.Laws() && IsRun(c, id, evs, ys) && n < |evs| && evs[n].Poll? && ys[n + 1].app.phase.Paired?
    ensures ys[n].app.phase.Pairing? && ys[n].app.phase.confirmed.Some?
    ensures ys[n + 1].app.key == Some(ys[n].app.phase.confirmed.value.key)
    ensures MyKey(ys[n].board, ys[n].app.id).Some? && MyKey(ys[n + 1].board, ys[n + 1].app.id) == MyKey(ys[n].board, ys[n].app.id)
  {
    RunKeepsInv(c, id, evs, ys, n);
    assert Link(c, evs, ys, n);
    TakingStep(c, ys[n], evs[n]);
  }

  lemma TakingStep(c: Scheme, y: Sys, e: Event)
    requires Inv(c, y) && e.Poll? && Allowed(c, y, e) && Apply(c, y, e).app.phase.Paired?
    ensures var y' := Apply(c, y, e);
      && y.app.phase.Pairing? && y.app.phase.confirmed.Some? && y'.app.key == Some(y.app.phase.confirmed.value.key)
      && MyKey(y.board, y.app.id).Some? && MyKey(y'.board, y'.app.id) == MyKey(y.board, y.app.id)
  {
    BegunKeeps(c, y, e);
    var z := Begun(c, y, e.init);
    var (b, a) := Carry(c, z.board, PollEvent(c, z.app, e.name, e.ip), e.d);
    PollBoard(c, z.board, z.app, e.name, e.ip, e.d);
    TakenKey(c, z.app, a, z.time, MyRequest(b, z.app.id), MyKey(b, z.app.id));
  }

  /** Agreement, exactly: when the app takes a key after "paired", it is the key in the board's
      table if and only if that entry was made by the code of this very attempt. */
  lemma KeysAgree(c: Scheme, id: Blob, evs: seq<Event>, ys: seq<Sys>, n: nat)
    requires c.Laws() && IsRun(c, id, evs, ys) && n < |evs| && evs[n].Poll? && ys[n + 1].app.phase.Paired?
    ensures ys[n + 1].app.key.Some? && MyKey(ys[n + 1].board, ys[n + 1].app.id).Some?
    ensures Mine(c, ys[n].app, ys[n].keeper) ==> ys[n + 1].app.key == MyKey(ys[n + 1].board, ys[n + 1].app.id)
    ensures S.KeysDiffer(c) && ys[n + 1].app.key == MyKey(ys[n + 1].board, ys[n + 1].app.id) ==> Mine(c, ys[n].app, ys[n].keeper)
  {
    RunKeepsFacts(c, id, evs, ys, n);
    RunKeepsInv(c, id, evs, ys, n);
    TakesDerived(c, id, evs, ys, n);
    var y := ys[n];
    var k := MyKey(y.board, y.app.id).value;
    if S.KeysDiffer(c) && y.app.phase.confirmed.value.key == k {
      SameKeySameAttempt(c, y.app.phase.init, y.used[y.keeper.value], k);
    }
  }

  lemma SameKeySameAttempt(c: Scheme, i: S.Initiator, j: S.Initiator, k: Blob)
    requires S.KeysDiffer(c) && Derives(c, i, k) && Derives(c, j, k)
    ensures i == j
  {
  }

  /** An attempt accepted while the board had no entry of this computer ends with the board's key. */
  lemma CleanAgrees(c: Scheme, id: Blob, evs: seq<Event>, ys: seq<Sys>, n: nat)
    requires c.Laws() && IsRun(c, id, evs, ys) && n < |evs| && evs[n].Poll? && ys[n + 1].app.phase.Paired? && ys[n].clean
    ensures ys[n + 1].app.key.Some? && ys[n + 1].app.key == MyKey(ys[n + 1].board, ys[n + 1].app.id)
  {
    RunKeepsFacts(c, id, evs, ys, n);
    TakesDerived(c, id, evs, ys, n);
    KeysAgree(c, id, evs, ys, n);
  }

  /** Event j confirmed the request of the attempt with public key p, and its key is the entry. */
  ghost predicate MadeAt(evs: seq<Event>, ys: seq<Sys>, j: nat, n: nat, p: Blob) {
    && j < n < |ys| && j < |evs| && evs[j].Elsewhere? && evs[j].event.ECode? && evs[j].event.id == ys[j].app.id
    && var r := MyRequest(ys[j].board, ys[j].app.id);
    && r.Some? && r.value.phase.CodeShown? && r.value.aPub == p
    && MyKey(ys[n].board, ys[n].app.id) == Some(r.value.key)
    && forall m :: j < m <= n ==> MyKey(ys[m].board, ys[m].app.id) == Some(r.value.key)
  }

  /** What "made by this attempt" means in events: a code typed for its request made the entry,
      which has stood unchanged since. */
  lemma {:induction false} KeeperHasStory(c: Scheme, id: Blob, evs: seq<Event>, ys: seq<Sys>, n: nat)
    requires c.Laws() && IsRun(c, id, evs, ys) && n <= |evs| && ys[n].keeper.Some?
    ensures exists j: nat :: MadeAt(evs, ys, j, n, ys[n].keeper.value)
  {
    if n > 0 {
      var m := n - 1;
      KeeperInRun(c, id, evs, ys, m);
      if !MadeAt(evs, ys, m, n, ys[n].keeper.value) {
        KeeperHasStory(c, id, evs, ys, m);
        var j: nat :| MadeAt(evs, ys, j, m, ys[m].keeper.value);
        MadeStays(evs, ys, j, m, ys[m].keeper.value);
      }
    }
  }

  lemma MadeStays(evs: seq<Event>, ys: seq<Sys>, j: nat, m: nat, p: Blob)
    requires MadeAt(evs, ys, j, m, p) && m + 1 < |ys| && ys[m + 1].app.id == ys[m].app.id
    requires MyKey(ys[m + 1].board, ys[m].app.id) == MyKey(ys[m].board, ys[m].app.id)
    ensures MadeAt(evs, ys, j, m + 1, p)
  {
  }

  lemma KeeperInRun(c: Scheme, id: Blob, evs: seq<Event>, ys: seq<Sys>, m: nat)
    requires c.Laws() && IsRun(c, id, evs, ys) && m < |evs| && ys[m + 1].keeper.Some?
    ensures ys[m + 1].app.id == ys[m].app.id
    ensures MadeAt(evs, ys, m, m + 1, ys[m + 1].keeper.value)
      || (ys[m + 1].keeper == ys[m].keeper && MyKey(ys[m + 1].board, ys[m].app.id) == MyKey(ys[m].board, ys[m].app.id))
  {
    RunKeepsInv(c, id, evs, ys, m);
    KeeperLink(c, evs, ys, m);
  }

  lemma KeeperLink(c: Scheme, evs: seq<Event>, ys: seq<Sys>, m: nat)
    requires Link(c, evs, ys, m) && Inv(c, ys[m]) && ys[m + 1].keeper.Some?
    ensures ys[m + 1].app.id == ys[m].app.id
    ensures MadeAt(evs, ys, m, m + 1, ys[m + 1].keeper.value)
      || (ys[m + 1].keeper == ys[m].keeper && MyKey(ys[m + 1].board, ys[m].app.id) == MyKey(ys[m].board, ys[m].app.id))
  {
    KeeperStep(c, ys[m], evs[m]);
  }

  /** An event leaves the entry and its maker, or makes one from a confirmed request. */
  ghost predicate SameOrMade(y: Sys, e: Event, y': Sys) {
    var id, r := y.app.id, MyRequest(y.board, y.app.id);
    && y'.app.id == id
    && (|| (y'.keeper == y.keeper && MyKey(y'.board, id) == MyKey(y.board, id))
        || (e.Elsewhere? && e.event.ECode? && e.event.id == id && r.Some? && r.value.phase.CodeShown?
            && y'.keeper == Some(r.value.aPub) && MyKey(y'.board, id) == Some(r.value.key)))
  }

  lemma KeeperStep(c: Scheme, y: Sys, e: Event)
    requires Inv(c, y) && Allowed(c, y, e) && Apply(c, y, e).keeper.Some?
    ensures SameOrMade(y, e, Apply(c, y, e))
  {
    match e
    case Poll(d, init, name, ip) =>
      BegunKeeps(c, y, e);
      PollIsPolled(c, Begun(c, y, init), d, init, name, ip);
    case Reveal(d, keysOk) => RevealKeepsKeeper(c, y, d, keysOk);
    case Elsewhere(b) => ElsewhereKeeper(c, y, b);
    case _ =>
  }

  lemma RevealKeepsKeeper(c: Scheme, y: Sys, d: Delivery, keysOk: bool)
    requires Inv(c, y) && y.step.WantReveal?
    ensures var y' := DoReveal(c, y, d, keysOk);
      y'.app.id == y.app.id && y'.keeper == y.keeper && MyKey(y'.board, y.app.id) == MyKey(y.board, y.app.id)
  {
    var e := B.EReveal(y.app.id, y.app.phase.confirmed.value.nA, keysOk);
    RevealBoard(c, y.board, e, d, y.app.id);
    RevealApp(y.app, Carry(c, y.board, e, d).1);
  }

  lemma ElsewhereKeeper(c: Scheme, y: Sys, e: B.Event)
    requires Inv(c, y) && B.Possible(e) && Elsewhere0(c, y, e).keeper.Some?
    ensures SameOrMade(y, Elsewhere(e), Elsewhere0(c, y, e))
  {
    var b := B.Handle(c, y.board, e).0;
    HandleEffect(c, y.board, e, y.app.id);
    NextOrSame(c, y.app.id, e, MyRequest(y.board, y.app.id), MyKey(y.board, y.app.id), MyRequest(b, y.app.id), MyKey(b, y.app.id), y.keeper);
  }

  lemma NextOrSame(c: Scheme, id: Blob, e: B.Event, r: Option<B.Request>, k: Option<Blob>, r': Option<B.Request>, k': Option<Blob>,
                   keeper: Option<Blob>)
    requires Effect(c, id, e, r, k, r', k') && k'.Some?
    ensures var n := NextKeeper(id, e, r, r', k', keeper);
      || (n == keeper && k' == k)
      || (e.ECode? && e.id == id && r.Some? && r.value.phase.CodeShown? && n == Some(r.value.aPub) && k' == Some(r.value.key))
  {
  }
}
