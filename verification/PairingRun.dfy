/** Runs that exist: a pairing that goes through for every computer, every key and every board, a
    new pairing misled by an older one, and an attempt acknowledged twice when the clock wraps. */
module PairingRun {
  import opened Common
  import opened Crypto
  import opened Clock32
  import Decimal
  import B = PairingBoard
  import S = Session
  import opened PairingSystem
  import A = PairingAgreement

  // ---- a board with at most one request ----

  ghost predicate Empty(b: B.Board) { B.Shape(b) && b.pending == [B.WIPED, B.WIPED, B.WIPED, B.WIPED] }

  function Holding(b: B.Board, p: B.Request): B.Board { b.(pending := [p, B.WIPED, B.WIPED, B.WIPED]) }

  function Asked(c: Scheme, b: B.Board, id: Blob, init: S.Initiator, name: string, ip: nat): B.Request {
    B.NewRequest(id, name, S.APub(c, init), S.Commitment(c, init), ip, Millis(b.now))
  }

  function Agreed(c: Scheme, b: B.Board, p: B.Request, bSec: Blob, nB: Blob): B.Request {
    p.(bSec := bSec, nB := nB, bPub := c.pub(bSec), phase := B.Confirm, at := Millis(b.now))
  }

  function Shown(c: Scheme, b: B.Board, p: B.Request, nA: Blob): B.Request {
    p.(bSec := 0, code := c.Sas(p.aPub, p.bPub, nA, p.nB), key := c.kdf(c.dh(p.bSec, p.aPub), p.aPub, p.bPub, nA, p.nB),
       phase := B.CodeShown, at := Millis(b.now))
  }

  ghost predicate Held(b: B.Board, p: B.Request) { Empty(b) && p.phase != B.Free && p.at < WRAP }

  lemma HeldIsFound(b: B.Board, p: B.Request)
    requires Held(b, p)
    ensures B.Shape(Holding(b, p)) && B.FindPending(Holding(b, p).pending, p.id) == 0
    ensures MyRequest(Holding(b, p), p.id) == Some(p) && MyKey(Holding(b, p), p.id) == MyKey(b, p.id)
  {
    assert Holding(b, p).pending[0] == p;
  }

  lemma HelloTaken(c: Scheme, b: B.Board, id: Blob, init: S.Initiator, name: string, ip: nat)
    requires Empty(b) && |name| <= B.NAME_MAX
    ensures var e := B.EHello(1, id, name, S.APub(c, init), S.Commitment(c, init), ip);
      B.Handle(c, b, e) == (Holding(b, Asked(c, b, id, init, name, ip)), B.Standing(B.SPending, 0, 0))
    ensures MyRequest(b, id) == None
  {
    assert B.FindPending(b.pending, id) < 0;
    var ps := B.Cleared(b.pending, id, ip);
    assert ps == b.pending;
    assert ps[0].phase == B.Free && B.FreePending(ps) == 0;
    var p := Asked(c, b, id, init, name, ip);
    assert ps[0 := p] == [p, B.WIPED, B.WIPED, B.WIPED];
    HeldIsFound(b, p);
  }

  lemma Approved(c: Scheme, b: B.Board, p: B.Request, bSec: Blob, nB: Blob)
    requires Held(b, p) && p.phase == B.Pending
    ensures B.Shape(Holding(b, p)) && Held(b, Agreed(c, b, p, bSec, nB))
    ensures B.Handle(c, Holding(b, p), B.EApprove(p.id, true, bSec, nB, true)).0 == Holding(b, Agreed(c, b, p, bSec, nB))
  {
    HeldIsFound(b, p);
    assert Holding(b, p).pending[0 := Agreed(c, b, p, bSec, nB)] == Holding(b, Agreed(c, b, p, bSec, nB)).pending;
  }

  lemma Told(c: Scheme, b: B.Board, p: B.Request, ip: nat)
    requires Held(b, p) && p.phase == B.Confirm
    ensures B.Shape(Holding(b, p))
    ensures B.Handle(c, Holding(b, p), B.EState(p.id, ip)) == (Holding(b, p), B.Standing(B.SConfirm, p.bPub, p.nB))
  {
    HeldIsFound(b, p);
  }

  lemma Opened(c: Scheme, b: B.Board, p: B.Request, nA: Blob)
    requires Held(b, p) && p.phase == B.Confirm && c.commit(p.aPub, nA) == p.commit && c.dh(p.bSec, p.aPub) != 0
    ensures B.Shape(Holding(b, p)) && Held(b, Shown(c, b, p, nA))
    ensures B.Handle(c, Holding(b, p), B.EReveal(p.id, nA, true)) == (Holding(b, Shown(c, b, p, nA)), B.Standing(B.SCodeShown, 0, 0))
  {
    HeldIsFound(b, p);
    HeldIsFound(b, Shown(c, b, p, nA));
    assert Holding(b, p).pending[0 := Shown(c, b, p, nA)] == Holding(b, Shown(c, b, p, nA)).pending;
  }

  /** Typing the code on the computer's screen. */
  lemma Kept(c: Scheme, b: B.Board, p: B.Request)
    requires Held(b, p) && p.phase == B.CodeShown && p.code < 1_000_000 && B.FreePaired(b.paired) >= 0
    ensures B.Shape(Holding(b, p)) && Decimal.FormatCode(p.code) != []
    ensures var b' := B.Handle(c, Holding(b, p), B.ECode(p.id, true, Decimal.FormatCode(p.code), 3)).0;
      Empty(b') && MyRequest(b', p.id) == None && MyKey(b', p.id) == Some(p.key) && b'.now == b.now && b'.lastTick == b.lastTick
  {
    HeldIsFound(b, p);
    var text := Decimal.FormatCode(p.code);
    Decimal.TypedIsShown(text, p.code);
    assert B.RightCode(text, p.code);
    var h := Holding(b, p);
    var found := B.FindPaired(b.paired, p.id);
    var slot := if found >= 0 then found else B.FreePaired(b.paired);
    var b' := B.Keep(h, 0, slot, 3).0;
    assert b'.pending == [B.WIPED, B.WIPED, B.WIPED, B.WIPED];
    assert b'.paired[slot] == B.Entry(true, p.id, p.name, p.key);
    FoundFirst(b.paired, slot, p);
  }

  lemma FoundFirst(es: seq<B.Entry>, slot: nat, p: B.Request)
    requires slot < |es| && (B.FindPaired(es, p.id) == slot || B.FindPaired(es, p.id) < 0)
    ensures KeyIn(es[slot := B.Entry(true, p.id, p.name, p.key)], p.id) == Some(p.key)
  {
    var x := es[slot := B.Entry(true, p.id, p.name, p.key)];
    assert x[slot].used && x[slot].id == p.id;
    if B.FindPaired(es, p.id) == slot { EarlierStay(es, slot, p.id); }
  }

  lemma EarlierStay(es: seq<B.Entry>, slot: nat, id: Blob)
    requires slot < |es| && B.FindPaired(es, id) == slot
    ensures forall j :: 0 <= j < slot ==> !(es[j].used && es[j].id == id)
  {
  }

  // ---- the same for the two together ----

  function AppAt(app: S.State, init: S.Initiator, confirmed: Option<S.Confirmed>, at: nat, status: S.Status): S.State {
    app.(phase := S.Pairing(init, confirmed, true, Some(at)), status := status)
  }

  /** Between steps, with no attempt under way, on an empty board. */
  ghost predicate Fresh(y: Sys) {
    && Empty(y.board) && y.step.Rest? && y.app.phase.Unpaired?
    && (MyKey(y.board, y.app.id) == None ==> y.keeper == None)
  }

  /** The system with the attempt of init acknowledged and its request on the board. */
  ghost predicate Trying(c: Scheme, y: Sys, b: B.Board, p: B.Request, init: S.Initiator) {
    && Held(b, p) && y.board == Holding(b, p) && p.id == y.app.id
    && p.aPub == S.APub(c, init) && p.commit == S.Commitment(c, init)
    && y.app.phase.Pairing? && y.app.phase.init == init && y.app.phase.announced && y.app.phase.askedAt.Some?
    && S.APub(c, init) in y.used && y.used[S.APub(c, init)] == init
    && (MyKey(b, p.id) == None ==> y.keeper == None)
  }

  lemma Announces(c: Scheme, y: Sys, init: S.Initiator, name: string, ip: nat)
    requires Fresh(y) && |name| <= B.NAME_MAX && S.APub(c, init) !in y.used
    ensures var p := Asked(c, y.board, y.app.id, init, name, ip);
      var y' := y.(board := Holding(y.board, p), app := AppAt(y.app, init, None, y.time, S.WaitingForApproval),
                   used := y.used[S.APub(c, init) := init], clean := MyKey(y.board, y.app.id) == None, acked := true);
      A.Goes(c, y, Poll(Through, init, name, ip), y') && Trying(c, y', y.board, p, init)
  {
    HelloTaken(c, y.board, y.app.id, init, name, ip);
  }

  function Later(y: Sys, ms: nat): Sys { y.(board := y.board.(now := y.board.now + ms), time := y.time + ms) }

  lemma TimePasses(c: Scheme, y: Sys, ms: nat)
    requires B.Shape(y.board) && y.step.Rest? && (MyKey(y.board, y.app.id) == None ==> y.keeper == None)
    ensures A.Goes(c, y, Elsewhere(B.EPass(ms)), Later(y, ms))
  {
  }

  lemma IsApproved(c: Scheme, y: Sys, b: B.Board, p: B.Request, init: S.Initiator, bSec: Blob, nB: Blob)
    requires Trying(c, y, b, p, init) && p.phase == B.Pending && y.step.Rest?
    ensures var q := Agreed(c, b, p, bSec, nB);
      var y' := y.(board := Holding(b, q));
      A.Goes(c, y, Elsewhere(B.EApprove(p.id, true, bSec, nB, true)), y') && Trying(c, y', b, q, init)
  {
    Approved(c, b, p, bSec, nB);
  }

  lemma Learns(c: Scheme, y: Sys, b: B.Board, p: B.Request, init: S.Initiator, done: S.Confirmed, name: string, ip: nat)
    requires Trying(c, y, b, p, init) && p.phase == B.Confirm && y.step.Rest? && S.Complete(c, init, p.bPub, p.nB) == Some(done)
    ensures var y' := y.(app := y.app.(phase := y.app.phase.(confirmed := Some(done))), step := WantReveal);
      A.Goes(c, y, Poll(Through, init, name, ip), y') && Trying(c, y', b, p, init)
  {
    Told(c, b, p, ip);
    assert y.used[S.APub(c, init) := init] == y.used;
  }

  lemma Reveals(c: Scheme, y: Sys, b: B.Board, p: B.Request, init: S.Initiator, done: S.Confirmed)
    requires Trying(c, y, b, p, init) && p.phase == B.Confirm && c.dh(p.bSec, p.aPub) != 0
    requires y.step.WantReveal? && y.app.phase.confirmed == Some(done) && done.nA == init.nA
    ensures var q := Shown(c, b, p, init.nA);
      var y' := y.(board := Holding(b, q), step := Rest, app := y.app.(status := S.ShowCode(Decimal.FormatCode(done.code))));
      A.Goes(c, y, Reveal(Through, true), y') && Trying(c, y', b, q, init)
  {
    Opened(c, b, p, init.nA);
  }

  lemma IsConfirmed(c: Scheme, y: Sys, b: B.Board, p: B.Request, init: S.Initiator) returns (y': Sys)
    requires Trying(c, y, b, p, init) && p.phase == B.CodeShown && p.code < 1_000_000 && B.FreePaired(b.paired) >= 0 && y.step.Rest?
    ensures A.Goes(c, y, Elsewhere(B.ECode(p.id, true, Decimal.FormatCode(p.code), 3)), y')
    ensures y' == y.(board := y'.board, keeper := Some(p.aPub)) && Empty(y'.board) && y'.board.now == b.now && y'.board.lastTick == b.lastTick
    ensures MyRequest(y'.board, p.id) == None && MyKey(y'.board, p.id) == Some(p.key)
  {
    Kept(c, b, p);
    HeldIsFound(b, p);
    y' := Apply(c, y, Elsewhere(B.ECode(p.id, true, Decimal.FormatCode(p.code), 3)));
  }

  /** The board says paired: the app takes the key it derived. */
  lemma Takes(c: Scheme, y: Sys, done: S.Confirmed, name: string, ip: nat)
    requires B.Shape(y.board) && y.step.Rest? && y.app.phase.Pairing? && y.app.phase.announced
    requires y.app.phase.confirmed == Some(done) && MyRequest(y.board, y.app.id) == None && MyKey(y.board, y.app.id).Some?
    ensures var e := Poll(Through, y.app.phase.init, name, ip);
      && A.Goes(c, y, e, Apply(c, y, e))
      && var y' := Apply(c, y, e);
      && y'.app.phase.Paired? && y'.app.key == Some(done.key) && y'.app.id == y.app.id && y'.step.Rest?
      && y'.board == y.board && y'.keeper == y.keeper && y'.time == y.time
      && y'.used == y.used[S.APub(c, y.app.phase.init) := y.app.phase.init]
  {
    assert B.Handle(c, y.board, B.EState(y.app.id, ip)) == (y.board, B.Standing(B.SPaired, 0, 0));
  }

  // ---- runs ----

  /** y is the state after some run of n events. */
  ghost predicate Reached(c: Scheme, id: Blob, n: nat, y: Sys) {
    exists evs: seq<Event>, ys: seq<Sys> :: A.IsRun(c, id, evs, ys) && |evs| == n && ys[n] == y
  }

  lemma Longer(c: Scheme, id: Blob, n: nat, y: Sys, e: Event, y': Sys)
    requires Reached(c, id, n, y) && A.Goes(c, y, e, y')
    ensures Reached(c, id, n + 1, y')
  {
    var evs: seq<Event>, ys: seq<Sys> :| A.IsRun(c, id, evs, ys) && |evs| == n && ys[n] == y;
    Append(c, id, evs, ys, e, y');
    assert (ys + [y'])[n + 1] == y';
  }

  lemma Append(c: Scheme, id: Blob, evs: seq<Event>, ys: seq<Sys>, e: Event, y: Sys)
    requires A.IsRun(c, id, evs, ys) && A.Goes(c, ys[|evs|], e, y)
    ensures A.IsRun(c, id, evs + [e], ys + [y])
  {
    var evs2, ys2 := evs + [e], ys + [y];
    forall m | 0 <= m < |evs2| ensures A.Link(c, evs2, ys2, m) {
      if m < |evs| { SameLink(c, evs, ys, evs2, ys2, m); }
    }
  }

  lemma SameLink(c: Scheme, evs: seq<Event>, ys: seq<Sys>, evs2: seq<Event>, ys2: seq<Sys>, m: nat)
    requires A.Link(c, evs, ys, m) && m < |evs2| && m + 1 < |ys2|
    requires evs2[m] == evs[m] && ys2[m] == ys[m] && ys2[m + 1] == ys[m + 1]
    ensures A.Link(c, evs2, ys2, m)
  {
  }

  lemma StartReached(c: Scheme, id: Blob)
    ensures Reached(c, id, 0, Start(id)) && Fresh(Start(id)) && B.FreePaired(Start(id).board.paired) >= 0
  {
    assert A.IsRun(c, id, [], [Start(id)]) && [Start(id)][0] == Start(id);
    assert !Start(id).board.paired[0].used;
  }

  /** Four events from an empty board the code stands on both sides. */
  lemma ReachesShown(c: Scheme, id: Blob, n: nat, y: Sys, init: S.Initiator, bSec: Blob, nB: Blob, name: string, ip: nat)
    returns (y': Sys, p: B.Request, done: S.Confirmed)
    requires c.Laws() && Reached(c, id, n, y) && Fresh(y) && |name| <= B.NAME_MAX && S.APub(c, init) !in y.used
    requires c.dh(init.secret, c.pub(bSec)) != 0
    ensures Reached(c, id, n + 4, y') && Trying(c, y', y.board, p, init) && p.phase == B.CodeShown && y'.step.Rest?
    ensures p.code < 1_000_000 && p.at == Millis(y.board.now) && y'.app.id == y.app.id
    ensures S.Complete(c, init, c.pub(bSec), nB) == Some(done) && y'.app.phase.confirmed == Some(done) && p.key == done.key
    ensures y'.time == y.time && y'.keeper == y.keeper && y'.used == y.used[S.APub(c, init) := init]
  {
    done := S.Complete(c, init, c.pub(bSec), nB).value;
    assert c.dh(bSec, c.pub(init.secret)) == c.dh(init.secret, c.pub(bSec));
    var p1 := Asked(c, y.board, y.app.id, init, name, ip);
    Announces(c, y, init, name, ip);
    var y1 := Apply(c, y, Poll(Through, init, name, ip));
    Longer(c, id, n, y, Poll(Through, init, name, ip), y1);
    p, y' := Converses(c, id, n + 1, y1, y.board, p1, init, bSec, nB, done, name, ip);
  }

  lemma Converses(c: Scheme, id: Blob, n: nat, y: Sys, b: B.Board, p: B.Request, init: S.Initiator, bSec: Blob, nB: Blob,
                  done: S.Confirmed, name: string, ip: nat)
    returns (q: B.Request, y': Sys)
    requires Reached(c, id, n, y) && Trying(c, y, b, p, init) && p.phase == B.Pending && y.step.Rest?
    requires S.Complete(c, init, c.pub(bSec), nB) == Some(done) && c.dh(bSec, p.aPub) == c.dh(init.secret, c.pub(bSec)) != 0
    ensures Reached(c, id, n + 3, y') && Trying(c, y', b, q, init) && q.phase == B.CodeShown && y'.step.Rest?
    ensures q.code < 1_000_000 && q.at == Millis(b.now) && q.key == done.key && y'.app.phase.confirmed == Some(done)
    ensures y'.app.id == y.app.id && y'.time == y.time && y'.keeper == y.keeper && y'.used == y.used
  {
    var p2 := Agreed(c, b, p, bSec, nB);
    var y2 := y.(board := Holding(b, p2));
    IsApproved(c, y, b, p, init, bSec, nB);
    Longer(c, id, n, y, Elsewhere(B.EApprove(p.id, true, bSec, nB, true)), y2);
    var y3 := y2.(app := y2.app.(phase := y2.app.phase.(confirmed := Some(done))), step := WantReveal);
    Learns(c, y2, b, p2, init, done, name, ip);
    Longer(c, id, n + 1, y2, Poll(Through, init, name, ip), y3);
    q := Shown(c, b, p2, init.nA);
    y' := y3.(board := Holding(b, q), step := Rest, app := y3.app.(status := S.ShowCode(Decimal.FormatCode(done.code))));
    Reveals(c, y3, b, p2, init, done);
    Longer(c, id, n + 2, y3, Reveal(Through, true), y');
  }

  /** Six events from an empty board with a free place, the computer is paired. */
  lemma ReachesPaired(c: Scheme, id: Blob, n: nat, y: Sys, init: S.Initiator, bSec: Blob, nB: Blob, name: string, ip: nat)
    returns (y': Sys)
    requires c.Laws() && Reached(c, id, n, y) && Fresh(y) && |name| <= B.NAME_MAX && S.APub(c, init) !in y.used
    requires c.dh(init.secret, c.pub(bSec)) != 0 && B.FreePaired(y.board.paired) >= 0
    ensures Reached(c, id, n + 6, y') && y'.app.phase.Paired? && y'.app.id == y.app.id && Empty(y'.board) && y'.step.Rest?
    ensures S.Complete(c, init, c.pub(bSec), nB).Some? && y'.app.key == Some(S.Complete(c, init, c.pub(bSec), nB).value.key)
    ensures MyKey(y'.board, y'.app.id) == y'.app.key && y'.keeper == Some(S.APub(c, init))
    ensures y'.board.now == y.board.now && y'.board.lastTick == y.board.lastTick
    ensures y'.used == y.used[S.APub(c, init) := init]
  {
    var y4, p, done := ReachesShown(c, id, n, y, init, bSec, nB, name, ip);
    var y5 := IsConfirmed(c, y4, y.board, p, init);
    Longer(c, id, n + 4, y4, Elsewhere(B.ECode(p.id, true, Decimal.FormatCode(p.code), 3)), y5);
    Takes(c, y5, done, name, ip);
    y' := Apply(c, y5, Poll(Through, init, name, ip));
    Longer(c, id, n + 5, y5, Poll(Through, init, name, ip), y');
  }

  /** Whenever the two keys do not share a low-order point, six events pair the computer: it is
      announced, approved, told the board's key, opens its commitment, has its own code typed
      on the dashboard, and takes the key the board has kept. */
  lemma PairingCompletes(c: Scheme, id: Blob, init: S.Initiator, name: string, ip: nat, bSec: Blob, nB: Blob)
    requires c.Laws() && |name| <= B.NAME_MAX && c.dh(init.secret, c.pub(bSec)) != 0
    ensures exists y: Sys :: Reached(c, id, 6, y) && y.app.phase.Paired? && y.app.key.Some? && MyKey(y.board, id) == y.app.key
  {
    StartReached(c, id);
    var y := ReachesPaired(c, id, 0, Start(id), init, bSec, nB, name, ip);
  }

  // ---- an older pairing misleads a new attempt ----

  /** Over two minutes after the code was shown, the request is gone and the pairing is not. */
  lemma Lapses(c: Scheme, id: Blob, n: nat, y: Sys, b: B.Board, p: B.Request, init: S.Initiator) returns (y': Sys)
    requires Reached(c, id, n, y) && Trying(c, y, b, p, init) && y.step.Rest? && MyKey(b, p.id).Some?
    requires b.now == 0 && b.lastTick == 0 && p.at == 0
    ensures Reached(c, id, n + 2, y') && y'.app == y.app && y'.step.Rest? && y'.keeper == y.keeper
    ensures Empty(y'.board) && MyRequest(y'.board, y.app.id) == None && MyKey(y'.board, y.app.id) == MyKey(b, p.id)
  {
    HeldIsFound(b, p);
    var y1 := Later(y, 200_000);
    TimePasses(c, y, 200_000);
    Longer(c, id, n, y, Elsewhere(B.EPass(200_000)), y1);
    Expires(c, y1.board, p);
    y' := Apply(c, y1, Elsewhere(B.ETick));
    Longer(c, id, n + 1, y1, Elsewhere(B.ETick), y');
  }

  lemma Expires(c: Scheme, b: B.Board, p: B.Request)
    requires B.Shape(b) && b.pending == [p, B.WIPED, B.WIPED, B.WIPED] && p.phase != B.Free && p.at == 0
    requires b.now == 200_000 && b.lastTick == 0
    ensures Empty(B.Tick(b)) && B.Tick(b) == b.(pending := B.Tick(b).pending, lastTick := 200_000)
  {
    assert Since(200_000, 0) == 200_000;
    assert B.Tick(b).pending == [B.WIPED, B.WIPED, B.WIPED, B.WIPED];
  }

  lemma Resets(c: Scheme, id: Blob, n: nat, y: Sys) returns (y': Sys)
    requires Reached(c, id, n, y) && y.app.phase.Paired? && y.step.Rest? && Empty(y.board) && MyKey(y.board, y.app.id).Some?
    ensures Reached(c, id, n + 1, y') && Fresh(y') && y' == y.(app := y'.app, clean := y'.clean, acked := y'.acked)
    ensures y'.app.id == y.app.id
  {
    y' := Apply(c, y, ResetPairing);
    Longer(c, id, n, y, ResetPairing, y');
  }

  /** The state the second attempt starts from: the first one's pairing stands. */
  lemma PairsAndResets(c: Scheme, id: Blob, init: S.Initiator, bSec: Blob, nB: Blob, name: string, ip: nat) returns (y: Sys)
    requires c.Laws() && |name| <= B.NAME_MAX && c.dh(init.secret, c.pub(bSec)) != 0
    ensures Reached(c, id, 7, y) && Fresh(y) && y.board.now == 0 && y.board.lastTick == 0
    ensures y.used.Keys == {S.APub(c, init)} && y.keeper == Some(S.APub(c, init))
    ensures S.Complete(c, init, c.pub(bSec), nB).Some? && MyKey(y.board, y.app.id) == Some(S.Complete(c, init, c.pub(bSec), nB).value.key)
  {
    StartReached(c, id);
    var y6 := ReachesPaired(c, id, 0, Start(id), init, bSec, nB, name, ip);
    y := Resets(c, id, 6, y6);
  }

  lemma LapsesInto(c: Scheme, id: Blob, y: Sys, init: S.Initiator, bSec: Blob, nB: Blob, name: string, ip: nat) returns (y': Sys)
    requires c.Laws() && |name| <= B.NAME_MAX && c.dh(init.secret, c.pub(bSec)) != 0
    requires Reached(c, id, 7, y) && Fresh(y) && y.board.now == 0 && y.board.lastTick == 0 && MyKey(y.board, y.app.id).Some?
    requires S.APub(c, init) !in y.used
    ensures Reached(c, id, 14, y') && y'.app.phase.Paired? && y'.keeper == y.keeper && MyKey(y'.board, y'.app.id) == MyKey(y.board, y.app.id)
    ensures S.Complete(c, init, c.pub(bSec), nB).Some? && y'.app.key == Some(S.Complete(c, init, c.pub(bSec), nB).value.key)
  {
    var y4, p, done := ReachesShown(c, id, 7, y, init, bSec, nB, name, ip);
    var y6 := Lapses(c, id, 11, y4, y.board, p, init);
    Takes(c, y6, done, name, ip);
    y' := Apply(c, y6, Poll(Through, init, name, ip));
    Longer(c, id, 13, y6, Poll(Through, init, name, ip), y');
  }

  /** Agreement can fail: a computer that paired, was reset by its user and asks again reaches the
      code step; the attempt lapses there, the board answers "paired" for the older entry, and
      the app takes a key the board does not have. The next heartbeat is refused, and the app
      drops the key. */
  lemma OlderPairingMisleads(c: Scheme, id: Blob, i1: S.Initiator, i2: S.Initiator, name: string, ip: nat,
                             bSec1: Blob, nB1: Blob, bSec2: Blob, nB2: Blob)
    requires c.Laws() && S.KeysDiffer(c) && |name| <= B.NAME_MAX && S.APub(c, i1) != S.APub(c, i2)
    requires c.dh(i1.secret, c.pub(bSec1)) != 0 && c.dh(i2.secret, c.pub(bSec2)) != 0
    ensures exists y: Sys ::
      && Reached(c, id, 14, y) && y.app.phase.Paired? && y.app.key.Some? && MyKey(y.board, y.app.id).Some?
      && y.app.key != MyKey(y.board, y.app.id) && y.keeper == Some(S.APub(c, i1))
      && S.OnError(y.app, S.Refused(S.BadProof)).0.key == None
  {
    var y7 := PairsAndResets(c, id, i1, bSec1, nB1, name, ip);
    var y14 := LapsesInto(c, id, y7, i2, bSec2, nB2, name, ip);
  }

  // ---- an attempt acknowledged twice ----

  ghost predicate NoRestart(evs: seq<Event>) { forall j :: 0 <= j < |evs| ==> evs[j] != Elsewhere(B.ERestart) }

  /** After n events without a restart, the second of which acknowledged the attempt. */
  ghost predicate Tried(c: Scheme, id: Blob, init: S.Initiator, n: nat, y: Sys, evs: seq<Event>, ys: seq<Sys>) {
    && A.IsRun(c, id, evs, ys) && |evs| == n >= 2 && ys[n] == y && NoRestart(evs)
    && A.HelloHeard(c, evs, ys, 1) && A.OneAttempt(ys, init, 1, n)
  }

  ghost predicate Waits(c: Scheme, id: Blob, init: S.Initiator, n: nat, y: Sys) {
    exists evs: seq<Event>, ys: seq<Sys> :: Tried(c, id, init, n, y, evs, ys)
  }

  lemma WaitsOn(c: Scheme, id: Blob, init: S.Initiator, n: nat, y: Sys, e: Event, y': Sys)
    requires Waits(c, id, init, n, y) && A.Goes(c, y, e, y') && e != Elsewhere(B.ERestart)
    requires y'.app.phase.Pairing? && y'.app.phase.init == init
    ensures Waits(c, id, init, n + 1, y')
  {
    var evs: seq<Event>, ys: seq<Sys> :| Tried(c, id, init, n, y, evs, ys);
    Append(c, id, evs, ys, e, y');
    assert Tried(c, id, init, n + 1, y', evs + [e], ys + [y']);
  }

  /** The attempt's request is on the board, whose clock reads `now`. */
  lemma AsksAt(c: Scheme, id: Blob, init: S.Initiator, now: nat, name: string, ip: nat) returns (y: Sys, b: B.Board, p: B.Request)
    requires |name| <= B.NAME_MAX
    ensures Waits(c, id, init, 2, y) && Trying(c, y, b, p, init) && MyKey(b, id) == None && y.step.Rest? && y.app.id == id
    ensures y.time == now && b.now == now && y.app.phase.askedAt == Some(now)
  {
    StartReached(c, id);
    var y0, e := Start(id), Poll(Through, init, name, ip);
    var y1 := Later(y0, now);
    TimePasses(c, y0, now);
    b, p := y1.board, Asked(c, y1.board, id, init, name, ip);
    Announces(c, y1, init, name, ip);
    y := Apply(c, y1, e);
    HelloTaken(c, y1.board, id, init, name, ip);
    var e0 := Elsewhere(B.EPass(now));
    OneEvent(c, id, e0, y1);
    AfterFirst(c, id, e0, y1, e, y);
    TwoTried(c, id, init, [e0] + [e], [y0, y1] + [y]);
  }

  lemma AfterFirst(c: Scheme, id: Blob, e0: Event, y1: Sys, e1: Event, y: Sys)
    requires A.IsRun(c, id, [e0], [Start(id), y1]) && A.Goes(c, y1, e1, y)
    ensures A.IsRun(c, id, [e0] + [e1], [Start(id), y1] + [y])
  {
    Append(c, id, [e0], [Start(id), y1], e1, y);
  }

  lemma OneEvent(c: Scheme, id: Blob, e: Event, y: Sys)
    requires A.Goes(c, Start(id), e, y)
    ensures A.IsRun(c, id, [e], [Start(id), y])
  {
    assert A.Link(c, [e], [Start(id), y], 0);
  }

  lemma TwoTried(c: Scheme, id: Blob, init: S.Initiator, evs: seq<Event>, ys: seq<Sys>)
    requires A.IsRun(c, id, evs, ys) && |evs| == 2 && NoRestart(evs) && A.Hears(c, ys[1], evs[1])
    requires ys[2].app.phase.Pairing? && ys[2].app.phase.init == init
    ensures Waits(c, id, init, 2, ys[2])
  {
    assert Tried(c, id, init, 2, ys[2], evs, ys);
  }

  /** The app waits for an answer to its attempt, which the board does not know. */
  ghost predicate Declined(c: Scheme, y: Sys, init: S.Initiator, id: Blob) {
    && Empty(y.board) && y.app.id == id && MyKey(y.board, id) == None && y.keeper == None
    && y.app.phase.Pairing? && y.app.phase.init == init
    && S.APub(c, init) in y.used && y.used[S.APub(c, init)] == init
  }

  /** "Not now" empties the board. */
  lemma Dropped(c: Scheme, b: B.Board, p: B.Request)
    requires Held(b, p) && MyKey(b, p.id) == None
    ensures B.Shape(Holding(b, p)) && B.Handle(c, Holding(b, p), B.EUnpair(p.id)).0 == b
  {
    HeldIsFound(b, p);
    assert Holding(b, p).pending[0 := B.WIPED] == b.pending;
  }

  lemma Drops(c: Scheme, id: Blob, init: S.Initiator, y: Sys, b: B.Board, p: B.Request) returns (y': Sys)
    requires Waits(c, id, init, 2, y) && Trying(c, y, b, p, init) && MyKey(b, id) == None && y.step.Rest? && y.app.id == id
    ensures Waits(c, id, init, 3, y') && y' == y.(board := b) && Declined(c, y', init, id)
  {
    Dropped(c, b, p);
    y' := y.(board := b);
    WaitsOn(c, id, init, 2, y, Elsewhere(B.EUnpair(id)), y');
  }

  lemma Passes(c: Scheme, id: Blob, init: S.Initiator, y: Sys, ms: nat) returns (y': Sys)
    requires Waits(c, id, init, 3, y) && Declined(c, y, init, id) && y.step.Rest?
    ensures Waits(c, id, init, 4, y') && y' == y.(board := y.board.(now := y.board.now + ms), time := y.time + ms)
    ensures Declined(c, y', init, id)
  {
    y' := Later(y, ms);
    TimePasses(c, y, ms);
    WaitsOn(c, id, init, 3, y, Elsewhere(B.EPass(ms)), y');
  }

  /** The board takes the request when its clock reads `now`, somebody taps "Not now", and `ms`
      later the app hears that there is no request. */
  lemma IsDeclined(c: Scheme, id: Blob, init: S.Initiator, now: nat, ms: nat, name: string, ip: nat) returns (y: Sys)
    requires |name| <= B.NAME_MAX
    ensures Waits(c, id, init, 5, y) && Declined(c, y, init, id) && y.step.WantUptime?
    ensures y.board.now == now + ms && y.time == now + ms && y.app.phase.askedAt == Some(now)
  {
    var y2, b, p := AsksAt(c, id, init, now, name, ip);
    var y3 := Drops(c, id, init, y2, b, p);
    var y4 := Passes(c, id, init, y3, ms);
    y := HearsNone(c, id, init, y4, name, ip);
  }

  lemma HearsNone(c: Scheme, id: Blob, init: S.Initiator, y: Sys, name: string, ip: nat) returns (y': Sys)
    requires Waits(c, id, init, 4, y) && Declined(c, y, init, id) && y.step.Rest?
    requires y.app.phase.announced && y.app.phase.askedAt.Some?
    ensures Waits(c, id, init, 5, y') && y' == y.(step := WantUptime)
  {
    var e := Poll(Through, init, name, ip);
    assert MyRequest(y.board, id) == None;
    assert B.Handle(c, y.board, B.EState(id, ip)) == (y.board, B.Standing(B.SNone, 0, 0));
    y' := y.(step := WantUptime);
    assert y.used[S.APub(c, init) := init] == y.used;
    assert Apply(c, y, e) == y';
    WaitsOn(c, id, init, 4, y, e, y');
  }

  /** Acknowledged twice: for every attempt and whatever the time, a board that takes the request
      more than a second before its clock wraps, and is asked for its uptime after, is taken for
      one that restarted; the app, which somebody had turned down, asks again. */
  lemma WrapAsksAgain(c: Scheme, id: Blob, init: S.Initiator, name: string, ip: nat, now: nat, ms: nat)
    requires |name| <= B.NAME_MAX
    requires (now + ms) / WRAP * WRAP > now + 1000
    ensures exists evs: seq<Event>, ys: seq<Sys> ::
      && A.IsRun(c, id, evs, ys) && |evs| == 7 && NoRestart(evs) && A.OneAttempt(ys, init, 1, 6)
      && A.HelloHeard(c, evs, ys, 1) && A.HelloHeard(c, evs, ys, 6)
  {
    var y5 := IsDeclined(c, id, init, now, ms, name, ip);
    var y6 := Misjudges(c, id, init, y5);
    AsksAgain(c, id, init, y6, name, ip);
  }

  lemma Misjudges(c: Scheme, id: Blob, init: S.Initiator, y: Sys) returns (y': Sys)
    requires Waits(c, id, init, 5, y) && Declined(c, y, init, id) && y.step.WantUptime? && y.app.phase.askedAt.Some?
    requires y.time >= y.app.phase.askedAt.value && y.time == y.board.now
    requires y.board.now / WRAP * WRAP > y.app.phase.askedAt.value + 1000
    ensures Waits(c, id, init, 6, y') && Declined(c, y', init, id) && y'.step.Rest? && !y'.app.phase.announced
  {
    var now := y.board.now;
    assert now == now / WRAP * WRAP + now % WRAP;
    y' := Apply(c, y, Uptime(true));
    WaitsOn(c, id, init, 5, y, Uptime(true), y');
  }

  lemma AsksAgain(c: Scheme, id: Blob, init: S.Initiator, y: Sys, name: string, ip: nat)
    requires Waits(c, id, init, 6, y) && Declined(c, y, init, id) && y.step.Rest? && !y.app.phase.announced && |name| <= B.NAME_MAX
    ensures exists evs: seq<Event>, ys: seq<Sys> ::
      && A.IsRun(c, id, evs, ys) && |evs| == 7 && NoRestart(evs) && A.OneAttempt(ys, init, 1, 6)
      && A.HelloHeard(c, evs, ys, 1) && A.HelloHeard(c, evs, ys, 6)
  {
    var evs: seq<Event>, ys: seq<Sys> :| Tried(c, id, init, 6, y, evs, ys);
    var e := Poll(Through, init, name, ip);
    HelloTaken(c, y.board, id, init, name, ip);
    assert A.Hears(c, y, e);
    var y' := Apply(c, y, e);
    Append(c, id, evs, ys, e, y');
    Extended(c, id, init, y, evs, ys, e, y');
  }

  lemma Extended(c: Scheme, id: Blob, init: S.Initiator, y: Sys, evs: seq<Event>, ys: seq<Sys>, e: Event, y': Sys)
    requires Tried(c, id, init, 6, y, evs, ys) && A.Hears(c, y, e) && A.IsRun(c, id, evs + [e], ys + [y'])
    ensures var evs2, ys2 := evs + [e], ys + [y'];
      && |evs2| == 7 && NoRestart(evs2) && A.OneAttempt(ys2, init, 1, 6) && A.HelloHeard(c, evs2, ys2, 1) && A.HelloHeard(c, evs2, ys2, 6)
  {
  }
}
