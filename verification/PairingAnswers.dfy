/** What the board answers, and what each request leaves, told by one computer's standing alone: its
    request, if it has one, and its key, if it is paired. The tables are a means to this. */
module PairingAnswers {
  import opened Common
  import opened Crypto
  import opened Clock32
  import opened PairingBoard
  import Y = PairingSystem

  /** How one event and its answer leave the computer id: request and key, before and after. */
  datatype View = View(r: Option<Request>, k: Option<Blob>, r': Option<Request>, k': Option<Blob>, reply: Reply)

  function See(c: Scheme, b: Board, e: Event, id: Blob): View
    requires Shape(b) && Possible(e)
  {
    var (b', reply) := Handle(c, b, e);
    View(Y.MyRequest(b, id), Y.MyKey(b, id), Y.MyRequest(b', id), Y.MyKey(b', id), reply)
  }

  predicate In(r: Option<Request>, p: Phase) { r.Some? && r.value.phase == p }

  predicate Same(v: View) { v.r' == v.r && v.k' == v.k }

  predicate Gone(v: View) { v.r' == None && v.k' == v.k }

  /** Where the computer stands, as its app may know it: the request goes before the pairing. */
  predicate Tells(reply: Reply, r: Option<Request>, k: Option<Blob>) {
    && (reply == Standing(SNone, 0, 0) <==> r == None && k == None)
    && (reply == Standing(SPaired, 0, 0) <==> r == None && k.Some?)
    && (reply == Standing(SPending, 0, 0) <==> In(r, Pending))
    && (reply == Standing(SCodeShown, 0, 0) <==> In(r, CodeShown))
    && (reply == Standing(SAborted, 0, 0) <==> In(r, Aborted))
    && (reply.Standing? && reply.state == SConfirm <==> In(r, Confirm))
    && (In(r, Confirm) ==> reply == Standing(SConfirm, r.value.bPub, r.value.nB))
  }

  lemma ReplyTells(b: Board, id: Blob)
    requires Tables(b)
    ensures Tells(StateReply(b, id), Y.MyRequest(b, id), Y.MyKey(b, id))
  {
  }

  // ---- hello ----

  /** Every place is held by another computer at another address. */
  ghost predicate NoRoom(b: Board, id: Blob, ip: nat) {
    forall i :: 0 <= i < |b.pending| ==> b.pending[i].phase != Free && b.pending[i].id != id && b.pending[i].ip != ip
  }

  /** A request as announced: cleaned name, no try used, no secret drawn. */
  ghost predicate Announces(e: Event, now: nat, p: Request)
    requires e.EHello?
  {
    && p == Request(Pending, e.id, p.name, e.aPub, e.commit, 0, 0, 0, 0, 0, 0, e.ip, Millis(now))
    && Cleaned(e.name, p.name)
  }

  /** Control characters become spaces, everything else stays; no name is "Computer". */
  ghost predicate Cleaned(name: string, n: string) {
    if name == [] then n == "Computer"
    else |n| == |name| && forall i :: 0 <= i < |name| ==>
           n[i] == if name[i] < ' ' || name[i] == '\U{7f}' then ' ' else name[i]
  }

  predicate SameAsked(e: Event, r: Option<Request>)
    requires e.EHello?
  {
    r.Some? && r.value.aPub == e.aPub && r.value.commit == e.commit
  }

  /** hello: refused for its version, its name or want of room, with nothing changed; the same attempt
      hears where it stands; a new one waits, in place of any other of its computer. */
  lemma HelloAnswers(c: Scheme, b: Board, e: Event)
    requires Tables(b) && e.EHello?
    ensures var v, fit := See(c, b, e, e.id), e.v == 1 && |e.name| <= NAME_MAX;
      && v.k' == v.k
      && (v.reply == Refused(Unsupported) <==> e.v != 1)
      && (v.reply == Refused(BadRequest) <==> e.v == 1 && |e.name| > NAME_MAX)
      && (v.reply == Refused(Full) <==> fit && NoRoom(b, e.id, e.ip))
      && (v.reply.Refused? ==> Handle(c, b, e).0 == b)
      && (fit && SameAsked(e, v.r) ==> Handle(c, b, e).0 == b && Tells(v.reply, v.r, v.k))
      && (fit && !SameAsked(e, v.r) && !v.reply.Refused? ==>
            v.reply == Standing(SPending, 0, 0) && v.r'.Some? && Announces(e, b.now, v.r'.value))
  {
    ClearedSpec(b.pending, e.id, e.ip);
    ReplyTells(b, e.id);
    var pi := FindPending(b.pending, e.id);
    if e.v == 1 && |e.name| <= NAME_MAX && !(pi >= 0 && SameAttempt(b.pending[pi], e.aPub, e.commit)) {
      var ps := Cleared(b.pending, e.id, e.ip);
      var slot := FreePending(ps);
      if slot >= 0 {
        var p := NewRequest(e.id, e.name, e.aPub, e.commit, e.ip, Millis(b.now));
        InsertKeepsRequests(ps, slot, p);
        Y.InsertEffect(ps, slot, p, e.id);
        assert ps[slot].phase == Free && !NoRoom(b, e.id, e.ip);
      } else {
        assert ps == b.pending;
      }
    }
  }

  /** Making room drops another computer's request exactly when it came from this address. */
  lemma ClearedOther(ps: seq<Request>, e: Event, id: Blob)
    requires GoodRequests(ps) && e.EHello? && id != e.id
    ensures var r := Y.RequestOf(ps, id);
      Y.RequestOf(Cleared(ps, e.id, e.ip), id) == if r.Some? && r.value.ip == e.ip then None else r
  {
    ClearedSpec(ps, e.id, e.ip);
    var i, j := FindPending(ps, id), FindPending(Cleared(ps, e.id, e.ip), id);
    if i >= 0 && ps[i].ip != e.ip { Y.Unique(Cleared(ps, e.id, e.ip), i); }
    if j >= 0 { Y.Unique(ps, j); }
  }

  /** Another computer keeps its request, unless a new attempt came from its address. */
  lemma HelloSparesOthers(c: Scheme, b: Board, e: Event, id: Blob)
    requires Tables(b) && e.EHello? && id != e.id
    ensures var v := See(c, b, e, id);
      var taken := !v.reply.Refused? && !SameAsked(e, Y.MyRequest(b, e.id));
      && v.k' == v.k
      && v.r' == if taken && v.r.Some? && v.r.value.ip == e.ip then None else v.r
  {
    HelloAnswers(c, b, e);
    if e.v == 1 && |e.name| <= NAME_MAX && !SameAsked(e, Y.MyRequest(b, e.id)) {
      ClearedOther(b.pending, e, id);
      EnrolSpares(b.(pending := Cleared(b.pending, e.id, e.ip)), b, e, id);
    }
  }

  lemma EnrolSpares(x: Board, b: Board, e: Event, id: Blob)
    requires Tables(b) && e.EHello? && id != e.id && |e.name| <= NAME_MAX
    requires x == b.(pending := Cleared(b.pending, e.id, e.ip))
    ensures var x' := Enrol(x, e.id, e.name, e.aPub, e.commit, e.ip).0;
      Y.RequestOf(x'.pending, id) == Y.RequestOf(x.pending, id) && x'.paired == b.paired
  {
    ClearedSpec(b.pending, e.id, e.ip);
    var slot := FreePending(x.pending);
    if slot >= 0 {
      var p := NewRequest(e.id, e.name, e.aPub, e.commit, e.ip, Millis(b.now));
      InsertKeepsRequests(x.pending, slot, p);
      Y.InsertEffect(x.pending, slot, p, id);
    }
  }

  // ---- state ----

  /** state: the answer is where the computer stands; a waiting request asked about from its own
      address is renewed, and nothing else changes. */
  lemma StateAnswers(c: Scheme, b: Board, id: Blob, ip: nat)
    requires Tables(b)
    ensures var v := See(c, b, EState(id, ip), id);
      && Tells(v.reply, v.r, v.k) && v.k' == v.k
      && v.r' == if In(v.r, Pending) && v.r.value.ip == ip then Some(v.r.value.(at := Millis(b.now))) else v.r
  {
    ReplyTells(b, id);
    var pi := FindPending(b.pending, id);
    if pi >= 0 && b.pending[pi].phase == Pending && b.pending[pi].ip == ip {
      Y.Changed(b.pending, pi, b.pending[pi].(at := Millis(b.now)), id);
    }
  }

  // ---- reveal ----

  ghost predicate OpensTo(c: Scheme, p: Request, nA: Blob, now: nat, q: Request) {
    q == p.(phase := CodeShown, bSec := 0, code := c.Sas(p.aPub, p.bPub, nA, p.nB),
            key := c.kdf(c.dh(p.bSec, p.aPub), p.aPub, p.bPub, nA, p.nB), at := Millis(now))
  }

  /** reveal: only an approved request can be opened, only with the nonce it committed to; a wrong one
      or an unusable key ends it; the right one brings it to the code step, its secret forgotten. */
  lemma RevealAnswers(c: Scheme, b: Board, id: Blob, nA: Blob, keysOk: bool)
    requires Tables(b)
    ensures var v := See(c, b, EReveal(id, nA, keysOk), id);
      if !In(v.r, Confirm) then v.reply == Refused(NotReady) && Same(v)
      else
        var p := v.r.value;
        if c.commit(p.aPub, nA) != p.commit then v.reply == Refused(BadMac) && Gone(v)
        else if c.dh(p.bSec, p.aPub) == 0 || !keysOk then v.reply == Refused(BadRequest) && Gone(v)
        else v.reply == Standing(SCodeShown, 0, 0) && v.k' == v.k && v.r'.Some? && OpensTo(c, p, nA, b.now, v.r'.value)
  {
    var pi := FindPending(b.pending, id);
    if pi >= 0 && b.pending[pi].phase == Confirm {
      Y.Changed(b.pending, pi, Reveal(c, b, id, nA, keysOk).0.pending[pi], id);
    }
  }

  // ---- approve ----

  /** Approval: needs a PIN and a waiting request, which gets the board's fresh key and nonce; without
      a key it is dropped. The dashboard hears which of these failed. */
  lemma ApproveAnswers(c: Scheme, b: Board, id: Blob, pinSet: bool, bSec: Blob, nB: Blob, keyOk: bool)
    requires Tables(b)
    ensures var v := See(c, b, EApprove(id, pinSet, bSec, nB, keyOk), id);
      if !pinSet then v.reply == Refused(PinRequired) && Same(v)
      else if v.r == None then v.reply == Refused(NotFound) && Same(v)
      else if !In(v.r, Pending) then v.reply == Refused(NotReady) && Same(v)
      else if !keyOk then v.reply == Refused(Failed) && Gone(v)
      else
        && v.reply == Standing(SConfirm, 0, 0) && v.k' == v.k
        && v.r' == Some(v.r.value.(phase := Confirm, bSec := bSec, bPub := c.pub(bSec), nB := nB, at := Millis(b.now)))
  {
    var pi := FindPending(b.pending, id);
    if pi >= 0 && b.pending[pi].phase == Pending {
      Y.Changed(b.pending, pi, Approve(c, b, id, true, bSec, nB, keyOk).0.pending[pi], id);
    }
  }

  // ---- the code ----

  /** Given up after the third wrong code: what is left tells the app so, and holds no secret. */
  ghost predicate GivenUp(p: Request, now: nat, q: Request) {
    q == Request(Aborted, p.id, p.name, 0, 0, 0, 0, 0, 0, 0, 0, p.ip, Millis(now))
  }

  /** A wrong code costs one of three tries; the last one gives the attempt up. */
  lemma WrongCodeAnswers(c: Scheme, b: Board, id: Blob, text: string, puts: nat)
    requires Tables(b) && text != [] && In(Y.MyRequest(b, id), CodeShown) && !RightCode(text, Y.MyRequest(b, id).value.code)
    ensures var v := See(c, b, ECode(id, true, text, puts), id);
      var p := v.r.value;
      && v.k' == v.k && v.r'.Some?
      && if p.tries < 2 then v.reply == Refused(WrongCode) && v.r' == Some(p.(tries := p.tries + 1))
         else v.reply == Refused(AbortedNow) && GivenUp(p, b.now, v.r'.value)
  {
    var pi := FindPending(b.pending, id);
    assert GoodRequest(b.pending[pi]);
    Y.Changed(b.pending, pi, AfterWrong(b.pending[pi], Millis(b.now)), id);
  }

  /** The right code makes an entry of the request's key and name, in the computer's own place or a
      free one, if flash keeps it; nothing is left if flash does not; and nothing changes without a
      place. */
  lemma RightCodeAnswers(c: Scheme, b: Board, id: Blob, text: string, puts: nat)
    requires Tables(b) && text != [] && In(Y.MyRequest(b, id), CodeShown) && RightCode(text, Y.MyRequest(b, id).value.code)
    ensures var v := See(c, b, ECode(id, true, text, puts), id);
      if v.k == None && forall i :: 0 <= i < |b.paired| ==> b.paired[i].used then v.reply == Refused(Full) && Same(v)
      else if puts < 3 then v.reply == Refused(Failed) && v.r' == None && v.k' == None
      else v.reply == Standing(SPaired, 0, 0) && v.r' == None && v.k' == Some(v.r.value.key)
  {
    var pi, found := FindPending(b.pending, id), FindPaired(b.paired, id);
    var slot := if found >= 0 then found else FreePaired(b.paired);
    if slot >= 0 {
      var b' := Keep(b, pi, slot, puts).0;
      Y.Changed(b.pending, pi, WIPED, id);
      Y.SlotEffect(b.paired, slot, b'.paired[slot], id, id);
    }
  }

  /** Without a PIN, a request, or the code step, a code changes nothing. */
  lemma CodeRefused(c: Scheme, b: Board, id: Blob, pinSet: bool, text: string, puts: nat)
    requires Tables(b) && text != [] && !(pinSet && In(Y.MyRequest(b, id), CodeShown))
    ensures var v := See(c, b, ECode(id, pinSet, text, puts), id);
      && Same(v)
      && v.reply == Refused(if !pinSet then PinRequired else if v.r == None then NotFound else NotReady)
  {
  }
}
