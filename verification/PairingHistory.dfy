/** Where a pairing comes from, over every run of the board since it left the factory. */
module PairingHistory {
  import opened Common
  import opened Crypto
  import opened PairingBoard
  import Decimal
  import Clock32

  ghost predicate AllPossible(evs: seq<Event>) { forall i :: 0 <= i < |evs| ==> Possible(evs[i]) }

  /** bs are the board's states through the events, from the factory on. */
  ghost predicate IsRun(s: Scheme, evs: seq<Event>, bs: seq<Board>) {
    && |bs| == |evs| + 1 && bs[0] == Start() && AllPossible(evs)
    && forall m :: 0 <= m < |evs| ==> Link(s, evs, bs, m)
  }

  ghost predicate Link(s: Scheme, evs: seq<Event>, bs: seq<Board>, m: nat) {
    m < |evs| && m + 1 < |bs| && Shape(bs[m]) && Possible(evs[m]) && bs[m + 1] == Handle(s, bs[m], evs[m]).0
  }

  /** Table invariants over every run. */
  lemma {:induction false} RunKeepsTables(s: Scheme, evs: seq<Event>, bs: seq<Board>, n: nat)
    requires IsRun(s, evs, bs) && n <= |evs|
    ensures Tables(bs[n])
  {
    if n > 0 {
      RunKeepsTables(s, evs, bs, n - 1);
      LinkKeeps(s, evs, bs, n - 1);
    }
  }

  lemma LinkKeeps(s: Scheme, evs: seq<Event>, bs: seq<Board>, m: nat)
    requires Link(s, evs, bs, m) && Tables(bs[m])
    ensures Tables(bs[m + 1])
  {
    HandleKeepsTables(s, bs[m], evs[m]);
  }

  ghost predicate Live(p: Request) { p.phase == Pending || p.phase == Confirm || p.phase == CodeShown }

  /** Wrong codes typed for this computer in events lo..hi. */
  ghost function WrongCodes(evs: seq<Event>, id: Blob, code: nat, lo: nat, hi: nat): nat
    requires lo <= hi <= |evs|
    decreases hi
  {
    if hi == lo then 0
    else WrongCodes(evs, id, code, lo, hi - 1) + if IsWrong(evs[hi - 1], id, code) then 1 else 0
  }

  ghost predicate IsWrong(e: Event, id: Blob, code: nat) {
    e.ECode? && e.id == id && e.pinSet && !RightCode(e.text, code)
  }

  /** The events that carried one attempt: its announcement, its approval and its opening. */
  datatype Story = Story(hello: nat, approve: nat, opening: nat)

  ghost predicate Announced(s: Scheme, evs: seq<Event>, bs: seq<Board>, n: nat, i: nat, st: Story, p: Request)
    requires n <= |evs| < |bs| && i < PENDING_MAX && Placed(bs)
  {
    && st.hello < n
    && evs[st.hello].EHello?
    && evs[st.hello].id == p.id && evs[st.hello].aPub == p.aPub && evs[st.hello].commit == p.commit
    // the attempt was not there before
    && !SameRequest(bs[st.hello].pending[i], p)
    // one attempt in one place throughout, with no restart and no wipe on the way
    && (forall m :: st.hello < m < n ==> !evs[m].ERestart? && !evs[m].EWipe?)
    && (forall m :: st.hello < m <= n ==> SameRequest(bs[m].pending[i], p))
  }

  ghost predicate SameRequest(q: Request, p: Request) {
    Live(q) && q.id == p.id && q.aPub == p.aPub && q.commit == p.commit
  }

  ghost predicate Approved(s: Scheme, evs: seq<Event>, n: nat, st: Story, p: Request)
    requires n <= |evs|
  {
    && st.hello < st.approve < n
    && evs[st.approve].EApprove?
    && evs[st.approve].id == p.id && evs[st.approve].pinSet
    && p.nB == evs[st.approve].nB && p.bPub == s.pub(evs[st.approve].bSec)
  }

  ghost predicate Opened(s: Scheme, evs: seq<Event>, n: nat, st: Story, p: Request)
    requires n <= |evs|
  {
    && Approved(s, evs, n, st, p)
    && st.approve < st.opening < n
    && evs[st.opening].EReveal? && evs[st.opening].id == p.id
    && var nA := evs[st.opening].nA;
    && s.commit(p.aPub, nA) == p.commit
    && p.code == s.Sas(p.aPub, p.bPub, nA, p.nB)
    && p.key == s.kdf(s.dh(evs[st.approve].bSec, p.aPub), p.aPub, p.bPub, nA, p.nB)
  }

  /** As far as its phase says, p was approved and opened; tries counts the wrong codes since. */
  ghost predicate Progress(s: Scheme, evs: seq<Event>, n: nat, st: Story, p: Request)
    requires n <= |evs|
  {
    && (p.phase == Pending ==> p.tries == 0)
    && (p.phase == Confirm ==> Approved(s, evs, n, st, p) && p.bSec == evs[st.approve].bSec && p.tries == 0)
    && (p.phase == CodeShown ==>
          Opened(s, evs, n, st, p)
          && p.tries == WrongCodes(evs, p.id, p.code, st.opening + 1, n) && p.tries < CODE_TRIES)
  }

  /** The request in place i after n events, with its story so far. */
  ghost predicate RequestStory(s: Scheme, evs: seq<Event>, bs: seq<Board>, n: nat, i: nat, st: Story)
    requires n <= |evs| < |bs| && i < PENDING_MAX && Placed(bs)
  {
    var p := bs[n].pending[i];
    Announced(s, evs, bs, n, i, st, p) && Progress(s, evs, n, st, p)
  }

  /** A request newly announced by e. */
  ghost predicate Fresh(e: Event, q: Request) {
    e.EHello? && q.phase == Pending && q.id == e.id && q.aPub == e.aPub && q.commit == e.commit && q.tries == 0
  }

  /** The ways one event carries a live request on. */
  ghost predicate Step(s: Scheme, e: Event, p: Request, q: Request) {
    || (q == p && !(p.phase == CodeShown && IsWrong(e, p.id, p.code)))
    || (e.EState? && p.phase == Pending && q == p.(at := q.at))
    || (e.EApprove? && p.phase == Pending && e.id == p.id && e.pinSet
        && q == p.(phase := Confirm, bSec := e.bSec, nB := e.nB, bPub := s.pub(e.bSec), at := q.at))
    || (e.EReveal? && p.phase == Confirm && e.id == p.id && s.commit(p.aPub, e.nA) == p.commit
        && q == p.(phase := CodeShown, bSec := 0, code := s.Sas(p.aPub, p.bPub, e.nA, p.nB),
                   key := s.kdf(s.dh(p.bSec, p.aPub), p.aPub, p.bPub, e.nA, p.nB), at := q.at))
    || (p.phase == CodeShown && IsWrong(e, p.id, p.code) && p.tries + 1 < CODE_TRIES && q == p.(tries := p.tries + 1))
  }

  lemma EnrolStep(b: Board, e: Event, i: nat)
    requires e.EHello? && i < |b.pending|
    ensures var p, q := b.pending[i], Enrol(b, e.id, e.name, e.aPub, e.commit, e.ip).0.pending[i];
      q == p || Fresh(e, q)
  {
  }

  lemma HelloStep(s: Scheme, b: Board, e: Event, i: nat)
    requires Tables(b) && e.EHello? && i < PENDING_MAX
    ensures var p, q := b.pending[i], Handle(s, b, e).0.pending[i];
      Live(q) ==> q == p || (Fresh(e, q) && !SameRequest(p, q))
  {
    var p, pi := b.pending[i], FindPending(b.pending, e.id);
    var b' := Handle(s, b, e).0;
    if b'.pending != b.pending {
      ClearedSpec(b.pending, e.id, e.ip);
      EnrolStep(b.(pending := Cleared(b.pending, e.id, e.ip)), e, i);
    }
    if Live(p) && p.id == e.id && SameAttempt(p, e.aPub, e.commit) { assert pi == i; }
  }

  lemma CodeStep(s: Scheme, b: Board, e: Event, i: nat)
    requires Tables(b) && e.ECode? && Possible(e) && i < PENDING_MAX
    ensures var p, q := b.pending[i], Handle(s, b, e).0.pending[i];
      Live(q) ==> Live(p) && Step(s, e, p, q)
  {
  }

  lemma ChangeStep(s: Scheme, b: Board, e: Event, i: nat)
    requires Tables(b) && (e.EState? || e.EReveal? || e.EApprove?) && i < PENDING_MAX
    ensures var p, q := b.pending[i], Handle(s, b, e).0.pending[i];
      Live(q) ==> Live(p) && Step(s, e, p, q)
  {
  }

  lemma OneStep(s: Scheme, b: Board, e: Event, i: nat)
    requires Tables(b) && Possible(e) && i < PENDING_MAX
    requires Live(Handle(s, b, e).0.pending[i])
    ensures var p, q := b.pending[i], Handle(s, b, e).0.pending[i];
      (Live(p) && Step(s, e, p, q)) || (Fresh(e, q) && !SameRequest(p, q))
    ensures !e.ERestart? && !e.EWipe?
  {
    if e.EHello? { HelloStep(s, b, e, i); }
    else if e.ECode? { CodeStep(s, b, e, i); }
    else if e.EState? || e.EReveal? || e.EApprove? { ChangeStep(s, b, e, i); }
  }

  lemma StepAt(s: Scheme, evs: seq<Event>, bs: seq<Board>, n: nat, i: nat)
    requires IsRun(s, evs, bs) && n < |evs| && i < PENDING_MAX
    ensures |bs[n].pending| == |bs[n + 1].pending| == PENDING_MAX
    ensures var p, q := bs[n].pending[i], bs[n + 1].pending[i];
      Live(q) ==> !evs[n].ERestart? && !evs[n].EWipe?
                  && ((Live(p) && Step(s, evs[n], p, q)) || (Fresh(evs[n], q) && !SameRequest(p, q)))
  {
    RunKeepsTables(s, evs, bs, n);
    RunKeepsTables(s, evs, bs, n + 1);
    assert Link(s, evs, bs, n);
    if Live(bs[n + 1].pending[i]) { OneStep(s, bs[n], evs[n], i); }
  }

  ghost predicate Placed(bs: seq<Board>) { forall m :: 0 <= m < |bs| ==> |bs[m].pending| == PENDING_MAX }

  lemma RunIsPlaced(s: Scheme, evs: seq<Event>, bs: seq<Board>)
    requires IsRun(s, evs, bs)
    ensures Placed(bs)
  {
    forall m | 0 <= m < |bs| ensures |bs[m].pending| == PENDING_MAX { RunKeepsTables(s, evs, bs, m); }
  }

  function Later(st: Story, e: Event, n: nat, p: Request, q: Request): Story {
    if p.phase == Pending && q.phase == Confirm then st.(approve := n)
    else if p.phase == Confirm && q.phase == CodeShown then st.(opening := n)
    else st
  }

  lemma ProgressExtends(s: Scheme, evs: seq<Event>, n: nat, st: Story, p: Request, q: Request)
    requires n < |evs| && st.hello < n
    requires Live(p) && Progress(s, evs, n, st, p) && Step(s, evs[n], p, q)
    ensures Progress(s, evs, n + 1, Later(st, evs[n], n, p, q), q)
  {
  }

  lemma AnnouncedExtends(s: Scheme, evs: seq<Event>, bs: seq<Board>, n: nat, i: nat, st: Story, p: Request, q: Request)
    requires n < |evs| < |bs| && i < PENDING_MAX && Placed(bs)
    requires Announced(s, evs, bs, n, i, st, p) && SameRequest(q, p)
    requires q == bs[n + 1].pending[i] && !evs[n].ERestart? && !evs[n].EWipe?
    ensures Announced(s, evs, bs, n + 1, i, st, q)
  {
  }

  /** Every live request was announced, and so on as far as its phase says, in that order. */
  lemma RequestHasStory(s: Scheme, evs: seq<Event>, bs: seq<Board>, n: nat, i: nat) returns (st: Story)
    requires IsRun(s, evs, bs) && n <= |evs| && i < PENDING_MAX && Placed(bs)
    requires Live(bs[n].pending[i])
    ensures RequestStory(s, evs, bs, n, i, st)
  {
    assert n > 0;
    StepAt(s, evs, bs, n - 1, i);
    var p, q := bs[n - 1].pending[i], bs[n].pending[i];
    if Live(p) && Step(s, evs[n - 1], p, q) {
      var before := RequestHasStory(s, evs, bs, n - 1, i);
      st := Later(before, evs[n - 1], n - 1, p, q);
      ProgressExtends(s, evs, n - 1, before, p, q);
      AnnouncedExtends(s, evs, bs, n - 1, i, before, p, q);
    } else {
      st := Story(n - 1, 0, 0);
    }
  }

  /** A pairing with its whole story: the code typed in event `confirm` was the one on screen. */
  ghost predicate PairingStory(s: Scheme, evs: seq<Event>, bs: seq<Board>, e: Entry, i: nat, st: Story, confirm: nat)
    requires |evs| < |bs| && Placed(bs)
  {
    && i < PENDING_MAX && confirm < |evs|
    && RequestStory(s, evs, bs, confirm, i, st)
    && var p := bs[confirm].pending[i];
    && Opened(s, evs, confirm, st, p)
    && e.id == p.id && e.key == p.key && e.name == p.name
    && evs[confirm].ECode? && evs[confirm].id == e.id && evs[confirm].pinSet
    && evs[confirm].text == Decimal.FormatCode(p.code)
    && WrongCodes(evs, p.id, p.code, st.opening + 1, confirm) <= 2
  }

  /** An entry that changes into a used one does so because the right code was typed. */
  lemma EntryStep(s: Scheme, b: Board, e: Event, k: nat)
    requires Tables(b) && Possible(e) && k < PAIRED_MAX
    ensures var x, y := b.paired[k], Handle(s, b, e).0.paired[k];
      y.used && y != x ==>
        && e.ECode? && e.pinSet
        && var i := FindPending(b.pending, e.id);
        i >= 0 && var p := b.pending[i];
        p.phase == CodeShown && RightCode(e.text, p.code) && y == Entry(true, p.id, p.name, p.key)
  {
  }

  /** Provenance: over every run, a pairing in the table comes from a single attempt that was
      announced, approved with a PIN set, opened with the committed nonce and confirmed with
      the exact code, in that order, after at most two wrong codes and with no restart or
      wipe on the way; its key is the one that exchange derives. */
  lemma PairingHasStory(s: Scheme, evs: seq<Event>, bs: seq<Board>, n: nat, k: nat)
    returns (i: nat, st: Story, confirm: nat)
    requires IsRun(s, evs, bs) && n <= |evs| && k < |bs[n].paired| && bs[n].paired[k].used
    ensures Placed(bs) && confirm < n
    ensures PairingStory(s, evs, bs, bs[n].paired[k], i, st, confirm)
  {
    RunIsPlaced(s, evs, bs);
    assert n > 0;
    RunKeepsTables(s, evs, bs, n - 1);
    RunKeepsTables(s, evs, bs, n);
    var b, e := bs[n - 1], evs[n - 1];
    if b.paired[k] == bs[n].paired[k] {
      i, st, confirm := PairingHasStory(s, evs, bs, n - 1, k);
    } else {
      EntryChange(s, evs, bs, n - 1, k);
      i, confirm := FindPending(b.pending, e.id), n - 1;
      var p := b.pending[i];
      st := RequestHasStory(s, evs, bs, n - 1, i);
      Decimal.TypedIsShown(e.text, p.code);
    }
  }

  lemma EntryChange(s: Scheme, evs: seq<Event>, bs: seq<Board>, n: nat, k: nat)
    requires IsRun(s, evs, bs) && n < |evs| && k < PAIRED_MAX
    ensures |bs[n].paired| == |bs[n + 1].paired| == PAIRED_MAX
    ensures var x, y, e := bs[n].paired[k], bs[n + 1].paired[k], evs[n];
      y.used && y != x ==>
        && e.ECode? && e.pinSet
        && var i := FindPending(bs[n].pending, e.id);
        i >= 0 && var p := bs[n].pending[i];
        p.phase == CodeShown && RightCode(e.text, p.code) && y == Entry(true, p.id, p.name, p.key)
  {
    RunKeepsTables(s, evs, bs, n);
    RunKeepsTables(s, evs, bs, n + 1);
    assert Link(s, evs, bs, n);
    EntryStep(s, bs[n], evs[n], k);
  }

  /** A request keeps the name it was announced with, cleaned. */
  lemma {:induction false} NameIsKept(s: Scheme, evs: seq<Event>, bs: seq<Board>, n: nat, i: nat, st: Story)
    requires IsRun(s, evs, bs) && n <= |evs| && i < PENDING_MAX && Placed(bs) && Live(bs[n].pending[i])
    requires Announced(s, evs, bs, n, i, st, bs[n].pending[i])
    ensures bs[n].pending[i].name == CleanName(evs[st.hello].name)
    decreases n
  {
    NamesAt(s, evs, bs, n - 1, i);
    if st.hello < n - 1 {
      assert SameRequest(bs[n - 1].pending[i], bs[n].pending[i]);
      NameIsKept(s, evs, bs, n - 1, i, st);
    }
  }

  lemma NamesAt(s: Scheme, evs: seq<Event>, bs: seq<Board>, n: nat, i: nat)
    requires IsRun(s, evs, bs) && n < |evs| && i < PENDING_MAX && Placed(bs) && Live(bs[n + 1].pending[i])
    ensures var p, q := bs[n].pending[i], bs[n + 1].pending[i];
      if SameRequest(p, q) then q.name == p.name else evs[n].EHello? && q.name == CleanName(evs[n].name)
  {
    StepAt(s, evs, bs, n, i);
    RunKeepsTables(s, evs, bs, n);
    assert Link(s, evs, bs, n);
    if evs[n].EHello? { HelloNames(s, bs[n], evs[n], i); }
  }

  lemma HelloNames(s: Scheme, b: Board, e: Event, i: nat)
    requires Tables(b) && e.EHello? && i < PENDING_MAX && Handle(s, b, e).0.pending[i].phase != Free
    ensures var p, q := b.pending[i], Handle(s, b, e).0.pending[i];
      q == p || (q.name == CleanName(e.name) && (Live(q) ==> !SameRequest(p, q)))
  {
    ClearedSpec(b.pending, e.id, e.ip);
    HelloStep(s, b, e, i);
  }

  /** A pairing bears the name its attempt was announced with. */
  lemma PairingIsNamed(s: Scheme, evs: seq<Event>, bs: seq<Board>, e: Entry, i: nat, st: Story, confirm: nat)
    requires IsRun(s, evs, bs) && Placed(bs) && PairingStory(s, evs, bs, e, i, st, confirm)
    ensures e.name == CleanName(evs[st.hello].name)
  {
    NameIsKept(s, evs, bs, confirm, i, st);
  }
}
