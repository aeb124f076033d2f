/** How long a pairing request stays, in true time over every run: the board's clock wraps, its
    sweeps come when they come, and some events start a request's two minutes anew. */
module PairingExpiry {
  import opened Common
  import opened Crypto
  import opened Clock32
  import opened PairingBoard
  import opened PairingHistory

  /** e starts the two minutes of a request anew, which is p before and q after: it is announced,
      asked about by its own computer from its own address while it waits, approved, opened, or
      given up after the third wrong code. */
  ghost predicate Renews(e: Event, p: Request, q: Request) {
    && q.phase != Free
    && (|| (e.EHello? && q.phase == Pending && q.id == e.id && q.aPub == e.aPub && q.commit == e.commit && !SameRequest(p, q))
        || (e.EState? && p.phase == Pending && e.id == p.id && e.ip == p.ip)
        || (e.EApprove? && e.id == p.id && p.phase == Pending && q.phase == Confirm)
        || (e.EReveal? && e.id == p.id && p.phase == Confirm && q.phase == CodeShown)
        || (e.ECode? && e.id == p.id && p.phase == CodeShown && q.phase == Aborted))
  }

  ghost predicate RenewedAt(evs: seq<Event>, bs: seq<Board>, m: nat, i: nat)
    requires m < |evs| < |bs| && i < PENDING_MAX && Placed(bs)
  {
    Renews(evs[m], bs[m].pending[i], bs[m + 1].pending[i])
  }

  /** What an event leaves of a request's stamp: the time of the event if it renews it. */
  ghost predicate Stamped(b: Board, e: Event, p: Request, q: Request) {
    q.phase != Free ==> if Renews(e, p, q) then q.at == Millis(b.now) else p.phase != Free && q.at == p.at
  }

  lemma EnrolStamps(b: Board, e: Event, i: nat)
    requires e.EHello? && i < |b.pending|
    ensures var p, q := b.pending[i], Enrol(b, e.id, e.name, e.aPub, e.commit, e.ip).0.pending[i];
      q == p || (q.phase == Pending && q.id == e.id && q.aPub == e.aPub && q.commit == e.commit && q.at == Millis(b.now))
  {
  }

  lemma HelloStamps(s: Scheme, b: Board, e: Event, i: nat)
    requires Tables(b) && e.EHello? && i < PENDING_MAX
    ensures Stamped(b, e, b.pending[i], Handle(s, b, e).0.pending[i])
  {
    var b' := Handle(s, b, e).0;
    var p, pi := b.pending[i], FindPending(b.pending, e.id);
    if b'.pending != b.pending {
      ClearedSpec(b.pending, e.id, e.ip);
      EnrolStamps(b.(pending := Cleared(b.pending, e.id, e.ip)), e, i);
    }
    if Live(p) && p.id == e.id && SameAttempt(p, e.aPub, e.commit) { assert pi == i; }
  }

  lemma ChangeStamps(s: Scheme, b: Board, e: Event, i: nat)
    requires Tables(b) && Possible(e) && !e.EHello? && i < PENDING_MAX
    ensures Stamped(b, e, b.pending[i], Handle(s, b, e).0.pending[i])
  {
    var pi := if e.EState? || e.EReveal? || e.EApprove? || e.ECode? then FindPending(b.pending, e.id) else -1;
    if b.pending[i].phase != Free && (e.EState? || e.EReveal? || e.EApprove? || e.ECode?) && b.pending[i].id == e.id {
      assert pi == i;
    }
  }

  lemma StampsAt(s: Scheme, evs: seq<Event>, bs: seq<Board>, n: nat, i: nat)
    requires IsRun(s, evs, bs) && n < |evs| && i < PENDING_MAX && Placed(bs)
    ensures Stamped(bs[n], evs[n], bs[n].pending[i], bs[n + 1].pending[i])
    ensures if evs[n].ERestart? then bs[n + 1].now == 0 && bs[n + 1].pending[i].phase == Free else bs[n].now <= bs[n + 1].now
  {
    RunKeepsTables(s, evs, bs, n);
    assert Link(s, evs, bs, n);
    if evs[n].EHello? { HelloStamps(s, bs[n], evs[n], i); } else { ChangeStamps(s, bs[n], evs[n], i); }
  }

  /** m is the last event before n that renewed the request in place i, in use ever since. */
  ghost predicate LastRenewal(evs: seq<Event>, bs: seq<Board>, m: nat, n: nat, i: nat)
    requires |evs| < |bs| && i < PENDING_MAX && Placed(bs)
  {
    && m < n <= |evs| && RenewedAt(evs, bs, m, i)
    && (forall j :: m < j < n ==> !RenewedAt(evs, bs, j, i))
    && (forall j :: m < j <= n ==> bs[j].pending[i].phase != Free && bs[m].now <= bs[j].now)
  }

  /** Every request in the table has one, and its stamp is that event's time. */
  lemma {:induction false} HasRenewal(s: Scheme, evs: seq<Event>, bs: seq<Board>, n: nat, i: nat) returns (m: nat)
    requires IsRun(s, evs, bs) && n <= |evs| && i < PENDING_MAX && Placed(bs) && bs[n].pending[i].phase != Free
    ensures LastRenewal(evs, bs, m, n, i) && bs[n].pending[i].at == Millis(bs[m].now)
  {
    assert n > 0;
    StampsAt(s, evs, bs, n - 1, i);
    if RenewedAt(evs, bs, n - 1, i) { m := n - 1; } else { m := HasRenewal(s, evs, bs, n - 1, i); }
  }

  /** The board's clock at its last sweep since it started. */
  ghost function Swept(evs: seq<Event>, bs: seq<Board>, n: nat): int
    requires n <= |evs| < |bs|
    decreases n, 0
  {
    if n == 0 || evs[n - 1].ERestart? then 0
    else if evs[n - 1].ETick? && SweepDue(evs, bs, n - 1) then bs[n - 1].now
    else Swept(evs, bs, n - 1)
  }

  /** A second or more since, modulo 2^32 ms. */
  ghost predicate SweepDue(evs: seq<Event>, bs: seq<Board>, n: nat)
    requires n <= |evs| < |bs|
    decreases n, 1
  {
    (bs[n].now - Swept(evs, bs, n)) % WRAP >= TICK_MS
  }

  lemma {:induction false} TickedWhenSwept(s: Scheme, evs: seq<Event>, bs: seq<Board>, n: nat)
    requires IsRun(s, evs, bs) && n <= |evs|
    ensures 0 <= Swept(evs, bs, n) <= bs[n].now && bs[n].lastTick == Millis(Swept(evs, bs, n))
  {
    if n > 0 {
      TickedWhenSwept(s, evs, bs, n - 1);
      assert Link(s, evs, bs, n - 1);
      SinceIsAge(bs[n - 1].now, Swept(evs, bs, n - 1));
      SweepStep(s, bs[n - 1], evs[n - 1]);
    }
  }

  lemma SweepStep(s: Scheme, b: Board, e: Event)
    requires Shape(b) && Possible(e)
    ensures var b' := Handle(s, b, e).0;
      && (e.ERestart? ==> b'.now == 0 && b'.lastTick == 0)
      && (!e.ERestart? ==> b'.now >= b.now)
      && (!e.ERestart? && !e.ETick? ==> b'.lastTick == b.lastTick)
      && (e.ETick? ==> b'.lastTick == if Since(Millis(b.now), b.lastTick) < TICK_MS then b.lastTick else Millis(b.now))
  {
  }

  /** A sweep forgets a request if and only if it is due and more than two minutes - modulo 2^32 ms -
      passed since the last event that renewed it; and it changes nothing else. */
  lemma TickExactly(s: Scheme, evs: seq<Event>, bs: seq<Board>, n: nat, i: nat) returns (m: nat)
    requires IsRun(s, evs, bs) && n < |evs| && evs[n] == ETick && i < PENDING_MAX
    requires Placed(bs) && bs[n].pending[i].phase != Free
    ensures LastRenewal(evs, bs, m, n, i)
    ensures bs[n + 1].pending[i].phase == Free <==>
      SweepDue(evs, bs, n) && (bs[n].now - bs[m].now) % WRAP > PENDING_MS
    ensures bs[n + 1].pending[i].phase != Free ==> bs[n + 1].pending[i] == bs[n].pending[i]
  {
    m := HasRenewal(s, evs, bs, n, i);
    assert Link(s, evs, bs, n);
    TickedWhenSwept(s, evs, bs, n);
    SinceIsAge(bs[n].now, Swept(evs, bs, n));
    SinceIsAge(bs[n].now, bs[m].now);
  }

  // ---- a request whose computer keeps asking ----

  /** e may end a waiting request p, or take it further: a person approves or declines it, its
      computer or its address makes a new one, or the board forgets everything. */
  predicate Disturbs(e: Event, p: Request) {
    match e
    case EHello(_, id, _, aPub, commit, ip) => (id == p.id || ip == p.ip) && !(id == p.id && SameAttempt(p, aPub, commit))
    case EApprove(id, pinSet, _, _, _) => id == p.id && pinSet
    case EUnpair(id) => id == p.id
    case ERestart => true
    case EWipe => true
    case _ => false
  }

  ghost predicate StillWaiting(p: Request, q: Request) { q == p.(at := q.at) }

  lemma UndisturbedStays(s: Scheme, b: Board, e: Event, i: nat)
    requires Tables(b) && Possible(e) && i < PENDING_MAX && b.pending[i].phase == Pending && !Disturbs(e, b.pending[i])
    ensures var q := Handle(s, b, e).0.pending[i]; StillWaiting(b.pending[i], q) || (e.ETick? && q.phase == Free)
  {
    if e.EHello? { HelloSpares(b, e, i); }
    else if e.ECode? { CodeSpares(b, e, i); }
    else if e.EState? || e.EReveal? || e.EApprove? { OthersSpare(s, b, e, i); }
  }

  lemma HelloSpares(b: Board, e: Event, i: nat)
    requires Tables(b) && e.EHello? && i < PENDING_MAX && b.pending[i].phase == Pending && !Disturbs(e, b.pending[i])
    ensures Hello(b, e.v, e.id, e.name, e.aPub, e.commit, e.ip).0.pending[i] == b.pending[i]
  {
    ClearedSpec(b.pending, e.id, e.ip);
    if b.pending[i].id == e.id { assert FindPending(b.pending, e.id) == i; }
  }

  lemma CodeSpares(b: Board, e: Event, i: nat)
    requires Tables(b) && e.ECode? && Possible(e) && i < PENDING_MAX && b.pending[i].phase == Pending
    ensures TypeCode(b, e.id, e.pinSet, e.text, e.puts).0.pending[i] == b.pending[i]
  {
  }

  lemma OthersSpare(s: Scheme, b: Board, e: Event, i: nat)
    requires Tables(b) && (e.EState? || e.EReveal? || e.EApprove?)
    requires i < PENDING_MAX && b.pending[i].phase == Pending && !Disturbs(e, b.pending[i])
    ensures StillWaiting(b.pending[i], Handle(s, b, e).0.pending[i])
  {
    if b.pending[i].id == e.id { assert FindPending(b.pending, e.id) == i; }
  }

  /** Its computer asked about it, or announced it in event m, at most two minutes before event j. */
  ghost predicate AskedRecently(evs: seq<Event>, bs: seq<Board>, m: nat, j: nat, p: Request) {
    exists k: nat :: m <= k < j && Asks(evs, bs, m, k, j, p)
  }

  ghost predicate Asks(evs: seq<Event>, bs: seq<Board>, m: nat, k: nat, j: nat, p: Request) {
    && k < |evs| && k < |bs| && j < |bs| && (k == m || evs[k] == EState(p.id, p.ip))
    && bs[j].now - bs[k].now <= PENDING_MS
  }

  /** A request stays for as long as its computer asks at least every two minutes and nobody acts on
      it - however often the board sweeps, and whatever else happens. */
  lemma {:induction false} PolledSurvives(s: Scheme, evs: seq<Event>, bs: seq<Board>, m: nat, n: nat, i: nat)
    requires IsRun(s, evs, bs) && m < n <= |evs| && i < PENDING_MAX && Placed(bs)
    requires RenewedAt(evs, bs, m, i) && bs[m + 1].pending[i].phase == Pending
    requires forall j :: m < j < n ==> !Disturbs(evs[j], bs[m + 1].pending[i])
    requires forall j :: m < j < n && evs[j].ETick? ==> AskedRecently(evs, bs, m, j, bs[m + 1].pending[i])
    ensures StillWaiting(bs[m + 1].pending[i], bs[n].pending[i])
    ensures forall j :: m < j <= n ==> StillWaiting(bs[m + 1].pending[i], bs[j].pending[i])
    decreases n
  {
    if n > m + 1 {
      PolledSurvives(s, evs, bs, m, n - 1, i);
      RunKeepsTables(s, evs, bs, n - 1);
      assert Link(s, evs, bs, n - 1);
      UndisturbedStays(s, bs[n - 1], evs[n - 1], i);
      if evs[n - 1].ETick? { PolledNotSwept(s, evs, bs, m, n - 1, i); }
    }
  }

  lemma PolledNotSwept(s: Scheme, evs: seq<Event>, bs: seq<Board>, m: nat, n: nat, i: nat)
    requires IsRun(s, evs, bs) && m < n < |evs| && i < PENDING_MAX && Placed(bs) && evs[n] == ETick
    requires RenewedAt(evs, bs, m, i) && bs[m + 1].pending[i].phase == Pending
    requires forall j :: m < j <= n ==> StillWaiting(bs[m + 1].pending[i], bs[j].pending[i])
    requires AskedRecently(evs, bs, m, n, bs[m + 1].pending[i])
    ensures bs[n + 1].pending[i].phase != Free
  {
    var p := bs[m + 1].pending[i];
    var l := TickExactly(s, evs, bs, n, i);
    var k: nat :| m <= k < n && Asks(evs, bs, m, k, n, p);
    assert RenewedAt(evs, bs, k, i);
    assert k <= l;
    TimeGoesOn(s, evs, bs, k, l, i);
  }

  lemma {:induction false} TimeGoesOn(s: Scheme, evs: seq<Event>, bs: seq<Board>, k: nat, l: nat, i: nat)
    requires IsRun(s, evs, bs) && k <= l <= |evs| && i < PENDING_MAX && Placed(bs)
    requires forall j :: k < j <= l ==> bs[j].pending[i].phase != Free
    ensures bs[k].now <= bs[l].now
    decreases l
  {
    if k < l {
      TimeGoesOn(s, evs, bs, k, l - 1, i);
      StampsAt(s, evs, bs, l - 1, i);
    }
  }
}
