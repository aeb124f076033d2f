/** The ticket nonces an app has announced, newest first, at most eight of them. */
module TicketNonces {
  import opened Crypto

  const LIFETIME := 90_000
  const KEPT := 8

  datatype Nonce = Nonce(tn: Blob, at: nat)

  function Truncate(q: seq<Nonce>): (r: seq<Nonce>)
    ensures r <= q && |r| <= KEPT && (|q| <= KEPT ==> r == q)
  {
    if |q| <= KEPT then q else q[..KEPT]
  }

  function Announce(q: seq<Nonce>, tn: Blob, now: nat): (r: seq<Nonce>)
    ensures 0 < |r| <= KEPT && r[0] == Nonce(tn, now)
  {
    Truncate([Nonce(tn, now)] + q)
  }

  /** Saturating: a nonce from the future counts as just made. */
  predicate Young(n: Nonce, now: nat) { now < n.at + LIFETIME }

  predicate IsLive(q: seq<Nonce>, tn: Blob, now: nat) {
    exists i :: 0 <= i < |q| && q[i].tn == tn && Young(q[i], now)
  }

  /** The queue after announcing every nonce of h in turn, starting with none. */
  function Queue(h: seq<Nonce>): seq<Nonce> {
    if h == [] then [] else Announce(Queue(h[..|h| - 1]), h[|h| - 1].tn, h[|h| - 1].at)
  }

  /** The queue is exactly the last eight announcements, newest first. */
  lemma {:induction false} QueueIsNewest(h: seq<Nonce>)
    ensures |Queue(h)| == if |h| < KEPT then |h| else KEPT
    ensures forall i :: 0 <= i < |Queue(h)| ==> Queue(h)[i] == h[|h| - 1 - i]
  {
    if h != [] {
      var t := h[..|h| - 1];
      QueueIsNewest(t);
      var q, last := Queue(t), h[|h| - 1];
      assert Queue(h) == Truncate([Nonce(last.tn, last.at)] + q) && Nonce(last.tn, last.at) == last;
      forall i | 0 <= i < |Queue(h)| ensures Queue(h)[i] == h[|h| - 1 - i] {
        assert Queue(h)[i] == ([last] + q)[i];
        assert i > 0 ==> q[i - 1] == t[|t| - i];
      }
    }
  }

  /** Accepted exactly when it was announced less than 90 s ago with fewer than eight since. */
  lemma LiveIsRecent(h: seq<Nonce>, tn: Blob, now: nat)
    ensures IsLive(Queue(h), tn, now) <==>
      exists i :: 0 <= i < |h| && |h| - i <= 8 && h[i].tn == tn && now < h[i].at + 90_000
  {
    QueueIsNewest(h);
    var q := Queue(h);
    if IsLive(q, tn, now) {
      var i :| 0 <= i < |q| && q[i].tn == tn && Young(q[i], now);
      assert h[|h| - 1 - i].tn == tn;
    }
    if i :| 0 <= i < |h| && |h| - i <= 8 && h[i].tn == tn && now < h[i].at + 90_000 {
      assert q[|h| - 1 - i].tn == tn;
    }
  }

  /** The shared queue as the app keeps it, with the history of what was announced. */
  class TicketNonces {
    var q: seq<Nonce>
    ghost var history: seq<Nonce>

    ghost predicate Valid() reads this { q == Queue(history) }

    constructor ()
      ensures Valid() && history == []
    {
      q, history := [], [];
    }

    method AnnounceNonce(tn: Blob, now: nat)
      requires Valid()
      modifies this
      ensures Valid() && history == old(history) + [Nonce(tn, now)]
    {
      q := [Nonce(tn, now)] + q;
      if |q| > KEPT { q := q[..KEPT]; }
      history := history + [Nonce(tn, now)];
      assert history[..|history| - 1] == old(history);
    }

    method CheckLive(tn: Blob, now: nat) returns (live: bool)
      requires Valid()
      ensures live <==> exists i :: 0 <= i < |history| && |history| - i <= 8
                                    && history[i].tn == tn && now < history[i].at + 90_000
    {
      LiveIsRecent(history, tn, now);
      for i := 0 to |q|
        invariant forall j :: 0 <= j < i ==> !(q[j].tn == tn && Young(q[j], now))
      {
        if q[i].tn == tn && Young(q[i], now) { return true; }
      }
      live := false;
    }
  }
}
