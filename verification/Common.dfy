/** Values and helpers every module of the model shares. */
module Common {
  datatype Option<+T> = None | Some(value: T)

  /** The first index of s at which p holds, or -1: the firmware's search loops. */
  function First<T>(s: seq<T>, p: T -> bool): (r: int)
    ensures -1 <= r < |s|
    ensures r >= 0 ==> p(s[r]) && forall j :: 0 <= j < r ==> !p(s[j])
    ensures r < 0 ==> forall j :: 0 <= j < |s| ==> !p(s[j])
  {
    if s == [] then -1
    else if p(s[0]) then 0
    else
      var r := First(s[1..], p);
      assert r >= 0 ==> s[1..][r] == s[r + 1];
      assert forall j :: 1 <= j < |s| ==> s[j] == s[1..][j - 1];
      if r < 0 then -1 else r + 1
  }
}

/** The 32-bit millisecond counter of the board, seen from a clock that never wraps. */
module Clock32 {
  const WRAP: nat := 0x1_0000_0000

  /** millis(): true milliseconds since start, kept in 32 bits. */
  function Millis(now: nat): (r: nat)
    ensures r < WRAP
  {
    now % WRAP
  }

  /** Unsigned 32-bit subtraction. */
  function Since(a: nat, b: nat): (r: nat)
    requires a < WRAP && b < WRAP
    ensures r < WRAP
  {
    (a + WRAP - b) % WRAP
  }

  /** (int32_t)(a - b) < 0 */
  predicate Before(a: nat, b: nat)
    requires a < WRAP && b < WRAP
  {
    Since(a, b) >= WRAP / 2
  }

  /** The wrapped difference is the true age modulo 2^32, hence exact below 2^32. */
  lemma SinceIsAge(now: nat, at: nat)
    requires at <= now
    ensures Since(Millis(now), Millis(at)) == (now - at) % WRAP
    ensures now - at < WRAP ==> Since(Millis(now), Millis(at)) == now - at
  {
    var q, r := now / WRAP, now % WRAP;
    var p, t := at / WRAP, at % WRAP;
    assert now == q * WRAP + r && at == p * WRAP + t;
    if r >= t {
      assert r + WRAP - t == WRAP + (r - t);
      assert now - at == (q - p) * WRAP + (r - t);
    } else {
      assert now - at == (q - p - 1) * WRAP + (WRAP + r - t);
    }
  }

  /** Comparing two wrapped times by the sign of their difference gives the true order
      whenever the two are less than 2^31 ms apart. */
  lemma BeforeIsOrder(a: nat, b: nat)
    requires -(WRAP as int) / 2 < a - b < WRAP as int / 2
    ensures Before(Millis(a), Millis(b)) <==> a < b
  {
    if a >= b {
      SinceIsAge(a, b);
    } else {
      SinceIsAge(b, a);
      var x, y := Millis(a), Millis(b);
      var d := Since(y, x);
      assert 0 < d < WRAP / 2;
      assert Since(x, y) == WRAP - d;
    }
  }
}

/** The pairing cryptography as functions nothing is assumed about beyond Laws().
    A fixed-length byte string is read as a number, so wiped memory is 0. */
module Crypto {
  type Blob = nat

  /** Two numbers as one. */
  function Pair(a: nat, b: nat): nat { (a + b) * (a + b) + a }

  lemma PairIsInjective(a: nat, b: nat, c: nat, d: nat)
    requires Pair(a, b) == Pair(c, d)
    ensures a == c && b == d
  {
    var s, t := a + b, c + d;
    if s < t { SquaresApart(s, t); } else if t < s { SquaresApart(t, s); }
  }

  lemma SquaresApart(s: nat, t: nat)
    requires s < t
    ensures s * s + s < t * t
  {
    assert t * t >= (s + 1) * (s + 1) == s * s + 2 * s + 1;
  }

  /** A scheme for the existence proofs: nothing is hidden in it, but its laws hold. */
  function Plain(): Scheme {
    Scheme(a => a, (a, b) => a * b + 1, (p, n) => Pair(p, n), (a, b, n, m) => 0,
           (k, a, b, n, m) => Pair(k, Pair(a, Pair(b, Pair(n, m)))))
  }

  /** Schemes that keep the laws exist: what is proved of them is proved of something. */
  lemma LawsCanHold()
    ensures Plain().Laws()
  {
    forall p, n, q, m | Pair(p, n) == Pair(q, m) ensures p == q && n == m { PairIsInjective(p, n, q, m); }
  }

  datatype Scheme = Scheme(
    pub: Blob -> Blob,                               // X25519 with the base point
    dh: (Blob, Blob) -> Blob,                        // X25519; 0 for a low-order peer
    commit: (Blob, Blob) -> Blob,                    // of a public key and a nonce
    sasHash: (Blob, Blob, Blob, Blob) -> nat,        // first four bytes of the code's hash
    kdf: (Blob, Blob, Blob, Blob, Blob) -> Blob)
  {
    /** Diffie-Hellman commutes (section 6.1 of RFC 7748) and a commitment opens one way. */
    ghost predicate Laws() {
      && (forall a, b :: dh(a, pub(b)) == dh(b, pub(a)))
      && (forall p, n, q, m :: commit(p, n) == commit(q, m) ==> p == q && n == m)
    }

    function Sas(aPub: Blob, bPub: Blob, nA: Blob, nB: Blob): (code: nat)
      ensures code < 1_000_000
    {
      sasHash(aPub, bPub, nA, nB) % 1_000_000
    }
  }
}
