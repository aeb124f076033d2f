/** The texts that proofs of possession cover: heartbeats, tickets, update requests, resets. */
module Proofs {
  import opened Common
  import Decimal
  import opened Hex

  datatype Request =
    | Beat(id: string, port: int, fp: string, tn: string, chal: string)
    | Ticket(tn: string, vn: string)
    | Ota(id: string, act: string, url: string, chal: string)
    | Reset(id: string, chal: string)
    | FactoryReset(id: string, token: string)

  /** The update acts the board knows. */
  const ACTS: set<string> := {"check", "from", "install", "cancel", "apply", "download_mode"}

  /** What the board demands of a request's fields before it looks at the proof; a ticket's
      and a factory reset's fields are the board's own hexadecimal. */
  predicate WellFormed(r: Request) {
    match r
    case Beat(id, port, fp, tn, chal) => IsHex(id, 16) && IsHex(chal, 16) && IsHex(fp, 32) && IsHex(tn, 16) && 1024 <= port <= 65535
    case Ticket(tn, vn) => IsHex(tn, 16) && IsHex(vn, 16)
    case Ota(id, act, url, chal) => IsHex(id, 16) && IsHex(chal, 16) && |url| <= 160
    case Reset(id, chal) => IsHex(id, 16) && IsHex(chal, 16)
    case FactoryReset(id, token) => IsHex(id, 16) && IsHex(token, 16)
  }

  predicate Known(r: Request) { WellFormed(r) && (r.Ota? ==> r.act in ACTS) }

  function Bar(a: string, b: string): string { a + "|" + b }

  function Kind(r: Request): (k: string)
    ensures '|' !in k
  {
    match r
    case Beat(_, _, _, _, _) => "beat"
    case Ticket(_, _) => "tkt"
    case Ota(_, _, _, _) => "ota"
    case Reset(_, _) => "reset"
    case FactoryReset(_, _) => "factory_reset"
  }

  function Rest(r: Request): string
    requires WellFormed(r)
  {
    match r
    case Beat(id, port, fp, tn, chal) => Bar(id, Bar(Decimal.Print(port), Bar(fp, Bar(tn, chal))))
    case Ticket(tn, vn) => Bar(tn, vn)
    case Ota(id, act, url, chal) => Bar(id, Bar(act, Bar(url, chal)))
    case Reset(id, chal) => Bar(id, chal)
    case FactoryReset(id, token) => Bar(id, token)
  }

  /** The text as the app forms it. */
  function Text(r: Request): string
    requires WellFormed(r)
  {
    Bar(Kind(r), Rest(r))
  }

  /** snprintf: at most size - 1 characters are kept. */
  function Snprintf(text: string, size: nat): (r: string)
    requires size > 0
    ensures r <= text && |r| < size && (|text| < size ==> r == text)
  {
    if |text| < size then text else text[..size - 1]
  }

  function BufferSize(r: Request): (n: nat)
    ensures n > 0
  {
    match r
    case Beat(_, _, _, _, _) => 200
    case Ticket(_, _) => 80
    case Ota(_, _, _, _) => 260
    case Reset(_, _) => 96
    case FactoryReset(_, _) => 96
  }

  /** A request with its id printed again from the bytes it was read as. */
  function Respelled(r: Request): (q: Request)
    requires WellFormed(r)
    ensures WellFormed(q)
  {
    if r.Ticket? then r else r.(id := Encode(Decode(r.id, 16)))
  }

  /** The text the board checks the proof against. */
  function BoardText(r: Request): Option<string> {
    if WellFormed(r) then Some(Snprintf(Text(Respelled(r)), BufferSize(r))) else None
  }

  lemma PortLength(n: nat)
    requires 1024 <= n <= 65535
    ensures |Decimal.Print(n)| <= 5
  {
    assert n / 10 / 10 / 10 / 10 < 10;
    assert |Decimal.Print(n / 10 / 10 / 10)| <= 2;
    assert |Decimal.Print(n / 10 / 10)| <= 3;
    assert |Decimal.Print(n / 10)| <= 4;
  }

  lemma ActLength(act: string)
    requires act in ACTS
    ensures |act| <= 13 && '|' !in act
  {
  }

  /** Nothing is cut off, and the board checks the very text the app signed. */
  lemma BoardChecksWhatWasSigned(r: Request)
    requires Known(r)
    ensures |Text(r)| < BufferSize(r)
    ensures BoardText(r) == Some(Text(r))
  {
    if r.Beat? { PortLength(r.port); }
    if r.Ota? { ActLength(r.act); }
    if !r.Ticket? { EncodeOfDecode(r.id, 16); }
    assert Respelled(r) == r;
  }

  /** What stands before the first bar, and what after it. */
  lemma CutAtBar(a: string, x: string, b: string, y: string)
    requires '|' !in a && '|' !in b && Bar(a, x) == Bar(b, y)
    ensures a == b && x == y
  {
    var s, t := Bar(a, x), Bar(b, y);
    assert s[|a|] == '|' && t[|b|] == '|';
    assert s[..|a|] == a && t[..|b|] == b && s[|a| + 1..] == x && t[|b| + 1..] == y;
  }

  /** Cut from the right: the last parts have one length. */
  lemma CutFromRight(x: string, c: string, y: string, d: string)
    requires |c| == |d| && Bar(x, c) == Bar(y, d)
    ensures x == y && c == d
  {
    var s, t := Bar(x, c), Bar(y, d);
    assert s[..|x|] == x && t[..|y|] == y && s[|x| + 1..] == c && t[|y| + 1..] == d;
  }

  /** No text of one kind is a text of another. */
  lemma KindsAreDisjoint(p: Request, q: Request)
    requires WellFormed(p) && WellFormed(q) && Text(p) == Text(q)
    ensures Kind(p) == Kind(q) && Rest(p) == Rest(q)
  {
    CutAtBar(Kind(p), Rest(p), Kind(q), Rest(q));
  }

  lemma BeatIsUnambiguous(p: Request, q: Request)
    requires WellFormed(p) && WellFormed(q) && p.Beat? && q.Beat? && Rest(p) == Rest(q)
    ensures p == q
  {
    var d, e := Decimal.Print(p.port), Decimal.Print(q.port);
    assert '|' !in d && '|' !in e;
    CutAtBar(p.id, Bar(d, Bar(p.fp, Bar(p.tn, p.chal))), q.id, Bar(e, Bar(q.fp, Bar(q.tn, q.chal))));
    CutAtBar(d, Bar(p.fp, Bar(p.tn, p.chal)), e, Bar(q.fp, Bar(q.tn, q.chal)));
    CutAtBar(p.fp, Bar(p.tn, p.chal), q.fp, Bar(q.tn, q.chal));
    CutAtBar(p.tn, p.chal, q.tn, q.chal);
    Decimal.ValueOfPrint(p.port);
    Decimal.ValueOfPrint(q.port);
  }

  /** The url may contain bars: it is what lies between the act and the last 33 characters. */
  lemma OtaIsUnambiguous(p: Request, q: Request)
    requires Known(p) && Known(q) && p.Ota? && q.Ota? && Rest(p) == Rest(q)
    ensures p == q
  {
    ActLength(p.act);
    ActLength(q.act);
    CutAtBar(p.id, Bar(p.act, Bar(p.url, p.chal)), q.id, Bar(q.act, Bar(q.url, q.chal)));
    CutAtBar(p.act, Bar(p.url, p.chal), q.act, Bar(q.url, q.chal));
    CutFromRight(p.url, p.chal, q.url, q.chal);
  }

  /** One text, one request: over all kinds, equal texts mean equal fields. */
  lemma Unambiguous(p: Request, q: Request)
    requires Known(p) && Known(q) && BoardText(p) == BoardText(q)
    ensures p == q
  {
    BoardChecksWhatWasSigned(p);
    BoardChecksWhatWasSigned(q);
    KindsAreDisjoint(p, q);
    match p
    case Beat(_, _, _, _, _) => BeatIsUnambiguous(p, q);
    case Ticket(tn, vn) => CutAtBar(tn, vn, q.tn, q.vn);
    case Ota(_, _, _, _) => OtaIsUnambiguous(p, q);
    case Reset(id, chal) => CutAtBar(id, chal, q.id, q.chal);
    case FactoryReset(id, token) => CutAtBar(id, token, q.id, q.token);
  }

  /** An act the board does not know may hold a bar of its own and share its text with a known
      one. The board refuses such a request after the proof, by the act. */
  lemma UnknownActsAreAmbiguous(id: string, chal: string)
    requires IsHex(id, 16) && IsHex(chal, 16)
    ensures var p, q := Ota(id, "check", "x|", chal), Ota(id, "check|x", "", chal);
      p != q && Known(p) && WellFormed(q) && !Known(q) && Text(p) == Text(q)
  {
  }
}
