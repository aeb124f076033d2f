/** The board's side of pairing: requests kept in memory, pairings kept in memory and in
    flash. Every handler is a function from the tables to the tables and an answer. */
module PairingBoard {
  import opened Common
  import opened Crypto
  import opened Clock32
  import Decimal

  const PAIRED_MAX := 4
  const PENDING_MAX := 4
  const NAME_MAX := 32
  const PENDING_MS := 120_000
  const TICK_MS := 1000
  const CODE_TRIES := 3

  datatype Phase = Free | Pending | Confirm | CodeShown | Aborted

  /** A pairing request. Free ones are wiped: every field is zero. */
  datatype Request = Request(phase: Phase, id: Blob, name: string, aPub: Blob, commit: Blob,
                             bSec: Blob, bPub: Blob, nB: Blob, key: Blob, code: nat, tries: nat,
                             ip: nat, at: nat)

  const WIPED := Request(Free, 0, "", 0, 0, 0, 0, 0, 0, 0, 0, 0, 0)

  datatype Entry = Entry(used: bool, id: Blob, name: string, key: Blob)

  const EMPTY := Entry(false, 0, "", 0)

  /** The flash keys i, k and n of one slot. */
  datatype Stored = Stored(id: Option<Blob>, key: Option<Blob>, name: Option<string>)

  const ERASED := Stored(None, None, None)

  datatype Board = Board(pending: seq<Request>, paired: seq<Entry>, nvs: seq<Stored>,
                         now: nat, lastTick: nat)

  datatype PairState = SNone | SPending | SConfirm | SCodeShown | SPaired | SAborted

  datatype Refusal = PinRequired | Unsupported | BadRequest | Full | NotReady | BadMac | NotFound
                   | WrongCode | AbortedNow | Failed

  datatype Reply = Standing(state: PairState, bPub: Blob, nB: Blob) | Refused(word: Refusal) | Done

  ghost predicate Shape(b: Board) {
    |b.pending| == PENDING_MAX && |b.paired| == PAIRED_MAX && |b.nvs| == PAIRED_MAX && b.lastTick < WRAP
    && (forall i :: 0 <= i < |b.pending| ==> b.pending[i].at < WRAP)
  }

  function Start(): (b: Board)
    ensures Shape(b)
  {
    Board(seq(PENDING_MAX, _ => WIPED), seq(PAIRED_MAX, _ => EMPTY), seq(PAIRED_MAX, _ => ERASED), 0, 0)
  }

  // ---- searching ----

  function FindPending(ps: seq<Request>, id: Blob): (r: int)
    ensures -1 <= r < |ps|
    ensures r >= 0 ==> ps[r].phase != Free && ps[r].id == id
    ensures r < 0 <==> forall j :: 0 <= j < |ps| ==> ps[j].phase == Free || ps[j].id != id
  {
    First(ps, (p: Request) => p.phase != Free && p.id == id)
  }

  function FreePending(ps: seq<Request>): (r: int)
    ensures -1 <= r < |ps|
    ensures r >= 0 ==> ps[r].phase == Free
    ensures r < 0 ==> forall j :: 0 <= j < |ps| ==> ps[j].phase != Free
  {
    First(ps, (p: Request) => p.phase == Free)
  }

  function FindPaired(es: seq<Entry>, id: Blob): (r: int)
    ensures -1 <= r < |es|
    ensures r >= 0 ==> es[r].used && es[r].id == id
    ensures r < 0 <==> forall j :: 0 <= j < |es| ==> !es[j].used || es[j].id != id
  {
    First(es, (e: Entry) => e.used && e.id == id)
  }

  function FreePaired(es: seq<Entry>): (r: int)
    ensures -1 <= r < |es|
    ensures r >= 0 ==> !es[r].used
    ensures r < 0 ==> forall j :: 0 <= j < |es| ==> es[j].used
  {
    First(es, (e: Entry) => !e.used)
  }

  // ---- the app's requests ----

  function Standing0(p: Request): Reply {
    match p.phase
    case Pending => Standing(SPending, 0, 0)
    case Confirm => Standing(SConfirm, p.bPub, p.nB)
    case CodeShown => Standing(SCodeShown, 0, 0)
    case Aborted => Standing(SAborted, 0, 0)
    case Free => Standing(SNone, 0, 0)
  }

  function StateReply(b: Board, id: Blob): Reply {
    var pi := FindPending(b.pending, id);
    if pi >= 0 then Standing0(b.pending[pi])
    else Standing(if FindPaired(b.paired, id) >= 0 then SPaired else SNone, 0, 0)
  }

  function CleanName(name: string): (r: string)
    ensures |r| == if name == [] then 8 else |name|
    ensures forall i :: 0 <= i < |r| ==> ' ' <= r[i] && r[i] != '\U{7f}'
  {
    if name == [] then "Computer"
    else seq(|name|, i requires 0 <= i < |name| => if name[i] < ' ' || name[i] == '\U{7f}' then ' ' else name[i])
  }

  /** One request per address: the others from it are dropped. */
  function DropAddress(ps: seq<Request>, ip: nat): (r: seq<Request>)
    ensures |r| == |ps|
    ensures forall i :: 0 <= i < |ps| ==>
      r[i] == if ps[i].phase != Free && ps[i].ip == ip then WIPED else ps[i]
  {
    seq(|ps|, i requires 0 <= i < |ps| => if ps[i].phase != Free && ps[i].ip == ip then WIPED else ps[i])
  }

  function NewRequest(id: Blob, name: string, aPub: Blob, commit: Blob, ip: nat, at: nat): Request {
    WIPED.(phase := Pending, id := id, name := CleanName(name), aPub := aPub, commit := commit, ip := ip, at := at)
  }

  predicate SameAttempt(p: Request, aPub: Blob, commit: Blob) { p.aPub == aPub && p.commit == commit }

  /** The table with every request of this id or this address dropped. */
  function Cleared(ps: seq<Request>, id: Blob, ip: nat): (r: seq<Request>)
    ensures |r| == |ps|
  {
    var pi := FindPending(ps, id);
    DropAddress(if pi >= 0 then ps[pi := WIPED] else ps, ip)
  }

  /** A new request in the first free place. */
  function Enrol(b: Board, id: Blob, name: string, aPub: Blob, commit: Blob, ip: nat): (Board, Reply) {
    var slot := FreePending(b.pending);
    if slot < 0 then (b, Refused(Full))
    else
      var b' := b.(pending := b.pending[slot := NewRequest(id, name, aPub, commit, ip, Millis(b.now))]);
      (b', StateReply(b', id))
  }

  function Hello(b: Board, v: nat, id: Blob, name: string, aPub: Blob, commit: Blob, ip: nat): (Board, Reply) {
    if v != 1 then (b, Refused(Unsupported))
    else if |name| > NAME_MAX then (b, Refused(BadRequest))
    else
      var pi := FindPending(b.pending, id);
      if pi >= 0 && SameAttempt(b.pending[pi], aPub, commit) then (b, StateReply(b, id))
      else Enrol(b.(pending := Cleared(b.pending, id, ip)), id, name, aPub, commit, ip)
  }

  /** Polling keeps a request that waits for a person, while its own computer asks. */
  function AskState(b: Board, id: Blob, ip: nat): (Board, Reply) {
    var pi := FindPending(b.pending, id);
    var b' := if pi >= 0 && b.pending[pi].phase == Pending && b.pending[pi].ip == ip
              then b.(pending := b.pending[pi := b.pending[pi].(at := Millis(b.now))]) else b;
    (b', StateReply(b', id))
  }

  /** keysOk: the curve, the code and the key could be computed. */
  function Reveal(s: Scheme, b: Board, id: Blob, nA: Blob, keysOk: bool): (Board, Reply) {
    var pi := FindPending(b.pending, id);
    if pi < 0 || b.pending[pi].phase != Confirm then (b, Refused(NotReady))
    else
      var p := b.pending[pi];
      if s.commit(p.aPub, nA) != p.commit then (b.(pending := b.pending[pi := WIPED]), Refused(BadMac))
      else
        var shared := s.dh(p.bSec, p.aPub);
        if shared == 0 || !keysOk then (b.(pending := b.pending[pi := WIPED]), Refused(BadRequest))
        else
          var b' := b.(pending := b.pending[pi := p.(bSec := 0, code := s.Sas(p.aPub, p.bPub, nA, p.nB),
                       key := s.kdf(shared, p.aPub, p.bPub, nA, p.nB), phase := CodeShown, at := Millis(b.now))]);
          (b', StateReply(b', id))
  }

  // ---- the dashboard's commands ----

  function Approve(s: Scheme, b: Board, id: Blob, pinSet: bool, bSec: Blob, nB: Blob, keyOk: bool): (Board, Reply) {
    if !pinSet then (b, Refused(PinRequired))
    else
      var pi := FindPending(b.pending, id);
      if pi < 0 then (b, Refused(NotFound))
      else if b.pending[pi].phase != Pending then (b, Refused(NotReady))
      else if !keyOk then (b.(pending := b.pending[pi := WIPED]), Refused(Failed))
      else
        (b.(pending := b.pending[pi := b.pending[pi].(bSec := bSec, nB := nB, bPub := s.pub(bSec),
            phase := Confirm, at := Millis(b.now))]), Standing(SConfirm, 0, 0))
  }

  predicate RightCode(text: string, code: nat) {
    |text| == 6 && Decimal.AllDigits(text) && Decimal.Value(text) == code
  }

  function AfterWrong(p: Request, at: nat): Request {
    if p.tries + 1 >= CODE_TRIES then WIPED.(phase := Aborted, id := p.id, name := p.name, ip := p.ip, at := at)
    else p.(tries := p.tries + 1)
  }

  /** The confirmed request becomes a pairing, or nothing when flash cannot keep it.
      puts: how many of the three flash writes succeed. */
  function Keep(b: Board, pi: nat, slot: nat, puts: nat): (Board, Reply)
    requires pi < |b.pending| && slot < |b.paired| == |b.nvs|
  {
    var p := b.pending[pi];
    var b' := b.(pending := b.pending[pi := WIPED]);
    if puts < 3 then (b'.(paired := b.paired[slot := EMPTY], nvs := b.nvs[slot := ERASED]), Refused(Failed))
    else
      (b'.(paired := b.paired[slot := Entry(true, p.id, p.name, p.key)],
           nvs := b.nvs[slot := Stored(Some(p.id), Some(p.key), Some(p.name))]), Standing(SPaired, 0, 0))
  }

  function TypeCode(b: Board, id: Blob, pinSet: bool, text: string, puts: nat): (Board, Reply)
    requires text != []
    requires |b.nvs| == |b.paired|
  {
    if !pinSet then (b, Refused(PinRequired))
    else
      var pi := FindPending(b.pending, id);
      if pi < 0 then (b, Refused(NotFound))
      else
        var p := b.pending[pi];
        if p.phase != CodeShown then (b, Refused(NotReady))
        else if !RightCode(text, p.code) then
          (b.(pending := b.pending[pi := AfterWrong(p, Millis(b.now))]),
           Refused(if p.tries + 1 >= CODE_TRIES then AbortedNow else WrongCode))
        else
          var found := FindPaired(b.paired, id);
          var slot := if found >= 0 then found else FreePaired(b.paired);
          if slot < 0 then (b, Refused(Full))
          else Keep(b, pi, slot, puts)
  }

  function Unpair(b: Board, id: Blob): Board
    requires |b.nvs| == |b.paired|
  {
    var i, pi := FindPaired(b.paired, id), FindPending(b.pending, id);
    var b1 := if pi >= 0 then b.(pending := b.pending[pi := WIPED]) else b;
    if i >= 0 then b1.(paired := b1.paired[i := EMPTY], nvs := b1.nvs[i := ERASED]) else b1
  }

  // ---- time, restart, wiping ----

  predicate Expired(p: Request, ms: nat)
    requires p.at < WRAP && ms < WRAP
  {
    p.phase != Free && Since(ms, p.at) > PENDING_MS
  }

  function Tick(b: Board): Board
    requires Shape(b)
  {
    var ms := Millis(b.now);
    if Since(ms, b.lastTick) < TICK_MS then b
    else b.(lastTick := ms,
            pending := seq(|b.pending|, i requires 0 <= i < |b.pending| =>
              if Expired(b.pending[i], ms) then WIPED else b.pending[i]))
  }

  function LoadSlot(st: Stored): Entry {
    if st.id.None? || st.key.None? then EMPTY
    else
      var n := if st.name.Some? then st.name.value else "Computer";
      Entry(true, st.id.value, if |n| > NAME_MAX then n[..NAME_MAX] else n, st.key.value)
  }

  /** What a start reads back from flash. */
  function Load(nvs: seq<Stored>): (es: seq<Entry>)
    ensures |es| == |nvs|
    ensures forall i :: 0 <= i < |nvs| ==> es[i] == LoadSlot(nvs[i])
  {
    seq(|nvs|, i requires 0 <= i < |nvs| => LoadSlot(nvs[i]))
  }

  function Restart(b: Board): Board {
    Start().(nvs := b.nvs, paired := Load(b.nvs))
  }

  function WipeAll(b: Board): Board {
    Start().(now := b.now, lastTick := b.lastTick)
  }

  // ---- everything that can happen to the board ----

  datatype Event =
    | EHello(v: nat, id: Blob, name: string, aPub: Blob, commit: Blob, ip: nat)
    | EState(id: Blob, ip: nat)
    | EReveal(id: Blob, nA: Blob, keysOk: bool)
    | EApprove(id: Blob, pinSet: bool, bSec: Blob, nB: Blob, keyOk: bool)
    | ECode(id: Blob, pinSet: bool, text: string, puts: nat)
    | EUnpair(id: Blob)
    | EPass(ms: nat)
    | ETick
    | ERestart
    | EWipe

  predicate Possible(e: Event) { e.ECode? ==> e.text != [] }

  function Handle(s: Scheme, b: Board, e: Event): (Board, Reply)
    requires Shape(b) && Possible(e)
  {
    match e
    case EHello(v, id, name, aPub, commit, ip) => Hello(b, v, id, name, aPub, commit, ip)
    case EState(id, ip) => AskState(b, id, ip)
    case EReveal(id, nA, keysOk) => Reveal(s, b, id, nA, keysOk)
    case EApprove(id, pinSet, bSec, nB, keyOk) => Approve(s, b, id, pinSet, bSec, nB, keyOk)
    case ECode(id, pinSet, text, puts) => TypeCode(b, id, pinSet, text, puts)
    case EUnpair(id) => (Unpair(b, id), Done)
    case EPass(ms) => (b.(now := b.now + ms), Done)
    case ETick => (Tick(b), Done)
    case ERestart => (Restart(b), Done)
    case EWipe => (WipeAll(b), Done)
  }

  // ---- what every event keeps ----

  /** Requests in use have distinct computers and distinct addresses. */
  ghost predicate DistinctRequests(ps: seq<Request>) {
    forall i, j :: 0 <= i < j < |ps| && ps[i].phase != Free && ps[j].phase != Free ==>
      ps[i].id != ps[j].id && ps[i].ip != ps[j].ip
  }

  ghost predicate DistinctPairings(es: seq<Entry>) {
    forall i, j :: 0 <= i < j < |es| && es[i].used && es[j].used ==> es[i].id != es[j].id
  }

  /** A free request holds nothing, and a name in use is one flash can keep. */
  ghost predicate GoodRequest(p: Request) {
    (p.phase == Free ==> p == WIPED) && (p.phase != Free ==> 0 < |p.name| <= NAME_MAX)
  }

  ghost predicate GoodRequests(ps: seq<Request>) {
    DistinctRequests(ps) && forall i :: 0 <= i < |ps| ==> GoodRequest(ps[i])
  }

  ghost predicate Tables(b: Board) {
    && Shape(b)
    && GoodRequests(b.pending)
    && DistinctPairings(b.paired)
    && b.paired == Load(b.nvs)
  }

  /** Every handler keeps the shape the next one needs. */
  lemma HandleKeepsShape(s: Scheme, b: Board, e: Event)
    requires Shape(b) && Possible(e)
    ensures Shape(Handle(s, b, e).0)
  {
    if e.EHello? { HelloKeepsShape(b, e.v, e.id, e.name, e.aPub, e.commit, e.ip); }
    else if e.EState? || e.EReveal? || e.EApprove? { RequestKeepsShape(s, b, e); }
    else if e.ECode? { CodeKeepsShape(b, e.id, e.pinSet, e.text, e.puts); }
  }

  lemma HelloKeepsShape(b: Board, v: nat, id: Blob, name: string, aPub: Blob, commit: Blob, ip: nat)
    requires Shape(b)
    ensures Shape(Hello(b, v, id, name, aPub, commit, ip).0)
  {
  }

  lemma RequestKeepsShape(s: Scheme, b: Board, e: Event)
    requires Shape(b) && (e.EState? || e.EReveal? || e.EApprove?)
    ensures Shape(Handle(s, b, e).0)
  {
  }

  lemma CodeKeepsShape(b: Board, id: Blob, pinSet: bool, text: string, puts: nat)
    requires Shape(b) && text != []
    ensures Shape(TypeCode(b, id, pinSet, text, puts).0)
  {
  }

  /** Dropping a request, or changing one without touching its id and address, keeps the table. */
  lemma UpdateKeepsRequests(ps: seq<Request>, i: nat, p: Request)
    requires i < |ps| && GoodRequests(ps) && GoodRequest(p)
    requires p.phase != Free ==> ps[i].phase != Free && p.id == ps[i].id && p.ip == ps[i].ip
    ensures GoodRequests(ps[i := p])
  {
  }

  /** Filling a free place with an id and an address nobody else has keeps the table. */
  lemma InsertKeepsRequests(ps: seq<Request>, i: nat, p: Request)
    requires i < |ps| && GoodRequests(ps) && GoodRequest(p) && ps[i].phase == Free
    requires forall j :: 0 <= j < |ps| && ps[j].phase != Free ==> ps[j].id != p.id && ps[j].ip != p.ip
    ensures GoodRequests(ps[i := p])
  {
  }

  /** What clearing leaves: no request of this id or address. */
  lemma ClearedSpec(ps: seq<Request>, id: Blob, ip: nat)
    requires GoodRequests(ps)
    ensures var r := Cleared(ps, id, ip);
      && GoodRequests(r)
      && forall j :: 0 <= j < |r| ==>
           r[j] == if ps[j].phase != Free && (ps[j].id == id || ps[j].ip == ip) then WIPED else ps[j]
  {
  }

  lemma HelloKeepsTables(b: Board, v: nat, id: Blob, name: string, aPub: Blob, commit: Blob, ip: nat)
    requires Tables(b)
    ensures GoodRequests(Hello(b, v, id, name, aPub, commit, ip).0.pending)
  {
    ClearedSpec(b.pending, id, ip);
    var ps := Cleared(b.pending, id, ip);
    var slot := FreePending(ps);
    if slot >= 0 && |name| <= NAME_MAX {
      InsertKeepsRequests(ps, slot, NewRequest(id, name, aPub, commit, ip, Millis(b.now)));
    }
  }

  /** Requests: the events that change one request in place, or drop it. */
  lemma OthersKeepRequests(s: Scheme, b: Board, e: Event)
    requires Tables(b) && Possible(e) && !e.EHello?
    ensures GoodRequests(Handle(s, b, e).0.pending)
  {
    if e.EState? || e.EReveal? || e.EApprove? { StepKeepsRequests(s, b, e); }
    else if e.ECode? || e.EUnpair? { CodeKeepsRequests(s, b, e); }
  }

  lemma StepKeepsRequests(s: Scheme, b: Board, e: Event)
    requires Tables(b) && (e.EState? || e.EReveal? || e.EApprove?)
    ensures GoodRequests(Handle(s, b, e).0.pending)
  {
    var b', pi := Handle(s, b, e).0, FindPending(b.pending, e.id);
    if pi >= 0 {
      assert b'.pending == b.pending || b'.pending == b.pending[pi := b'.pending[pi]];
      UpdateKeepsRequests(b.pending, pi, b'.pending[pi]);
    }
  }

  lemma CodeKeepsRequests(s: Scheme, b: Board, e: Event)
    requires Tables(b) && Possible(e) && (e.ECode? || e.EUnpair?)
    ensures GoodRequests(Handle(s, b, e).0.pending)
  {
    var b', pi := Handle(s, b, e).0, FindPending(b.pending, e.id);
    if pi >= 0 {
      assert b'.pending == b.pending || b'.pending == b.pending[pi := b'.pending[pi]];
      UpdateKeepsRequests(b.pending, pi, b'.pending[pi]);
    }
  }

  /** Writing a pairing and its flash copy together keeps the two equal. */
  lemma StoreKeepsPairings(es: seq<Entry>, nvs: seq<Stored>, i: nat, e: Entry, st: Stored)
    requires i < |es| && es == Load(nvs) && DistinctPairings(es) && LoadSlot(st) == e
    requires e.used ==> forall j :: 0 <= j < |es| && j != i && es[j].used ==> es[j].id != e.id
    ensures es[i := e] == Load(nvs[i := st]) && DistinctPairings(es[i := e])
  {
  }

  lemma TypeCodeKeepsPairings(b: Board, id: Blob, pinSet: bool, text: string, puts: nat)
    requires Tables(b) && text != []
    ensures var b' := TypeCode(b, id, pinSet, text, puts).0;
      b'.paired == Load(b'.nvs) && DistinctPairings(b'.paired)
  {
    var pi, found := FindPending(b.pending, id), FindPaired(b.paired, id);
    var slot := if found >= 0 then found else FreePaired(b.paired);
    if pi >= 0 && slot >= 0 {
      var p := b.pending[pi];
      assert GoodRequest(p);
      StoreKeepsPairings(b.paired, b.nvs, slot, EMPTY, ERASED);
      StoreKeepsPairings(b.paired, b.nvs, slot, Entry(true, p.id, p.name, p.key),
                         Stored(Some(p.id), Some(p.key), Some(p.name)));
    }
  }

  lemma OthersKeepPairings(s: Scheme, b: Board, e: Event)
    requires Tables(b) && Possible(e) && !e.ECode?
    ensures var b' := Handle(s, b, e).0;
      b'.paired == Load(b'.nvs) && DistinctPairings(b'.paired)
  {
    if e.EUnpair? {
      var i := FindPaired(b.paired, e.id);
      if i >= 0 { StoreKeepsPairings(b.paired, b.nvs, i, EMPTY, ERASED); }
    }
  }

  /** Over every event the tables keep their invariant; in particular flash holds exactly
      the pairings in memory after each completed handler. */
  lemma HandleKeepsTables(s: Scheme, b: Board, e: Event)
    requires Tables(b) && Possible(e)
    ensures Tables(Handle(s, b, e).0)
  {
    HandleKeepsShape(s, b, e);
    if e.EHello? { HelloKeepsTables(b, e.v, e.id, e.name, e.aPub, e.commit, e.ip); }
    else { OthersKeepRequests(s, b, e); }
    if e.ECode? { TypeCodeKeepsPairings(b, e.id, e.pinSet, e.text, e.puts); }
    else { OthersKeepPairings(s, b, e); }
  }

  lemma EnrolledIsFound(ps: seq<Request>, p: Request)
    requires p.phase != Free && forall j :: 0 <= j < |ps| ==> ps[j].phase == Free || ps[j].id != p.id
    ensures var slot := FreePending(ps); slot >= 0 ==> FindPending(ps[slot := p], p.id) == slot
  {
    var slot := FreePending(ps);
    if slot >= 0 { assert ps[slot := p][slot] == p; }
  }

  /** Asking again with the same keys changes nothing and says where the attempt stands. */
  lemma RepeatedHello(s: Scheme, b: Board, e: Event, e2: Event)
    requires Tables(b) && e.EHello? && e2.EHello?
    requires e2.id == e.id && e2.aPub == e.aPub && e2.commit == e.commit && e2.v == 1 && |e2.name| <= NAME_MAX
    ensures var (b1, r1) := Handle(s, b, e);
      r1.Standing? ==> Handle(s, b1, e2) == (b1, r1)
  {
    var (b1, r1) := Handle(s, b, e);
    if r1.Standing? {
      ClearedSpec(b.pending, e.id, e.ip);
      var p0 := FindPending(b.pending, e.id);
      if !(p0 >= 0 && SameAttempt(b.pending[p0], e.aPub, e.commit)) {
        EnrolledIsFound(Cleared(b.pending, e.id, e.ip), NewRequest(e.id, e.name, e.aPub, e.commit, e.ip, Millis(b.now)));
      }
    }
  }
}
