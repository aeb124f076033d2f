/** Checking for a release and installing it: the manifest is believed only once its signature
    holds; the image is streamed into the inactive slot over flash that must be erased before
    it is programmed, resumed over broken connections, hashed on the way in and again from
    flash, and only then chosen to boot. */
module OtaInstall {
  import opened Common
  import opened OtaLogic
  import V = Versions
  import opened OtaDevice

  type Byte = bv8
  type Digest = nat

  const SECTOR := 4096
  const BUFFER := 4096
  const ERASED: Byte := 0xFF

  /** One connection's answer: the status line and every byte it delivers before it ends. */
  datatype Answer = Answer(code: int, stream: seq<Byte>)

  /** What the i-th connection brings when asked for the image from an offset on. */
  type Net = (nat, nat) -> Answer

  /** A server that serves this image: from the start, or from where it was asked. */
  ghost predicate Serves(net: Net, image: seq<Byte>) {
    forall i: nat, from: nat :: Fitting(net(i, from), from, image)
  }

  datatype Manifest = Manifest(format: nat, product: string, version: string, minFrom: string, chip: Option<string>,
                               size: nat, sha256: Option<Digest>, image: string)

  /** The libraries: SHA-256, the signature check against the release keys, the JSON reader. */
  datatype Libraries = Libraries(sha: seq<Byte> -> Digest, signed: (seq<Byte>, seq<Byte>) -> bool,
                                 read: seq<Byte> -> Option<Manifest>,
                                 starts: seq<Byte> -> bool)    // what the bootloader thinks of a slot

  /** m was in a manifest whose signature held. */
  ghost predicate Vouched(l: Libraries, m: Manifest) {
    exists raw, sig :: l.signed(raw, sig) && l.read(raw) == Some(m)
  }

  datatype Error = NoError | Cancelled | NoConnection | BadSignature | BadManifest | NotInstallable
                 | NothingToInstall | TooLarge | FlashWrite | HashMismatch | FlashRead | FlashVerify | SwitchRefused

  /** How the world treats an install: whether the flash works throughout, and whether nobody
      cancels. Where it does not, every single operation may go either way. */
  datatype Fate = Fate(flashWorks: bool, undisturbed: bool)

  // ---- flash ----

  /** Flash left unusable by a failed operation. */
  method Scramble(part: array<Byte>, lo: nat, hi: nat)
    requires lo <= hi <= part.Length
    modifies part
    ensures forall i :: 0 <= i < part.Length && !(lo <= i < hi) ==> part[i] == old(part[i])
  {
    for k := lo to hi
      invariant forall i :: 0 <= i < part.Length && !(lo <= i < hi) ==> part[i] == old(part[i])
    {
      part[k] := *;
    }
  }

  method EraseSector(part: array<Byte>, at: nat, w: Fate) returns (ok: bool)
    requires at + SECTOR <= part.Length
    modifies part
    ensures forall i :: 0 <= i < part.Length && !(at <= i < at + SECTOR) ==> part[i] == old(part[i])
    ensures ok ==> forall i :: at <= i < at + SECTOR ==> part[i] == ERASED
    ensures w.flashWorks ==> ok
  {
    ok := *;
    ok := ok || w.flashWorks;
    if !ok {
      Scramble(part, at, at + SECTOR);
      return;
    }
    for k := at to at + SECTOR
      invariant forall i :: 0 <= i < part.Length && !(at <= i < at + SECTOR) ==> part[i] == old(part[i])
      invariant forall i :: at <= i < k ==> part[i] == ERASED
    {
      part[k] := ERASED;
    }
  }

  /** Programming can only clear bits: what is stored is the old contents AND the data. It is
      called on erased bytes alone, and then stores the data. */
  method Program(part: array<Byte>, at: nat, data: seq<Byte>, w: Fate) returns (ok: bool)
    requires at + |data| <= part.Length
    requires forall i :: at <= i < at + |data| ==> part[i] == ERASED
    modifies part
    ensures forall i :: 0 <= i < part.Length && !(at <= i < at + |data|) ==> part[i] == old(part[i])
    ensures ok ==> forall i :: at <= i < at + |data| ==> part[i] == data[i - at]
    ensures w.flashWorks ==> ok
  {
    ok := *;
    ok := ok || w.flashWorks;
    if !ok {
      Scramble(part, at, at + |data|);
      return;
    }
    for k := 0 to |data|
      invariant forall i :: 0 <= i < part.Length && !(at <= i < at + |data|) ==> part[i] == old(part[i])
      invariant forall i :: at <= i < at + k ==> part[i] == data[i - at]
      invariant forall i :: at + k <= i < at + |data| ==> part[i] == ERASED
    {
      AndErased(data[k]);
      part[at + k] := part[at + k] & data[k];
    }
  }

  lemma AndErased(b: Byte)
    ensures ERASED & b == b
  {
  }

  /** Erases sector by sector until everything below upTo is erased. */
  method EnsureErased(part: array<Byte>, from: nat, upTo: nat, w: Fate) returns (ok: bool, cancelled: bool, to: nat)
    requires part.Length % SECTOR == 0 && from % SECTOR == 0 && from <= part.Length && upTo <= part.Length
    modifies part
    ensures from <= to <= part.Length && to % SECTOR == 0 && (ok ==> upTo <= to)
    ensures (ok ==> !cancelled) && (ok || cancelled || !w.flashWorks) && (cancelled ==> !w.undisturbed)
    ensures forall i :: 0 <= i < from ==> part[i] == old(part[i])
    ensures ok || cancelled ==> forall i :: from <= i < to ==> part[i] == ERASED
    ensures (ok || cancelled) && to == from ==> part[..] == old(part[..])
  {
    to, cancelled := from, false;
    while to < upTo
      invariant from <= to <= part.Length && to % SECTOR == 0
      invariant forall i :: 0 <= i < from ==> part[i] == old(part[i])
      invariant forall i :: from <= i < to ==> part[i] == ERASED
      invariant to == from ==> part[..] == old(part[..])
    {
      var cancel: bool := *;
      if cancel && !w.undisturbed { return false, true, to; }
      assert to + SECTOR <= part.Length;
      var erased := EraseSector(part, to, w);
      if !erased { return false, false, to; }
      to := to + SECTOR;
    }
    ok := true;
  }

  // ---- the download ----

  /** What every iteration keeps: the first `written` bytes of the slot are the bytes hashed so
      far, and from there to the erase frontier nothing has been programmed. */
  ghost predicate InStep(part: array<Byte>, written: nat, frontier: nat, hashed: seq<Byte>, total: nat)
    reads part
  {
    && written <= total <= part.Length && written <= frontier <= part.Length
    && frontier % SECTOR == 0 && part.Length % SECTOR == 0
    && part[..written] == hashed
    && forall i :: written <= i < frontier ==> part[i] == ERASED
  }

  /** One chunk: erase as far as it reaches, hash it, program it. A cancel while erasing leaves
      everything in step. */
  method WriteChunk(part: array<Byte>, data: seq<Byte>, written: nat, frontier0: nat, hashed0: seq<Byte>, total: nat, w: Fate)
    returns (good: bool, cancelled: bool, frontier: nat, hashed: seq<Byte>)
    requires InStep(part, written, frontier0, hashed0, total) && written + |data| <= total
    modifies part
    ensures good && cancelled ==> hashed == hashed0 && InStep(part, written, frontier, hashed, total)
    ensures good ==> frontier0 <= frontier
    ensures good && !cancelled ==> hashed == hashed0 + data && InStep(part, written + |data|, frontier, hashed, total)
    ensures (good || !w.flashWorks) && (cancelled ==> !w.undisturbed)
    ensures good && frontier == 0 ==> part[..] == old(part[..])
  {
    var ok;
    hashed := hashed0;
    ok, cancelled, frontier := EnsureErased(part, frontier0, written + |data|, w);
    if !ok {
      good := cancelled;
      return;
    }
    hashed := hashed + data;
    good := Program(part, written, data, w);
    assert good ==> part[..written + |data|] == part[..written] + data;
  }

  /** Reads one connection's stream into the slot. good is false after a failed erase or write. */
  method Receive(part: array<Byte>, stream: seq<Byte>, total: nat, from: nat, frontier0: nat, hashed0: seq<Byte>, w: Fate)
    returns (good: bool, cancelled: bool, written: nat, frontier: nat, hashed: seq<Byte>)
    requires InStep(part, from, frontier0, hashed0, total)
    modifies part
    ensures good ==> InStep(part, written, frontier, hashed, total)
    ensures good ==> from <= written <= from + |stream| && hashed == hashed0 + stream[..written - from]
    ensures (good || !w.flashWorks) && (cancelled ==> !w.undisturbed)
    ensures w.flashWorks && w.undisturbed ==> written == total || written == from + |stream|
    ensures good && frontier == 0 ==> part[..] == old(part[..])
    ensures good && frontier0 > 0 ==> frontier > 0
  {
    good, cancelled, written, frontier, hashed := true, false, from, frontier0, hashed0;
    var pos := 0;
    while pos < |stream| && written < total
      invariant good && pos <= |stream| && written == from + pos && hashed == hashed0 + stream[..pos]
      invariant InStep(part, written, frontier, hashed, total) && (w.undisturbed ==> !cancelled)
      invariant frontier0 <= frontier && (frontier == 0 ==> part[..] == old(part[..]))
    {
      cancelled := *;
      cancelled := cancelled && !w.undisturbed;
      if cancelled { return; }
      var n: nat := *;
      n := if n < 1 then 1 else n;
      n := if n > BUFFER then BUFFER else n;
      n := if n > total - written then total - written else n;
      n := if n > |stream| - pos then |stream| - pos else n;
      good, cancelled, frontier, hashed := WriteChunk(part, stream[pos..pos + n], written, frontier, hashed, total, w);
      if !good || cancelled { return; }
      assert stream[..pos] + stream[pos..pos + n] == stream[..pos + n];
      written, pos := written + n, pos + n;
    }
  }

  /** What is there, and a piece of what follows it, is still the start of the image. */
  lemma Resumes(image: seq<Byte>, before: seq<Byte>, stream: seq<Byte>, n: nat)
    requires before <= image && n <= |stream| && stream <= image[|before|..]
    ensures before + stream[..n] <= image
  {
  }

  function Least(a: nat, b: nat): nat { if a < b then a else b }

  /** How far an answered connection gets that begins with w bytes in the slot. */
  function Reached(a: Answer, w: nat, total: nat): (n: nat)
    ensures n <= total
  {
    Least(total, if a.code == 200 then |a.stream| else w + |a.stream|)
  }

  /** The answer is what a server of this image may give when asked from w on. */
  ghost predicate Fitting(a: Answer, w: nat, image: seq<Byte>) {
    && (a.code == 200 ==> a.stream <= image)
    && (a.code == 206 ==> w <= |image| && a.stream <= image[w..])
  }

  /** How much of the image is in the slot after k connections, when nothing else goes wrong: an
      answer from the start begins again, one from where it was asked goes on, any other loses all. */
  function Kept(net: Net, total: nat, k: nat): (n: nat)
    ensures n <= total
  {
    if k == 0 then 0
    else
      var w := Kept(net, total, k - 1);
      var a := net(k - 1, w);
      if a.code == 200 || a.code == 206 then Reached(a, w, total) else 0
  }

  /** None of the first n connections completes it. */
  ghost predicate Missed(net: Net, total: nat, n: nat) {
    forall k: nat :: 0 < k <= n ==> Kept(net, total, k) != total
  }

  /** One of the connections completes it. */
  ghost predicate Arrives(net: Net, total: nat) {
    exists k: nat :: 0 < k <= MAX_ATTEMPTS && Kept(net, total, k) == total
  }

  /** The k-th connection brings all it is asked for. */
  ghost predicate Delivers(net: Net, k: nat, total: nat) {
    forall from: nat :: from <= total ==> DeliversFrom(net, k, from, total)
  }

  ghost predicate DeliversFrom(net: Net, k: nat, from: nat, total: nat) {
    var a := net(k, from);
    (a.code == 200 && |a.stream| >= total) || (a.code == 206 && from + |a.stream| >= total)
  }

  /** One such connection of the eight is enough, whatever the others bring. */
  lemma OneIsEnough(net: Net, total: nat, k: nat)
    requires k < MAX_ATTEMPTS && Delivers(net, k, total)
    ensures Arrives(net, total)
  {
    assert DeliversFrom(net, k, Kept(net, total, k), total);
    assert Kept(net, total, k + 1) == total;
  }

  /** The server goes on from where it is asked. */
  ghost predicate HonoursRanges(net: Net) {
    forall i: nat, from: nat :: net(i, from).code == 206 || (from == 0 && net(i, from).code == 200)
  }

  /** What the first k connections bring, each asked for what is missing then. */
  function Brought(net: Net, total: nat, k: nat): nat {
    if k == 0 then 0 else Brought(net, total, k - 1) + |net(k - 1, Least(total, Brought(net, total, k - 1))).stream|
  }

  /** Then no byte is lost with its connection: what is in the slot is all that was brought. */
  lemma {:induction false} NothingIsLost(net: Net, total: nat, k: nat)
    requires HonoursRanges(net)
    ensures Kept(net, total, k) == Least(total, Brought(net, total, k))
  {
    if k > 0 { NothingIsLost(net, total, k - 1); }
  }

  lemma {:induction false} BroughtGrows(net: Net, total: nat, j: nat, k: nat)
    requires j <= k
    ensures Brought(net, total, j) <= Brought(net, total, k)
  {
    if j < k { BroughtGrows(net, total, j, k - 1); }
  }

  /** And the image arrives if and only if eight connections together bring it. */
  lemma TogetherIsEnough(net: Net, total: nat)
    requires HonoursRanges(net)
    ensures Arrives(net, total) <==> Brought(net, total, MAX_ATTEMPTS) >= total
  {
    NothingIsLost(net, total, MAX_ATTEMPTS);
    forall k: nat | 0 < k <= MAX_ATTEMPTS && Kept(net, total, k) == total
      ensures Brought(net, total, MAX_ATTEMPTS) >= total
    {
      NothingIsLost(net, total, k);
      BroughtGrows(net, total, k, MAX_ATTEMPTS);
    }
  }

  predicate Answered(a: Answer) { a.code == 200 || a.code == 206 }

  /** One connection: a 200 begins again, and what is delivered is stored. */
  method Connect(part: array<Byte>, total: nat, a: Answer, written0: nat, frontier0: nat, hashed0: seq<Byte>, w: Fate)
    returns (good: bool, cancelled: bool, written: nat, frontier: nat, hashed: seq<Byte>)
    requires InStep(part, written0, frontier0, hashed0, total)
    modifies part
    ensures good ==> InStep(part, written, frontier, hashed, total) && (frontier == 0 ==> part[..] == old(part[..]))
    ensures (good || !w.flashWorks) && (cancelled ==> !w.undisturbed)
    ensures !Answered(a) ==> good && !cancelled && written == written0
    ensures w.flashWorks && w.undisturbed ==> written == if Answered(a) then Reached(a, written0, total) else written0
    ensures good ==> forall image :: Fitting(a, written0, image) && hashed0 <= image ==> hashed <= image
  {
    good, cancelled, written, frontier, hashed := true, false, written0, frontier0, hashed0;
    if a.code == 200 && written > 0 {
      written, frontier, hashed := 0, 0, [];
    }
    if Answered(a) {
      ghost var from, before := written, hashed;
      good, cancelled, written, frontier, hashed := Receive(part, a.stream, total, written, frontier, hashed, w);
      if good {
        forall image | Fitting(a, written0, image) && hashed0 <= image ensures hashed <= image {
          Resumes(image, before, a.stream, written - from);
        }
      }
    }
  }

  lemma Completes(net: Net, total: nat, k: nat, was: nat, now: nat)
    requires 0 < k <= MAX_ATTEMPTS && was == Kept(net, total, k - 1) && Missed(net, total, k - 1) && now >= total
    requires var a := net(k - 1, was); now == if Answered(a) then Reached(a, was, total) else was
    ensures Arrives(net, total)
  {
    assert Kept(net, total, k) == total;
  }

  /** At most eight connections; each goes on where the last one stopped when the server allows
      it, and starts over when it does not. */
  method Download(part: array<Byte>, total: nat, net: Net, w: Fate)
    returns (e: Error, hashed: seq<Byte>, connections: nat, touched: bool)
    requires total <= part.Length && part.Length % SECTOR == 0
    modifies part
    ensures connections <= MAX_ATTEMPTS
    ensures e == NoError ==> part[..total] == hashed && (total > 0 ==> touched)
    ensures e in {NoError, Cancelled, FlashWrite, NoConnection}
    ensures !touched ==> part[..] == old(part[..])
    ensures forall image :: e == NoError && Serves(net, image) ==> total <= |image| && hashed == image[..total]
    ensures w.flashWorks && w.undisturbed ==> e == if Arrives(net, total) then NoError else NoConnection
    ensures (e == FlashWrite ==> !w.flashWorks) && (e == Cancelled ==> !w.undisturbed)
  {
    var written: nat, frontier: nat, attempts: nat := 0, 0, 0;
    hashed, connections, touched := [], 0, false;
    while true
      invariant (frontier > 0 ==> touched) && (!touched ==> part[..] == old(part[..]))
      invariant InStep(part, written, frontier, hashed, total)
      invariant connections == attempts < MAX_ATTEMPTS
      invariant forall image :: Serves(net, image) ==> hashed <= image
      invariant w.flashWorks && w.undisturbed ==> written == Kept(net, total, connections) && Missed(net, total, connections)
      decreases MAX_ATTEMPTS - attempts
    {
      var cancel: bool := *;
      if cancel && !w.undisturbed { return Cancelled, hashed, connections, touched; }
      var a := net(connections, written);
      ghost var was := written;
      forall image | Serves(net, image) ensures Fitting(a, written, image) { }
      var good, cancelled;
      good, cancelled, written, frontier, hashed := Connect(part, total, a, written, frontier, hashed, w);
      connections := connections + 1;
      touched := touched || frontier > 0;
      if !good { return FlashWrite, hashed, connections, true; }
      if written >= total {
        if w.flashWorks && w.undisturbed { Completes(net, total, connections, was, written); }
        return NoError, hashed, connections, touched;
      }
      if cancelled { return Cancelled, hashed, connections, touched; }
      attempts := attempts + 1;
      var from := ResumeFrom(written, total, Answered(a), attempts);
      if from < 0 { return NoConnection, hashed, connections, touched; }
      if from == 0 && written > 0 {
        written, frontier, hashed := 0, 0, [];
      }
    }
  }

  /** Hashes the slot as it is in flash, buffer by buffer. */
  method ReadBack(part: array<Byte>, total: nat, w: Fate) returns (e: Error, hashed: seq<Byte>)
    requires total <= part.Length
    ensures e == NoError ==> hashed == part[..total]
    ensures e != SwitchRefused
    ensures w.flashWorks && w.undisturbed ==> e == NoError
  {
    hashed := [];
    var off := 0;
    while off < total
      invariant off <= total && hashed == part[..off]
    {
      var n := if BUFFER < total - off then BUFFER else total - off;
      var readable, cancel: bool := *, *;
      if !readable && !w.flashWorks { return FlashRead, hashed; }
      assert part[..off + n] == part[..off] + part[off..off + n];
      hashed := hashed + part[off..off + n];
      off := off + n;
      if cancel && !w.undisturbed { return Cancelled, hashed; }
    }
    e := NoError;
  }

  /** The hash of what arrived, then the hash of what is in flash, against the signed one. */
  method VerifySlot(part: array<Byte>, total: nat, want: Option<Digest>, arrived: seq<Byte>, libs: Libraries, w: Fate) returns (e: Error)
    requires total <= part.Length && part[..total] == arrived
    modifies part
    ensures e == NoError ==> want == Some(libs.sha(part[..total]))
    ensures e != SwitchRefused
    ensures w.flashWorks && w.undisturbed && want == Some(libs.sha(arrived)) ==> e == NoError
  {
    if want != Some(libs.sha(arrived)) { return HashMismatch; }
    var decays: bool := *;           // flash need not hold what was programmed into it
    if decays && !w.flashWorks { Scramble(part, 0, part.Length); }
    var hashed;
    e, hashed := ReadBack(part, total, w);
    if e == NoError && want != Some(libs.sha(hashed)) { e := FlashVerify; }
  }

  /** How an install ends for the other slot: nothing started; not a sector erased; erased, with
      nothing there that can start; an image there that can start, but is not chosen; chosen. */
  datatype End = NotStarted | Untouched | Broken | Left | Chosen

  /** What that is to the device. */
  ghost function Ended(d: Device, end: End, v: string): Device {
    var d1 := Apply(d, StartDownload);
    var d2 := Apply(d1, OtaDevice.Erased);
    var d3 := Apply(d2, OtaDevice.Written(v, true));
    match end
    case NotStarted => d
    case Untouched => Apply(d1, DownloadStops)
    case Broken => Apply(d2, DownloadStops)
    case Left => Apply(d3, DownloadStops)
    case Chosen => Apply(Apply(d3, OtaDevice.Install), InstallRecord)
  }

  lemma EndedIs(d: Device, end: End, v: string)
    requires d.at == Rest && !d.pending && d.job == Idle
    ensures var x, o := Ended(d, end, v), Other(d.running);
      && x.running == d.running && x.at == Rest && !x.pending && x.job == (if end == Chosen then Ready else Idle)
      && x.flash.good.Of(d.running) == d.flash.good.Of(d.running) && Version(x) == Version(d)
      && x.flash.good.Of(o) == (if end == NotStarted || end == Untouched then d.flash.good.Of(o) else end != Broken)
  {
  }

  /** May this release be installed over the running version? Never an older one. */
  function Fits(m: Manifest, running: string, slotSize: nat): Refusal {
    CanInstall(Offer(m.version, m.minFrom, m.chip, m.size, false), running, slotSize)
  }

  /** a is newer than b. */
  predicate IsNewer(a: string, b: string) {
    V.Parse(a).Some? && V.Parse(b).Some? && V.Compare(V.Parse(a).value, V.Parse(b).value) > 0
  }

  /** The release's versions can be read, it is for this chip, fits the slot, can update what runs
      and is newer. */
  predicate Installable(m: Manifest, running: string, slotSize: nat) {
    && m.chip == Some("esp32s3") && 0 < m.size <= slotSize && IsNewer(m.version, running)
    && V.Parse(m.minFrom).Some? && V.Compare(V.Parse(running).value, V.Parse(m.minFrom).value) >= 0
  }

  /** All the same holds, except that it is no newer than what runs. */
  predicate UpToDate(m: Manifest, running: string, slotSize: nat) {
    && m.chip == Some("esp32s3") && 0 < m.size <= slotSize
    && V.Parse(m.version).Some? && V.Parse(running).Some? && V.Compare(V.Parse(m.version).value, V.Parse(running).value) <= 0
    && V.Parse(m.minFrom).Some? && V.Compare(V.Parse(running).value, V.Parse(m.minFrom).value) >= 0
  }

  lemma FitsExactly(m: Manifest, running: string, slotSize: nat)
    ensures Fits(m, running, slotSize) == Ok <==> Installable(m, running, slotSize)
    ensures Fits(m, running, slotSize) == NotNewer <==> UpToDate(m, running, slotSize)
  {
    InstallsExactly(Offer(m.version, m.minFrom, m.chip, m.size, false), running, slotSize);
  }

  /** The update job as the board keeps it, with the device the bootloader and the record see. */
  class Updater {
    const app0: array<Byte>
    const app1: array<Byte>
    const running: Slot
    const libs: Libraries
    var available: bool
    var upToDate: bool
    var offer: Option<Manifest>
    var error: Error
    var step: JobStep
    ghost var device: Device

    function Part(s: Slot): array<Byte> { if s == App0 then app0 else app1 }

    ghost predicate TwoSlots() { app0 != app1 && app0.Length == app1.Length && app0.Length % SECTOR == 0 }

    /** Nothing is installable unless a signed manifest offered it, not empty and newer than what
        runs; the device is in the step the job is in, and knows of each slot whether what is in
        flash can start. */
    ghost predicate Valid()
      reads this, app0, app1
    {
      && TwoSlots()
      && (available ==> offer.Some? && Vouched(libs, offer.value) && offer.value.size > 0
                        && IsNewer(offer.value.version, Version(device)))
      && device.running == running && device.at == Rest && !device.pending && device.job == step
      && device.flash.good.Of(App0) == libs.starts(app0[..]) && device.flash.good.Of(App1) == libs.starts(app1[..])
    }

    constructor (app0: array<Byte>, app1: array<Byte>, libs: Libraries, d: Device)
      requires app0 != app1 && app0.Length == app1.Length && app0.Length % SECTOR == 0
      requires d.at == Rest && !d.pending && d.job == Idle
      requires d.flash.good.Of(App0) == libs.starts(app0[..]) && d.flash.good.Of(App1) == libs.starts(app1[..])
      ensures Valid() && !available && this.app0 == app0 && this.app1 == app1 && this.libs == libs && device == d
    {
      this.app0, this.app1, this.libs, running := app0, app1, libs, d.running;
      available, upToDate, offer, error, step := false, false, None, NoError, Idle;
      device := d;
    }

    /** Manifest and signature arrived, the signature holds, and it is a manifest of ours. */
    predicate Readable(manifest: Option<seq<Byte>>, signature: Option<seq<Byte>>) {
      && manifest.Some? && signature.Some? && libs.signed(manifest.value, signature.value)
      && var m := libs.read(manifest.value);
      && m.Some? && m.value.format == 1 && m.value.product == "hid-fi"
    }

    /** otaDoCheck: what was fetched, or nothing. A ready update stays switched to. */
    method Check(manifest: Option<seq<Byte>>, signature: Option<seq<Byte>>, version: string)
      requires Valid() && (step == Idle || step == Ready) && version == Version(device)
      modifies this
      ensures Valid() && step == Idle && device == Apply(old(device), OtaDevice.Check)
      ensures available <==> Readable(manifest, signature) && Installable(libs.read(manifest.value).value, version, app0.Length)
      ensures available ==> offer == libs.read(manifest.value)
      ensures error == NoConnection <==> manifest.None? || signature.None?
      ensures error == BadSignature <==>
        manifest.Some? && signature.Some? && !libs.signed(manifest.value, signature.value)
      ensures error == BadManifest <==>
        manifest.Some? && signature.Some? && libs.signed(manifest.value, signature.value) && !Readable(manifest, signature)
      ensures upToDate <==> Readable(manifest, signature) && UpToDate(libs.read(manifest.value).value, version, app0.Length)
      ensures error == NotInstallable <==> Readable(manifest, signature) && !available && !upToDate
    {
      step := Checking;
      available, upToDate, offer := false, false, None;
      step := Idle;
      device := Apply(device, OtaDevice.Check);
      if manifest.None? || signature.None? { error := NoConnection; return; }
      if !libs.signed(manifest.value, signature.value) { error := BadSignature; return; }
      var m := libs.read(manifest.value);
      if m.None? || m.value.format != 1 || m.value.product != "hid-fi" { error := BadManifest; return; }
      var r := Fits(m.value, version, app0.Length);
      FitsExactly(m.value, version, app0.Length);
      offer := m;
      assert Vouched(libs, m.value);
      available, upToDate := r == Ok, r == NotNewer;
      error := if r == Ok || r == NotNewer then NoError else NotInstallable;
    }

    /** The image named by the offer is in this slot, and its hash is the signed one. */
    ghost predicate Verified(part: array<Byte>)
      reads this, part
    {
      && available && offer.Some? && Vouched(libs, offer.value) && offer.value.sha256.Some?
      && offer.value.size <= part.Length
      && libs.sha(part[..offer.value.size]) == offer.value.sha256.value
    }

    /** The server serves the very image the offer describes, and the connections bring it. */
    ghost predicate Obtainable(net: Net)
      reads this
    {
      && available && offer.Some? && offer.value.size <= app0.Length
      && Arrives(net, offer.value.size)
      && exists image :: Serves(net, image) && offer.value.size <= |image|
                         && offer.value.sha256 == Some(libs.sha(image[..offer.value.size]))
    }

    /** Downloads into the other slot and verifies it. */
    method Fetch(net: Net, w: Fate) returns (e: Error, connections: nat, touched: bool)
      requires TwoSlots()
      requires available && offer.Some? && Vouched(libs, offer.value) && 0 < offer.value.size <= app0.Length
      modifies this`step, Part(Other(running))
      ensures connections <= MAX_ATTEMPTS && (e == NoError ==> touched && Verified(Part(Other(running))))
      ensures !touched ==> Part(Other(running))[..] == old(Part(Other(running))[..])
      ensures w.flashWorks && w.undisturbed && old(Obtainable(net)) ==> e == NoError
      ensures e != SwitchRefused
    {
      var part, total := Part(Other(running)), offer.value.size;
      var hashed;
      e, hashed, connections, touched := Download(part, total, net, w);
      if e != NoError { return; }
      step := Verifying_;
      e := VerifySlot(part, total, offer.value.sha256, hashed, libs, w);
    }

    /** otaDoInstall. The boot choice moves to the other slot only when what is in flash there
        hashes to the digest of one manifest whose signature held, and moves when nothing goes
        wrong. The running slot is never written. end says what is left in the other slot, and
        what that is to the device; a refused choice leaves a verified image. */
    method Install(net: Net, bootTakes: bool, w: Fate) returns (end: End, connections: nat)
      requires Valid() && step == Idle
      modifies this, app0, app1
      ensures Valid() && connections <= MAX_ATTEMPTS && offer == old(offer) && available == old(available)
      ensures Part(running)[..] == old(Part(running)[..])
      ensures end == Chosen ==> Verified(Part(Other(running))) && step == Ready && error == NoError
      ensures end == Chosen ==> IsNewer(offer.value.version, Version(device))
      ensures end != Chosen ==> step == Idle && error != NoError
      ensures end == NotStarted || end == Untouched ==> Part(Other(running))[..] == old(Part(Other(running))[..])
      ensures error == SwitchRefused ==> (end == Left || end == Broken) && Verified(Part(Other(running)))
      ensures device == Ended(old(device), end, if offer.Some? then offer.value.version else "")
      ensures w.flashWorks && w.undisturbed && old(Obtainable(net)) ==>
        Verified(Part(Other(running))) && (bootTakes && libs.starts(Part(Other(running))[..]) ==> end == Chosen)
    {
      connections, end := 0, NotStarted;
      if !available { error := NothingToInstall; return; }
      if offer.value.size > Part(Other(running)).Length { error := TooLarge; return; }
      step := Downloading;
      ghost var d := device;
      var touched;
      error, connections, touched := Fetch(net, w);
      end := Conclude(touched, bootTakes);
      EndedIs(d, end, offer.value.version);
      device := Ended(d, end, offer.value.version);
    }

    /** After the download: the boot choice, or what is left. */
    method Conclude(touched: bool, bootTakes: bool) returns (end: End)
      modifies this`step, this`error
      ensures end == Chosen ==> old(error) == NoError && step == Ready && error == NoError
      ensures end != Chosen ==> step == Idle && error != NoError
      ensures end != Chosen ==> error == if old(error) == NoError then SwitchRefused else old(error)
      ensures var starts := libs.starts(Part(Other(running))[..]);
        && (end == Chosen <==> old(error) == NoError && bootTakes && starts)
        && (end != Chosen ==> end == if !touched then Untouched else if starts then Left else Broken)
    {
      if error == NoError {
        step := Switching;
        if bootTakes && libs.starts(Part(Other(running))[..]) {
          step := Ready;
          return Chosen;
        }
        error := SwitchRefused;
      }
      step := Idle;
      end := if !touched then Untouched else if libs.starts(Part(Other(running))[..]) then Left else Broken;
    }
  }
}
