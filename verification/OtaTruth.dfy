/** What the board reports after a restart is true and stays so, exactly as long as no image is
    completed or chosen while the bootloader could still give up the version that runs. */
module OtaTruth {
  import opened Common
  import opened OtaLogic
  import opened OtaDevice

  /** If the other image is given up, the bootloader starts slot s: it may be chosen without a
      probation; or it is app0, where the bootloader ends when neither may be chosen. */
  predicate FallsBackTo(s: Slot, i: ImageState) { Settled(i) || (s == App0 && GivenUp(i)) }

  /** An update may be chosen: what runs is settled, or is app0. */
  predicate SafeInstall(d: Device) { Settled(d.flash.st.Of(d.running)) || d.running == App0 }

  /** The last byte of an image may be written: what runs is settled, or was not the last choice,
      or the other slot is not marked new. */
  predicate SafeWrite(d: Device) {
    d.flash.st.Of(Other(d.running)) == New && d.flash.choice == d.running ==> Settled(d.flash.st.Of(d.running))
  }

  predicate Safe(d: Device, e: Event) {
    (e.Install? ==> SafeInstall(d)) && (e.Written? && e.starts ==> SafeWrite(d))
  }

  // ---- the invariant ----

  /** With its record closed, no image waits to be started on probation. */
  ghost predicate Closed(d: Device) {
    var i, j, c := d.flash.st.Of(d.running), d.flash.st.Of(Other(d.running)), d.flash.choice == d.running;
    || (Settled(i) && (c || GivenUp(j)))
    || (GivenUp(i) && GivenUp(j))
    || (i == PendingVerify && j == New && !d.flash.good.Of(Other(d.running)) && c && d.rec.step == RolledBack)
  }

  /** Beside a version on probation: one to fall back to, or a slot that cannot start. */
  ghost predicate Beside(d: Device) {
    var o := Other(d.running);
    if d.flash.good.Of(o) then FallsBackTo(o, d.flash.st.Of(o)) else d.flash.st.Of(o) == New
  }

  ghost predicate OnProbation(d: Device) {
    var o, i := Other(d.running), d.flash.st.Of(d.running);
    && d.flash.choice == d.running && Beside(d)
    && (d.at == Marked ==> i == Proven && d.tested.Of(d.running) && Open(d.rec.step))
    && (d.at == Rest ==> Open(d.rec.step))
    && (d.at == Failing ==> d.rec.step == RolledBack)
    && (Open(d.rec.step) ==> d.rec.slot == Some(if d.flash.good.Of(o) then d.running else o))
  }

  /** A chosen version starts that the record does not know of. */
  predicate OnUnsaid(d: Device) { d.unsaid && d.at == Starting && d.flash.st.Of(d.running) == PendingVerify }

  /** Chosen, and not recorded yet. */
  ghost predicate JustChosen(d: Device) {
    FallsBackTo(d.running, d.flash.st.Of(d.running)) && (Open(d.rec.step) ==> d.rec.slot == Some(Other(d.running)))
  }

  ghost predicate JustStarted(d: Device) {
    var o, i := Other(d.running), d.flash.st.Of(d.running);
    if !Open(d.rec.step) then
      if OnUnsaid(d) then d.flash.choice == d.running && d.flash.good.Of(o) && FallsBackTo(o, d.flash.st.Of(o))
      else Closed(d) && i != PendingVerify
    else if d.rec.slot == Some(d.running) then
      && d.flash.choice == d.running && d.flash.good.Of(o) && FallsBackTo(o, d.flash.st.Of(o))
      && (i == PendingVerify || (i == Proven && d.tested.Of(d.running)))
    else
      && d.rec.slot == Some(o)
      && (if i == PendingVerify then d.flash.choice == d.running && d.flash.st.Of(o) == New && !d.flash.good.Of(o)
          else Closed(d) && (GivenUp(i) && GivenUp(d.flash.st.Of(o)) && d.flash.good.Of(o) ==> d.running == App0))
  }

  /** Installed, and not started yet; or its cancel is under way. */
  ghost predicate Waiting(d: Device) {
    var o, i := Other(d.running), d.flash.st.Of(d.running);
    && d.rec.slot == Some(o) && d.flash.st.Of(o) == New
    && (d.at == Rest || d.at == CancelErased ==>
          if d.flash.choice == d.running then i == New && !d.flash.good.Of(o) else FallsBackTo(d.running, i))
  }

  ghost predicate Inv(d: Device) {
    && Phases(d)
    && (d.job == Ready ==> Open(d.rec.step))
    && (d.rec.step == Valid ==>
          var s := if OnUnsaid(d) then Other(d.running) else d.running;
          d.rec.slot == Some(s) && d.flash.st.Of(s) == Proven && d.tested.Of(s))
    && (if d.pending then OnProbation(d)
        else if d.at == Starting then JustStarted(d)
        else if d.at == SlotChosen then JustChosen(d)
        else if Open(d.rec.step) then Waiting(d)
        else Closed(d))
  }

  /** What may happen in a careful run. */
  predicate Careful(d: Device, e: Event) { Enabled(d, e) && Safe(d, e) }

  lemma FactoryHolds(d: Device)
    requires Factory(d)
    ensures Inv(d)
  {
  }

  lemma ResetKeeps(d: Device)
    requires Inv(d)
    ensures Inv(OnReset(d))
  {
  }

  lemma BootKeeps(d: Device)
    requires Inv(d) && d.at == Starting
    ensures Inv(OnBoot(d))
  {
  }

  lemma TickKeeps(d: Device, e: Event)
    requires Inv(d) && Enabled(d, e) && (e.TickMark? || e.TickRecord? || e.TickFail? || e.TickReboot?)
    ensures Inv(Apply(d, e))
  {
  }

  lemma JobKeeps(d: Device, e: Event)
    requires Inv(d) && Careful(d, e)
    requires e.Check? || e.StartDownload? || e.Erased? || e.Written? || e.DownloadStops? || e.Install? || e.InstallRecord?
    ensures Inv(Apply(d, e))
  {
  }

  lemma CancelKeeps(d: Device, e: Event)
    requires Inv(d) && Enabled(d, e)
    requires e.CancelErase? || e.CancelChoose? || e.CancelConfirm? || e.CancelRecord?
    ensures Inv(Apply(d, e))
  {
  }

  lemma ApplyKeeps(d: Device, e: Event)
    requires Inv(d) && Careful(d, e)
    ensures Inv(Apply(d, e))
  {
    if e.Reset? { ResetKeeps(d); }
    else if e.Boot? { BootKeeps(d); }
    else if e.TickMark? || e.TickRecord? || e.TickFail? || e.TickReboot? { TickKeeps(d, e); }
    else if e.CancelErase? || e.CancelChoose? || e.CancelConfirm? || e.CancelRecord? { CancelKeeps(d, e); }
    else { JobKeeps(d, e); }
  }

  // ---- over careful runs ----

  /** Every image up to here was completed and chosen safely. */
  ghost predicate CarefulRun(evs: seq<Event>, ds: seq<Device>, n: nat) {
    IsRun(evs, ds) && n <= |evs| && forall m :: 0 <= m < n ==> Safe(ds[m], evs[m])
  }

  lemma {:induction false} RunKeepsInv(evs: seq<Event>, ds: seq<Device>, n: nat)
    requires CarefulRun(evs, ds, n)
    ensures Inv(ds[n])
  {
    if n == 0 {
      FactoryHolds(ds[0]);
    } else {
      RunKeepsInv(evs, ds, n - 1);
      assert Link(evs, ds, n - 1);
      ApplyKeeps(ds[n - 1], evs[n - 1]);
    }
  }

  /** A start that closes an open record, from what is in flash then: it reports UPDATED exactly
      when the recorded slot runs, and only for a version that passed its self-test and was
      marked valid; otherwise ROLLED_BACK. */
  ghost predicate ReportsTruly(d: Device) {
    Open(d.rec.step) && d.flash.st.Of(d.running) != PendingVerify ==>
      var d' := OnBoot(d);
      && (d'.outcome == Updated || d'.outcome == RolledBackOutcome)
      && (d'.outcome == Updated <==> d.rec.slot == Some(d.running))
      && (d'.outcome == Updated ==> d.tested.Of(d.running) && d.flash.st.Of(d.running) == Proven && d'.rec.step == Valid)
      && (d'.outcome == RolledBackOutcome ==> d'.rec.step == RolledBack)
  }

  /** The first start that is not on probation tells the truth. */
  lemma FirstReportIsTrue(evs: seq<Event>, ds: seq<Device>, n: nat)
    requires CarefulRun(evs, ds, n) && n < |evs| && evs[n] == Boot
    ensures ReportsTruly(ds[n]) && ds[n + 1] == OnBoot(ds[n])
  {
    RunKeepsInv(evs, ds, n);
    assert Link(evs, ds, n);
  }

  /** What a closed record makes every later start say. */
  function Report(step: RecordStep): Outcome { if step == Valid then Updated else RolledBackOutcome }

  /** The record is closed, and no chosen image waits for one. */
  ghost predicate Reported(d: Device) { (d.rec.step == Valid || d.rec.step == RolledBack) && !d.unsaid }

  /** The report stays the same at every later start, until something new is installed; and
      when it is UPDATED, what runs is the recorded, tested version. */
  lemma {:induction false} ReportStays(evs: seq<Event>, ds: seq<Device>, m: nat, n: nat)
    requires CarefulRun(evs, ds, n) && m <= n && Reported(ds[m])
    requires forall j :: m <= j < n ==> !evs[j].Install?
    ensures ds[n].rec == ds[m].rec && Reported(ds[n])
    ensures n > m && evs[n - 1] == Boot ==> ds[n].outcome == Report(ds[m].rec.step)
    ensures ds[m].rec.step == Valid ==> ds[m].rec.slot == Some(ds[n].running) && ds[n].tested.Of(ds[n].running)
    decreases n
  {
    RunKeepsInv(evs, ds, n);
    if n > m {
      ReportStays(evs, ds, m, n - 1);
      RunKeepsInv(evs, ds, n - 1);
      assert Link(evs, ds, n - 1);
      ClosedStays(ds[n - 1], evs[n - 1]);
    }
  }

  lemma ClosedStays(d: Device, e: Event)
    requires Inv(d) && Enabled(d, e) && !e.Install? && Reported(d)
    ensures Apply(d, e).rec == d.rec && Reported(Apply(d, e))
    ensures e == Boot ==> Apply(d, e).outcome == Report(d.rec.step)
  {
  }

  // ---- what a failed self-test does ----

  /** A failed self-test takes the board back exactly when the other version may be chosen and can
      start; then that one runs, the failed one may never be chosen again, and it is told why. Else
      the board stays with what it runs, off probation. */
  lemma FailedGoesBack(evs: seq<Event>, ds: seq<Device>, n: nat)
    requires CarefulRun(evs, ds, n) && n + 1 < |evs| && evs[n].TickFail? && evs[n + 1] == TickReboot
    ensures var d, d', o := ds[n], ds[n + 2], Other(ds[n].running);
      && d'.rec == Record(RolledBack, Version(d), Some(d.running), SelfTest(evs[n].i).1) && !d'.pending
      && if Selectable(d.flash.st.Of(o)) && d.flash.good.Of(o)
         then d'.running == o && d'.at == Starting && d'.flash.st.Of(d.running) == Invalid
         else d'.running == d.running && d'.at == Rest && d'.flash == d.flash
  {
    RunKeepsInv(evs, ds, n);
    assert Link(evs, ds, n) && Link(evs, ds, n + 1);
  }

  /** A passed one keeps it: marked first, then told and recorded, and nothing but another install
      brings it back on probation - its report stays. */
  lemma PassedIsKept(evs: seq<Event>, ds: seq<Device>, n: nat)
    requires CarefulRun(evs, ds, n) && n + 1 < |evs| && evs[n].TickMark? && evs[n].ok && evs[n + 1] == TickRecord
    ensures var d, d' := ds[n], ds[n + 2];
      && d' == d.(flash := d.flash.(st := d.flash.st.With(d.running, Proven)), tested := d.tested.With(d.running, true),
                  pending := false, outcome := Updated, rec := Record(Valid, Version(d), Some(d.running), ""))
      && Reported(d')
  {
    RunKeepsInv(evs, ds, n);
    assert Link(evs, ds, n) && Link(evs, ds, n + 1);
  }

  // ---- what UPDATED speaks of ----

  /** m is the last install before n. */
  ghost predicate LastInstall(evs: seq<Event>, m: nat, n: nat) {
    m < n <= |evs| && evs[m].Install? && forall j :: m < j < n ==> !evs[j].Install?
  }

  /** The running version was not chosen back in between. */
  ghost predicate NotChosenBack(evs: seq<Event>, m: nat, n: nat) {
    forall j :: m < j < n && j < |evs| ==> evs[j] != CancelChoose(true)
  }

  ghost predicate NothingWritten(evs: seq<Event>, m: nat, n: nat) {
    forall j :: m < j < n && j < |evs| ==> !evs[j].Written?
  }

  /** An open record, or the one a start will open, names the slot of the last install, which is
      still the one chosen unless the other was chosen back; and the image there is that one unless
      another was written. */
  ghost predicate Opened(evs: seq<Event>, ds: seq<Device>, m: nat, n: nat) {
    && n < |ds| && m < |ds| && LastInstall(evs, m, n)
    && var o := Other(ds[m].running);
    && (Open(ds[n].rec.step) ==> ds[n].rec.slot == Some(o)) && (ds[n].flash.choice == o <==> NotChosenBack(evs, m, n))
    && (ds[n].unsaid ==> NotChosenBack(evs, m, n))
    && (NothingWritten(evs, m, n) ==> ds[n].flash.version.Of(o) == ds[m].flash.version.Of(o))
  }

  ghost predicate Speaks(d: Device) { Open(d.rec.step) || d.unsaid }

  lemma {:induction false} OpenIsInstalled(evs: seq<Event>, ds: seq<Device>, n: nat)
    requires CarefulRun(evs, ds, n) && Speaks(ds[n])
    ensures exists m: nat :: Opened(evs, ds, m, n)
  {
    if n > 0 {
      RunKeepsInv(evs, ds, n - 1);
      assert Link(evs, ds, n - 1);
      if evs[n - 1].Install? {
        assert Opened(evs, ds, n - 1, n);
      } else {
        OpenStays(ds[n - 1], evs[n - 1], ds[n]);
        OpenIsInstalled(evs, ds, n - 1);
        var m: nat :| Opened(evs, ds, m, n - 1);
        OpenedStays(evs, ds, m, n - 1);
      }
    }
  }

  /** One event on, what is open is what was, or what a start found chosen. */
  ghost predicate SpeaksOn(d: Device, e: Event, d': Device) {
    && Speaks(d) && (d'.unsaid ==> d.unsaid) && (d.unsaid ==> !e.CancelChoose?)
    && (Open(d'.rec.step) ==> d'.rec.slot == if Open(d.rec.step) then d.rec.slot else Some(d.flash.choice))
    && (!e.Written? ==> d'.flash.version == d.flash.version)
    && (if e == CancelChoose(true) then Some(Other(d'.flash.choice)) == d.rec.slot else d'.flash.choice == d.flash.choice)
  }

  lemma OpenStays(d: Device, e: Event, d': Device)
    requires Inv(d) && Enabled(d, e) && d' == Apply(d, e) && !e.Install? && Speaks(d')
    ensures SpeaksOn(d, e, d')
  {
  }

  lemma OpenedStays(evs: seq<Event>, ds: seq<Device>, m: nat, n: nat)
    requires Opened(evs, ds, m, n) && n < |evs| && n + 1 < |ds| && !evs[n].Install? && SpeaksOn(ds[n], evs[n], ds[n + 1])
    ensures Opened(evs, ds, m, n + 1)
  {
    if evs[n] == CancelChoose(true) {
      assert !NotChosenBack(evs, m, n + 1);
    } else {
      assert NotChosenBack(evs, m, n + 1) == NotChosenBack(evs, m, n);
    }
    if NothingWritten(evs, m, n + 1) { assert !evs[n].Written?; }
  }

  /** UPDATED is said when a record is closed, by a start or after the self-test. */
  ghost predicate SaysUpdated(d: Device, e: Event) {
    Enabled(d, e) && Open(d.rec.step) && Apply(d, e).rec.step == Valid
  }

  /** UPDATED speaks of the slot the last install chose if and only if the running version was not
      chosen back since; and then, if nothing was written since, of the image installed. */
  lemma UpdatedIsInstalled(evs: seq<Event>, ds: seq<Device>, n: nat)
    requires CarefulRun(evs, ds, n) && n < |evs| && SaysUpdated(ds[n], evs[n])
    ensures evs[n] == Boot || evs[n] == TickRecord
    ensures exists m: nat :: LastInstall(evs, m, n) && SpeaksOf(evs, ds, m, n)
  {
    RunKeepsInv(evs, ds, n);
    OpenIsInstalled(evs, ds, n);
    var m: nat :| Opened(evs, ds, m, n);
    assert SpeaksOf(evs, ds, m, n);
  }

  ghost predicate SpeaksOf(evs: seq<Event>, ds: seq<Device>, m: nat, n: nat)
    requires n < |ds| && m < |ds|
  {
    && (ds[n].running == Other(ds[m].running) <==> NotChosenBack(evs, m, n))
    && (NotChosenBack(evs, m, n) && NothingWritten(evs, m, n) ==>
          Version(ds[n]) == ds[m].flash.version.Of(Other(ds[m].running)))
  }

  // ---- the conditions are exact ----

  /** A start that reports falsely, or opens a closed record again. */
  ghost predicate Lies(d: Device) {
    d.at == Starting && (!ReportsTruly(d) || (Reported(d) && d.flash.st.Of(d.running) == PendingVerify))
  }

  /** The events from d on are all safe. */
  ghost predicate AllSafe(d: Device, evs: seq<Event>)
    decreases |evs|
  {
    evs == [] || (Safe(d, evs[0]) && AllSafe(Apply(d, evs[0]), evs[1..]))
  }

  ghost predicate StaysTruthful(d: Device) {
    forall evs: seq<Event> :: Possible(d, evs) && AllSafe(d, evs) ==> !Lies(After(d, evs))
  }

  lemma {:induction false} CarefulKeeps(d: Device, evs: seq<Event>)
    requires Inv(d) && Possible(d, evs) && AllSafe(d, evs)
    ensures Inv(After(d, evs))
    decreases |evs|
  {
    if evs != [] {
      ApplyKeeps(d, evs[0]);
      CarefulKeeps(Apply(d, evs[0]), evs[1..]);
    }
  }

  const FAILS := SelfTestIn(NET_DEADLINE_MS, false, false, false, false)

  /** What makes a board lie after an unsafe event: resets, and for a version on app0 that was
      chosen back, a self-test that fails. */
  function Doom(d: Device, e: Event): seq<Event> {
    if e.Install? then [InstallRecord, Reset, Reset]
    else if d.flash.st.Of(d.running) != New then [Reset]
    else if d.running == App0 then [Reset, Boot, TickFail(FAILS), Reset]
    else [Reset, Reset, Reset]
  }

  lemma {:induction false} ResetsAreSafe(d: Device, evs: seq<Event>)
    requires forall j :: 0 <= j < |evs| ==> !evs[j].Install? && !evs[j].Written?
    ensures AllSafe(d, evs)
    decreases |evs|
  {
    if evs != [] { ResetsAreSafe(Apply(d, evs[0]), evs[1..]); }
  }

  lemma UnsafeLies(d: Device, e: Event)
    requires Inv(d) && Enabled(d, e) && !Safe(d, e)
    ensures var d1 := Apply(d, e); Possible(d1, Doom(d, e)) && AllSafe(d1, Doom(d, e)) && Lies(After(d1, Doom(d, e)))
  {
    var d1 := Apply(d, e);
    ResetsAreSafe(d1, Doom(d, e));
    if e.Install? { DoomedInstall(d, d1); }
    else if d.flash.st.Of(d.running) != New { DoomedOnProbation(d, e, d1); }
    else if d.running == App0 { DoomedApp0(d, e, d1); }
    else { DoomedApp1(d, e, d1); }
  }

  lemma DoomedInstall(d: Device, d1: Device)
    requires Inv(d) && Enabled(d, Install) && !SafeInstall(d) && d1 == Apply(d, Install)
    ensures Possible(d1, [InstallRecord, Reset, Reset]) && Lies(After(d1, [InstallRecord, Reset, Reset]))
  {
    var c := Apply(d1, InstallRecord);
    var r := Apply(c, Reset);
    assert Lies(Apply(r, Reset));
    Three([InstallRecord, Reset, Reset], d1, c, r, Apply(r, Reset));
  }

  lemma Three(s: seq<Event>, a: Device, b: Device, c: Device, f: Device)
    requires |s| == 3 && Steps(a, s[0], b) && Steps(b, s[1], c) && Steps(c, s[2], f)
    ensures Possible(a, s) && After(a, s) == f
  {
    Chain(s, [a, b, c, f]);
  }

  lemma DoomedOnProbation(d: Device, e: Event, d1: Device)
    requires Inv(d) && Enabled(d, e) && e.Written? && e.starts && !SafeWrite(d) && d1 == Apply(d, e)
    requires d.flash.st.Of(d.running) != New
    ensures Possible(d1, [Reset]) && Lies(After(d1, [Reset]))
  {
    assert Lies(Apply(d1, Reset));
    assert [Reset] + [] == [Reset];
    Head(d1, Reset, []);
  }

  lemma DoomedApp1(d: Device, e: Event, d1: Device)
    requires Inv(d) && Enabled(d, e) && e.Written? && e.starts && !SafeWrite(d) && d1 == Apply(d, e)
    requires d.flash.st.Of(d.running) == New && d.running == App1
    ensures Possible(d1, [Reset, Reset, Reset]) && Lies(After(d1, [Reset, Reset, Reset]))
  {
    var a := Apply(d1, Reset);
    var b := Apply(a, Reset);
    assert Lies(Apply(b, Reset));
    Three([Reset, Reset, Reset], d1, a, b, Apply(b, Reset));
  }

  lemma DoomedApp0(d: Device, e: Event, d1: Device)
    requires Inv(d) && Enabled(d, e) && e.Written? && e.starts && !SafeWrite(d) && d1 == Apply(d, e)
    requires d.flash.st.Of(d.running) == New && d.running == App0
    ensures var doom := [Reset, Boot, TickFail(FAILS), Reset]; Possible(d1, doom) && Lies(After(d1, doom))
  {
    assert SelfTest(FAILS).0 == Fail;
    var a := Apply(d1, Reset);
    var b := Apply(a, Boot);
    var f := Apply(b, TickFail(FAILS));
    var g := Apply(f, Reset);
    assert Lies(g);
    Chain([Reset, Boot, TickFail(FAILS), Reset], [d1, a, b, f, g]);
  }

  /** Exactly the safe events keep the board truthful: completing or choosing an image is safe if
      and only if no careful run from there on ever lies. */
  lemma SafeIsExact(d: Device, e: Event)
    requires Inv(d) && Enabled(d, e) && (e.Install? || (e.Written? && e.starts))
    ensures Safe(d, e) <==> StaysTruthful(Apply(d, e))
  {
    var d1 := Apply(d, e);
    if Safe(d, e) {
      forall evs | Possible(d1, evs) && AllSafe(d1, evs) ensures !Lies(After(d1, evs)) {
        ApplyKeeps(d, e);
        CarefulKeeps(d1, evs);
      }
    } else {
      UnsafeLies(d, e);
      assert Possible(d1, Doom(d, e)) && AllSafe(d1, Doom(d, e));
    }
  }

  // ---- where the conditions come from ----

  /** An update is cancelled up to the choice of the running version, whose confirmation fails;
      and another download starts. */
  function Botched(v: string): seq<Event> {
    [CancelErase(true), CancelChoose(true), CancelConfirm(false), Check, StartDownload, Erased, Written(v, true)]
  }

  lemma BotchedIsUnsafe(x: Device, v: string) returns (y: Device, z: Device)
    requires Inv(x) && x.at == Rest && x.job == Ready
    ensures Possible(x, Botched(v)) && z == After(x, Botched(v)) && z == Apply(y, Written(v, true))
    ensures Inv(y) && Enabled(y, Written(v, true)) && !SafeWrite(y)
  {
    var a, b, c := CancelFails(x);
    var f, g;
    f, g, y := FetchesAgain(c);
    z := Apply(y, Written(v, true));
    Seven(Botched(v), x, a, b, c, f, g, y, z);
  }

  lemma CancelFails(x: Device) returns (a: Device, b: Device, c: Device)
    requires Inv(x) && x.at == Rest && x.job == Ready
    ensures Steps(x, CancelErase(true), a) && Steps(a, CancelChoose(true), b) && Steps(b, CancelConfirm(false), c)
    ensures Inv(c) && c.at == Rest && c.job == Ready && c.flash.choice == c.running
  {
    a := Apply(x, CancelErase(true));
    b := Apply(a, CancelChoose(true));
    c := Apply(b, CancelConfirm(false));
    CancelKeeps(x, CancelErase(true));
    CancelKeeps(a, CancelChoose(true));
    CancelKeeps(b, CancelConfirm(false));
  }

  lemma FetchesAgain(c: Device) returns (f: Device, g: Device, y: Device)
    requires Inv(c) && c.at == Rest && c.job == Ready && c.flash.choice == c.running
    ensures Steps(c, Check, f) && Steps(f, StartDownload, g) && Steps(g, Erased, y)
    ensures Inv(y) && y.job == Downloading && y.at == Rest && !SafeWrite(y) && !y.flash.good.Of(Other(y.running))
  {
    f := Apply(c, Check);
    g := Apply(f, StartDownload);
    y := Apply(g, Erased);
    JobKeeps(c, Check);
    JobKeeps(f, StartDownload);
    JobKeeps(g, Erased);
  }

  /** Every board can be made to lie with a single install: its cancel fails at the last write,
      another download is stopped after its last byte, and resets come at the wrong moments. */
  lemma LiesFromFactory(d: Device, v: string)
    requires Factory(d)
    ensures exists evs, ds :: IsRun(evs, ds) && ds[0] == d && Lies(ds[|evs|]) && OneSafeInstall(evs, ds)
  {
    var x := FactoryReady(d, v);
    var rest := BotchedLies(x, v);
    InTwo(d, Installing(v), rest);
    OnlyThird(d, Installing(v), rest);
    RunExists(d, Installing(v) + rest);
  }

  lemma BotchedLies(x: Device, v: string) returns (rest: seq<Event>)
    requires Inv(x) && x.at == Rest && x.job == Ready
    ensures Possible(x, rest) && Lies(After(x, rest)) && forall j :: 0 <= j < |rest| ==> !rest[j].Install?
  {
    var y, z := BotchedIsUnsafe(x, v);
    UnsafeLies(y, Written(v, true));
    var doom := Doom(y, Written(v, true));
    InTwo(x, Botched(v), doom);
    rest := Botched(v) + doom;
  }

  /** One update is chosen, beside a settled version. */
  ghost predicate OneSafeInstall(evs: seq<Event>, ds: seq<Device>) {
    |ds| == |evs| + 1 > 4 && SafeInstall(ds[3]) && forall j :: 0 <= j < |evs| && evs[j].Install? ==> j == 3
  }

  lemma OnlyThird(d: Device, a: seq<Event>, b: seq<Event>)
    requires Factory(d) && |a| == 5 && a[0] == StartDownload && a[1] == Erased && a[2].Written? && a[3] == Install && a[4] == InstallRecord
    requires forall j :: 0 <= j < |b| ==> !b[j].Install?
    ensures forall ds :: IsRun(a + b, ds) && ds[0] == d ==> OneSafeInstall(a + b, ds)
  {
    forall ds | IsRun(a + b, ds) && ds[0] == d ensures OneSafeInstall(a + b, ds) {
      assert Link(a + b, ds, 0) && Link(a + b, ds, 1) && Link(a + b, ds, 2);
      assert (a + b)[0] == a[0] && (a + b)[1] == a[1] && (a + b)[2] == a[2];
    }
  }

  lemma FactoryReady(d: Device, v: string) returns (x: Device)
    requires Factory(d)
    ensures Possible(d, Installing(v)) && x == After(d, Installing(v)) && Inv(x) && x.at == Rest && x.job == Ready
    ensures x.running == d.running && x.flash.version.Of(d.running) == d.flash.version.Of(d.running)
  {
    FactoryHolds(d);
    x := FactoryInstalls(d, v);
  }

  /** What runs is settled, or on its first probation with a settled version beside it. */
  ghost predicate Solid(d: Device) {
    var o := Other(d.running);
    || d.at == CancelChosen || Settled(d.flash.st.Of(d.running))
    || ((d.at == Starting || d.pending) && d.flash.st.Of(d.running) == PendingVerify
        && d.flash.good.Of(o) && Settled(d.flash.st.Of(o)))
  }

  lemma FactoryIsSolid(d: Device)
    requires Factory(d)
    ensures Solid(d) && Inv(d)
  {
  }

  lemma SolidStep(d: Device, e: Event)
    requires Inv(d) && Enabled(d, e) && Solid(d) && (d.at == CancelChosen ==> e == CancelConfirm(true))
    ensures Solid(Apply(d, e)) && Inv(Apply(d, e)) && Safe(d, e)
  {
    ApplyKeeps(d, e);
  }

  /** Both conditions can only fail after a cancel that was cut off, or refused, between choosing
      the running version and confirming it: if every such choice is confirmed at once, all runs
      are careful. */
  lemma {:induction false} ConfirmedIsCareful(evs: seq<Event>, ds: seq<Device>, n: nat)
    requires IsRun(evs, ds) && n <= |evs|
    requires forall j :: 0 <= j < n && ds[j].at == CancelChosen ==> evs[j] == CancelConfirm(true)
    ensures Solid(ds[n]) && Inv(ds[n]) && CarefulRun(evs, ds, n)
  {
    if n == 0 {
      FactoryIsSolid(ds[0]);
    } else {
      ConfirmedIsCareful(evs, ds, n - 1);
      assert Link(evs, ds, n - 1);
      SolidStep(ds[n - 1], evs[n - 1]);
    }
  }

  /** UPDATED for the version that always ran: a cancel cut off before its confirmation leaves it
      on probation, and its self-test closes the record of the cancelled update. */
  lemma UpdatedForTheOld(d: Device, v: string, i: SelfTestIn)
    requires Factory(d) && SelfTest(i).0 == Pass
    ensures var evs := Installing(v) + CutOff(i);
      && Possible(d, evs)
      && var x := After(d, evs);
      SaysUpdated(x, TickRecord) && x.running == d.running && Version(x) == Version(d)
  {
    var x := FactoryReady(d, v);
    ProbationAgain(x, i);
    InTwo(d, Installing(v), CutOff(i));
  }

  function CutOff(i: SelfTestIn): seq<Event> {
    [CancelErase(true), CancelChoose(true)] + [Reset, Boot, TickMark(i, true)]
  }

  lemma ProbationAgain(x: Device, i: SelfTestIn)
    requires Inv(x) && x.at == Rest && x.job == Ready && SelfTest(i).0 == Pass
    ensures Possible(x, CutOff(i))
    ensures var y := After(x, CutOff(i));
      SaysUpdated(y, TickRecord) && y.running == x.running && Version(y) == Version(x)
  {
    var a, b := CutShort(x);
    var c, e, f := PassesAgain(b, i);
    Five(CutOff(i), x, a, b, c, e, f);
  }

  lemma CutShort(x: Device) returns (a: Device, b: Device)
    requires Inv(x) && x.at == Rest && x.job == Ready
    ensures Steps(x, CancelErase(true), a) && Steps(a, CancelChoose(true), b) && Inv(b)
    ensures b.at == CancelChosen && Open(b.rec.step) && b.running == x.running
    ensures b.flash.version == x.flash.version
  {
    a := Apply(x, CancelErase(true));
    b := Apply(a, CancelChoose(true));
    CancelKeeps(x, CancelErase(true));
    CancelKeeps(a, CancelChoose(true));
  }

  lemma PassesAgain(b: Device, i: SelfTestIn) returns (c: Device, e: Device, f: Device)
    requires Inv(b) && b.at == CancelChosen && SelfTest(i).0 == Pass && Open(b.rec.step)
    ensures Steps(b, Reset, c) && Steps(c, Boot, e) && Steps(e, TickMark(i, true), f)
    ensures SaysUpdated(f, TickRecord) && f.running == b.running && f.flash.version == b.flash.version
  {
    c := Apply(b, Reset);
    e := Apply(c, Boot);
    f := Apply(e, TickMark(i, true));
  }
}
