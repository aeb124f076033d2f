/** What runs after any restart: two slots, the bootloader's rollback states, the record in
    flash, and every flash write of an update as its own step, so that power may fail
    between any two. */
module OtaDevice {
  import opened Common
  import opened OtaLogic

  datatype Both<T> = Both(app0: T, app1: T) {
    function Of(s: Slot): T { if s == App0 then app0 else app1 }

    function With(s: Slot, x: T): (r: Both<T>)
      ensures r.Of(s) == x && r.Of(Other(s)) == Of(Other(s))
    {
      if s == App0 then Both(x, app1) else Both(app0, x)
    }
  }

  datatype ImageState = Undefined | New | PendingVerify | Proven | Invalid | Aborted

  /** choice: the slot chosen last; good: the slot holds an image that can start, whatever its
      state. A choice of a slot takes the place of the earlier choice of that slot. */
  datatype Flash = Flash(choice: Slot, st: Both<ImageState>, good: Both<bool>, version: Both<string>)

  predicate Selectable(i: ImageState) { i != Invalid && i != Aborted }

  predicate Settled(i: ImageState) { i == Undefined || i == Proven }

  function Active(f: Flash): Slot {
    if Selectable(f.st.Of(f.choice)) then f.choice
    else if Selectable(f.st.Of(Other(f.choice))) then Other(f.choice)
    else App0
  }

  function GiveUp(i: ImageState): ImageState { if i == PendingVerify then Aborted else i }

  /** A reset: an image still on probation is given up; the chosen one starts, on probation
      when it is new; an image that cannot start leaves the other one to run. */
  function Bootloader(f: Flash): (Flash, Slot) {
    var f1 := f.(st := Both(GiveUp(f.st.app0), GiveUp(f.st.app1)));
    var s := Active(f1);
    var f2 := if f1.st.Of(s) == New then f1.(st := f1.st.With(s, PendingVerify)) else f1;
    (f2, if f2.good.Of(s) then s else Other(s))
  }

  /** Where the firmware stands between two flash writes. */
  datatype Point = Starting | Rest | Marked | Failing | SlotChosen | CancelErased | CancelChosen | CancelConfirmed

  /** tested: the image in the slot has passed its self-test since it was written. unsaid: an
      update was chosen, and neither the record nor a start has taken note of it. */
  datatype Device = Device(flash: Flash, rec: Record, running: Slot, pending: bool, outcome: Outcome,
                           job: JobStep, at: Point, tested: Both<bool>, unsaid: bool)

  datatype Event =
    | Reset
    | Boot
    | TickMark(i: SelfTestIn, ok: bool)
    | TickRecord
    | TickFail(i: SelfTestIn)
    | TickReboot
    | Check
    | StartDownload
    | Erased                                      // the first sector, before anything is written
    | Written(version: string, starts: bool)      // the last byte
    | DownloadStops
    | Install                                     // the boot choice
    | InstallRecord
    | CancelErase(ok: bool)
    | CancelChoose(ok: bool)
    | CancelConfirm(ok: bool)
    | CancelRecord

  function OnReset(d: Device): Device {
    var (f, s) := Bootloader(d.flash);
    d.(flash := f, running := s, pending := false, outcome := NoUpdate, job := Idle, at := Starting)
  }

  function Version(d: Device): string { d.flash.version.Of(d.running) }

  /** otaBoot: read the record, say what happened, and close or open the record. */
  function OnBoot(d: Device): Device {
    var pending := d.flash.st.Of(d.running) == PendingVerify;
    var aborted := !Selectable(d.flash.st.app0) || !Selectable(d.flash.st.app1);
    var out := OutcomeOf(d.rec, Version(d), Some(d.running), pending, aborted);
    var rec :=
      if pending && !Open(d.rec.step) then Record(Pending, Version(d), Some(d.running), "")
      else if pending then d.rec.(step := Pending)
      else if out == Updated && Open(d.rec.step) then d.rec.(step := Valid, why := "")
      else if out == RolledBackOutcome && d.rec.step != RolledBack then
        d.rec.(step := RolledBack, why := if d.rec.why == "" then "did_not_start" else d.rec.why)
      else d.rec;
    d.(pending := pending, outcome := out, rec := rec, at := Rest, unsaid := false)
  }

  function MarkActive(d: Device): Device {
    d.(flash := d.flash.(st := d.flash.st.With(Active(d.flash), Proven)))
  }

  /** Going back needs another image that may be chosen and can start, beside the chosen one. */
  predicate RollbackPossible(f: Flash) {
    var a := Active(f);
    Selectable(f.st.Of(a)) && Selectable(f.st.Of(Other(a))) && f.good.Of(Other(a))
  }

  function InvalidActive(f: Flash): Flash { f.(st := f.st.With(Active(f), Invalid)) }

  predicate Enabled(d: Device, e: Event) {
    match e
    case Reset => true
    case Boot => d.at == Starting
    case TickMark(i, _) => d.at == Rest && d.pending && SelfTest(i).0 == Pass
    case TickRecord => d.at == Marked
    case TickFail(i) => d.at == Rest && d.pending && SelfTest(i).0 == Fail
    case TickReboot => d.at == Failing
    case Check => d.at == Rest && !d.pending && (d.job == Idle || d.job == Ready)
    case StartDownload => d.at == Rest && !d.pending && d.job == Idle
    case Erased => d.at == Rest && d.job == Downloading
    case Written(_, _) => d.at == Rest && d.job == Downloading && !d.flash.good.Of(Other(d.running))
    case DownloadStops => d.at == Rest && (d.job == Downloading || d.job == Verifying_)
    case Install => d.at == Rest && d.job == Verifying_ && d.flash.good.Of(Other(d.running))
    case InstallRecord => d.at == SlotChosen
    case CancelErase(_) => d.at == Rest && CancelAction(d.job) == SwitchBack
    case CancelChoose(_) => d.at == CancelErased
    case CancelConfirm(_) => d.at == CancelChosen
    case CancelRecord => d.at == CancelConfirmed
  }

  function Apply(d: Device, e: Event): Device {
    var o := Other(d.running);
    match e
    case Reset => OnReset(d)
    case Boot => OnBoot(d)
    case TickMark(_, ok) =>
      if !ok then d
      else MarkActive(d).(at := Marked, tested := d.tested.With(d.running, true))
    case TickRecord =>
      d.(pending := false, outcome := Updated, rec := Record(Valid, Version(d), Some(d.running), ""), at := Rest)
    case TickFail(i) => d.(rec := Record(RolledBack, Version(d), Some(d.running), SelfTest(i).1), at := Failing)
    case TickReboot =>
      if RollbackPossible(d.flash) then OnReset(d.(flash := InvalidActive(d.flash)))
      else d.(pending := false, at := Rest)
    case Check => d.(job := Idle)
    case StartDownload => d.(job := Downloading)
    case Erased => d.(flash := d.flash.(good := d.flash.good.With(o, false)), tested := d.tested.With(o, false))
    case Written(v, starts) =>
      d.(flash := d.flash.(good := d.flash.good.With(o, starts), version := d.flash.version.With(o, "hid_fi_v" + v)),
         tested := d.tested.With(o, false), job := Verifying_)
    case DownloadStops => d.(job := Idle)
    case Install =>
      d.(flash := d.flash.(choice := o, st := d.flash.st.With(o, New)), job := Switching, at := SlotChosen, unsaid := true)
    case InstallRecord =>
      d.(rec := Record(Switched, d.flash.version.Of(o), Some(o), ""), job := Ready, at := Rest, unsaid := false)
    case CancelErase(ok) =>
      if ok then d.(flash := d.flash.(good := d.flash.good.With(o, false)), tested := d.tested.With(o, false), at := CancelErased)
      else d
    case CancelChoose(ok) =>
      if ok then d.(flash := d.flash.(choice := d.running, st := d.flash.st.With(d.running, New)), at := CancelChosen)
      else d.(at := Rest)
    case CancelConfirm(ok) => if ok then MarkActive(d).(at := CancelConfirmed) else d.(at := Rest)
    case CancelRecord => d.(rec := Record(Nothing, "", None, ""), job := Idle, at := Rest)
  }

  // ---- what may be asked of it ----

  datatype Act = ActCheck | ActInstall | ActApply

  /** The word an act is refused with, if any. */
  function RefusalOf(d: Device, act: Act, available: bool): Option<string> {
    match act
    case ActCheck =>
      if d.pending then Some("verifying") else if d.job != Idle && d.job != Ready then Some("busy") else None
    case ActInstall =>
      if d.pending then Some("verifying") else if d.job != Idle then Some("busy")
      else if !available then Some("nothing_to_install") else None
    case ActApply => if d.job != Ready then Some("not_ready") else None
  }

  /** Between flash writes a check or a download begins exactly when its act is not refused; on
      probation both are; and only a ready update can be applied. */
  lemma ActsAreEnabled(d: Device, available: bool)
    requires d.at == Rest
    ensures RefusalOf(d, ActCheck, available) == None <==> Enabled(d, Check)
    ensures RefusalOf(d, ActInstall, available) == None <==> available && Enabled(d, StartDownload)
    ensures d.pending ==> RefusalOf(d, ActCheck, available).Some? && RefusalOf(d, ActInstall, available).Some?
    ensures RefusalOf(d, ActApply, available) == None <==> d.job == Ready
  {
  }

  // ---- what holds in every run ----

  /** The firmware's place among the flash writes fits what is in flash. */
  ghost predicate Phases(d: Device) {
    var o, at := Other(d.running), d.at;
    && d.flash.good.Of(d.running)
    && (at == CancelErased || at == CancelChosen || at == CancelConfirmed ==> d.job == Ready && !d.flash.good.Of(o))
    && (at == SlotChosen <==> d.job == Switching)
    && (at == SlotChosen ==> d.flash.choice == o && d.flash.st.Of(o) == New && d.flash.good.Of(o) && d.unsaid)
    && (d.unsaid ==> at == SlotChosen || at == Starting)
    && (at == CancelChosen ==> d.flash.choice == d.running && d.flash.st.Of(d.running) == New)
    && (at == CancelConfirmed ==> d.flash.choice == d.running && d.flash.st.Of(d.running) == Proven)
    && (d.job != Idle ==> !d.pending)
    && (d.pending ==> at == Rest || at == Marked || at == Failing)
    && (d.pending && at != Marked ==> d.flash.st.Of(d.running) == PendingVerify)
    && (d.job == Verifying_ ==> !d.tested.Of(o))
    && (d.job == Ready ==> d.flash.st.Of(o) == New)
    && (at == Marked || at == Failing ==> d.pending)
    && (at == Starting ==> !d.pending && d.job == Idle)
  }

  /** A board as it leaves the factory: one proven version running, nothing recorded. */
  ghost predicate Factory(d: Device) {
    && d.at == Rest && d.job == Idle && !d.pending && d.rec.step == Nothing && !d.unsaid
    && d.flash.good.Of(d.running) && d.tested.Of(d.running) && Settled(d.flash.st.Of(d.running))
    && d.flash.choice == d.running
    && (d.flash.good.Of(Other(d.running)) ==> d.tested.Of(Other(d.running)) && Settled(d.flash.st.Of(Other(d.running))))
  }

  lemma PhasesKept(d: Device, e: Event)
    requires Phases(d) && Enabled(d, e)
    ensures Phases(Apply(d, e))
  {
  }

  ghost predicate IsRun(evs: seq<Event>, ds: seq<Device>) {
    && |ds| == |evs| + 1 && Factory(ds[0])
    && forall m :: 0 <= m < |evs| ==> Link(evs, ds, m)
  }

  ghost predicate Link(evs: seq<Event>, ds: seq<Device>, m: nat) {
    m < |evs| && m + 1 < |ds| && Enabled(ds[m], evs[m]) && ds[m + 1] == Apply(ds[m], evs[m])
  }

  lemma {:induction false} RunKeepsPhases(evs: seq<Event>, ds: seq<Device>, n: nat)
    requires IsRun(evs, ds) && n <= |evs|
    ensures Phases(ds[n])
  {
    if n > 0 {
      RunKeepsPhases(evs, ds, n - 1);
      assert Link(evs, ds, n - 1);
      PhasesKept(ds[n - 1], evs[n - 1]);
    }
  }

  /** A tested image passed its self-test while it ran, and was not written since - or it
      came proven from the factory (m == -1). */
  lemma {:induction false} TestedMeansPassed(evs: seq<Event>, ds: seq<Device>, n: nat, s: Slot) returns (m: int)
    requires IsRun(evs, ds) && n <= |evs| && ds[n].tested.Of(s)
    ensures -1 <= m < n
    ensures m == -1 ==> ds[0].tested.Of(s)
    ensures m >= 0 ==> evs[m].TickMark? && evs[m].ok && SelfTest(evs[m].i).0 == Pass && ds[m].running == s
    ensures forall j :: m < j < n && (evs[j].Erased? || evs[j].Written? || evs[j] == CancelErase(true)) ==> ds[j].running == s
  {
    if n == 0 {
      m := -1;
    } else {
      assert Link(evs, ds, n - 1);
      var d, e := ds[n - 1], evs[n - 1];
      if e.TickMark? && e.ok && d.running == s {
        m := n - 1;
      } else {
        m := TestedMeansPassed(evs, ds, n - 1, s);
      }
    }
  }

  // ---- an image that was never installed, or is cancelled ----

  predicate GivenUp(i: ImageState) { i == PendingVerify || i == Invalid || i == Aborted }

  /** The other slot's image is out of reach of the bootloader, as long as nothing is installed:
      what runs may be chosen, and was or the other was given up; or it is app0, where the
      bootloader ends when neither may be chosen. */
  predicate Hidden(d: Device) {
    var i, j := d.flash.st.Of(d.running), d.flash.st.Of(Other(d.running));
    (Settled(i) && (d.flash.choice == d.running || GivenUp(j))) || (d.running == App0 && GivenUp(j))
  }

  /** Hidden, with nothing under way that would bring it back. */
  ghost predicate StaysHidden(d: Device) {
    && Phases(d) && Hidden(d) && d.job != Ready && d.job != Switching
    && (d.pending || d.at == Starting ==> d.flash.st.Of(Other(d.running)) != PendingVerify)
  }

  lemma HiddenStays(d: Device, e: Event)
    requires StaysHidden(d) && Enabled(d, e) && !e.Install?
    ensures StaysHidden(Apply(d, e)) && Apply(d, e).running == d.running
  {
  }

  /** The running version is the only one that can start. */
  lemma StaysOnGood(d: Device, e: Event)
    requires Phases(d) && Enabled(d, e) && !d.flash.good.Of(Other(d.running)) && !(e.Written? && e.starts)
    ensures Apply(d, e).running == d.running && !Apply(d, e).flash.good.Of(Other(d.running))
  {
  }

  /** Cancelling a ready update is final: from the erase on, through any resets and power cuts,
      the other slot never runs until something is installed - or a download that is stopped
      wrote a whole image there while it was not hidden. */
  lemma {:induction false} CancelledNeverRuns(evs: seq<Event>, ds: seq<Device>, m: nat, n: nat)
    requires IsRun(evs, ds) && m < n <= |evs| && evs[m] == CancelErase(true)
    requires forall j :: m < j < n ==> !evs[j].Install?
    requires forall j :: m < j < n && evs[j].Written? && evs[j].starts ==> Hidden(ds[j])
    ensures ds[n].running == ds[m].running
    ensures !ds[n].flash.good.Of(Other(ds[n].running)) || StaysHidden(ds[n])
  {
    RunKeepsPhases(evs, ds, n - 1);
    RunKeepsPhases(evs, ds, n);
    assert Link(evs, ds, n - 1);
    if n - 1 > m {
      CancelledNeverRuns(evs, ds, m, n - 1);
      CancelledStep(ds[n - 1], evs[n - 1]);
    }
  }

  lemma CancelledStep(d: Device, e: Event)
    requires Phases(d) && Enabled(d, e) && !e.Install? && (e.Written? && e.starts ==> Hidden(d))
    requires !d.flash.good.Of(Other(d.running)) || StaysHidden(d)
    ensures var d' := Apply(d, e);
      d'.running == d.running && (!d'.flash.good.Of(Other(d.running)) || StaysHidden(d'))
  {
    PhasesKept(d, e);
    if StaysHidden(d) { HiddenStays(d, e); } else if !(e.Written? && e.starts) { StaysOnGood(d, e); }
  }

  // ---- the condition is exact ----

  /** The events can happen from d on, one after the other. */
  ghost predicate Possible(d: Device, evs: seq<Event>)
    decreases |evs|
  {
    evs == [] || (Enabled(d, evs[0]) && Possible(Apply(d, evs[0]), evs[1..]))
  }

  ghost function After(d: Device, evs: seq<Event>): Device
    decreases |evs|
  {
    if evs == [] then d else After(Apply(d, evs[0]), evs[1..])
  }

  ghost predicate NoInstall(evs: seq<Event>) { forall j :: 0 <= j < |evs| ==> !evs[j].Install? }

  /** Whatever happens short of an install, the running version stays. */
  ghost predicate KeepsRunning(d: Device) {
    forall evs: seq<Event> :: Possible(d, evs) && NoInstall(evs) ==> After(d, evs).running == d.running
  }

  lemma {:induction false} HiddenKeepsRunning(d: Device, evs: seq<Event>)
    requires StaysHidden(d) && Possible(d, evs) && NoInstall(evs)
    ensures After(d, evs).running == d.running
    decreases |evs|
  {
    if evs != [] {
      HiddenStays(d, evs[0]);
      HiddenKeepsRunning(Apply(d, evs[0]), evs[1..]);
    }
  }

  lemma Head(d: Device, e: Event, rest: seq<Event>)
    ensures After(d, [e] + rest) == After(Apply(d, e), rest)
    ensures Possible(d, [e] + rest) == (Enabled(d, e) && Possible(Apply(d, e), rest))
  {
    assert ([e] + rest)[1..] == rest;
  }

  /** A whole image that is not installed runs after one reset, or two, unless it is hidden. */
  lemma UnhiddenRuns(d: Device)
    requires Phases(d) && d.job == Verifying_ && d.at == Rest && d.flash.good.Of(Other(d.running)) && !Hidden(d)
    ensures Apply(d, Reset).running != d.running || Apply(Apply(d, Reset), Reset).running != d.running
  {
  }

  /** Exactly the hidden downloads are harmless: after the last byte is written, and short of an
      install, the new image never runs if and only if it is hidden. */
  lemma HiddenIsExact(d: Device, v: string)
    requires Phases(d) && Enabled(d, Written(v, true))
    ensures Hidden(d) <==> KeepsRunning(Apply(d, Written(v, true)))
  {
    var d1 := Apply(d, Written(v, true));
    PhasesKept(d, Written(v, true));
    if Hidden(d) {
      forall evs | Possible(d1, evs) && NoInstall(evs) ensures After(d1, evs).running == d1.running {
        HiddenKeepsRunning(d1, evs);
      }
    } else {
      UnhiddenRuns(d1);
      Head(d1, Reset, []);
      Head(d1, Reset, [Reset]);
      Head(Apply(d1, Reset), Reset, []);
      assert [Reset] + [] == [Reset];
      assert Possible(d1, [Reset]) && Possible(d1, [Reset] + [Reset]);
    }
  }

  /** A cancel that completes leaves the running version chosen and proven: no later start puts it
      on probation, and whatever is downloaded, nothing else runs until an install. */
  lemma {:induction false} CancelLeavesNoProbation(evs: seq<Event>, ds: seq<Device>, m: nat, n: nat)
    requires IsRun(evs, ds) && m < n <= |evs| && evs[m] == CancelRecord
    requires forall j :: m < j < n ==> !evs[j].Install?
    ensures var d := ds[n];
      && d.running == ds[m].running && d.flash.choice == d.running && d.flash.st.Of(d.running) == Proven
      && !d.pending && d.job != Ready && d.job != Switching
  {
    RunKeepsPhases(evs, ds, n - 1);
    assert Link(evs, ds, n - 1);
    if n - 1 > m {
      CancelLeavesNoProbation(evs, ds, m, n - 1);
      QuietStays(ds[n - 1], evs[n - 1]);
    }
  }

  lemma QuietStays(d: Device, e: Event)
    requires Phases(d) && Enabled(d, e) && !e.Install? && !d.pending && d.job != Ready && d.job != Switching
    requires d.flash.choice == d.running && d.flash.st.Of(d.running) == Proven
    ensures var d' := Apply(d, e);
      && d'.running == d.running && d'.flash.choice == d.running && d'.flash.st.Of(d.running) == Proven
      && !d'.pending && d'.job != Ready && d'.job != Switching
  {
  }

  // ---- a board that was not updated ----

  /** What a start says, from what is in flash: nothing exactly when no image is on probation, none
      is recorded and none was given up, and then it writes nothing. */
  lemma StartSays(d: Device)
    ensures var d', st, step := OnBoot(d), d.flash.st, d.rec.step;
      && (d'.outcome == Verifying <==> st.Of(d.running) == PendingVerify)
      && (d'.outcome == NoUpdate <==>
            st.Of(d.running) != PendingVerify && step == Nothing && Selectable(st.app0) && Selectable(st.app1))
      && (d'.outcome == Updated <==>
            && st.Of(d.running) != PendingVerify
            && (step == Valid || (Open(step) && WhereItWent(d.rec, Version(d), Some(d.running)))))
      && (d'.outcome == NoUpdate ==> d'.rec == d.rec)
      && (d'.outcome == Verifying ==>
            d'.rec == if Open(step) then d.rec.(step := Pending) else Record(Pending, Version(d), Some(d.running), ""))
      && (d'.outcome == Updated ==> d'.rec == if step == Valid then d.rec else d.rec.(step := Valid, why := ""))
      && (d'.outcome == RolledBackOutcome ==>
            && d'.rec == d.rec.(step := RolledBack, why := d'.rec.why)
            && (d.rec.why != "" || step == RolledBack ==> d'.rec.why == d.rec.why)
            && (d.rec.why == "" && step != RolledBack ==> d'.rec.why == "did_not_start"))
  {
    OutcomeExactly(d.rec, Version(d), Some(d.running), d.flash.st.Of(d.running) == PendingVerify,
                   !Selectable(d.flash.st.app0) || !Selectable(d.flash.st.app1));
  }

  /** The running version is the chosen one and settled, nothing is recorded; given: the other
      slot's image was given up, which the first start records. */
  ghost predicate Calm(d: Device, given: bool) {
    var j := d.flash.st.Of(Other(d.running));
    && Phases(d) && d.flash.choice == d.running && Settled(d.flash.st.Of(d.running))
    && !d.pending && !d.unsaid && d.job != Ready && d.job != Switching && (d.at == Starting || d.at == Rest)
    && (GivenUp(j) <==> given) && (d.at == Starting ==> j != PendingVerify)
    && (d.rec.step == Nothing || (given && d.rec.step == RolledBack))
  }

  lemma CalmStays(d: Device, e: Event, given: bool)
    requires Calm(d, given) && Enabled(d, e) && !e.Install?
    ensures Calm(Apply(d, e), given) && (!given ==> Apply(d, e).rec == d.rec)
    ensures e == Boot ==> Apply(d, e).outcome == if given then RolledBackOutcome else NoUpdate
  {
    PhasesKept(d, e);
  }

  lemma {:induction false} CalmRun(evs: seq<Event>, ds: seq<Device>, m: nat, n: nat, given: bool)
    requires IsRun(evs, ds) && m <= n <= |evs| && Calm(ds[m], given)
    requires forall j :: m <= j < n ==> !evs[j].Install?
    ensures Calm(ds[n], given) && (!given ==> ds[n].rec == ds[m].rec)
    decreases n
  {
    if m < n {
      CalmRun(evs, ds, m, n - 1, given);
      assert Link(evs, ds, n - 1);
      CalmStays(ds[n - 1], evs[n - 1], given);
    }
  }

  /** Before the first install every start says nothing and records nothing - unless the other slot
      came with an image that was given up, which every start calls a rollback. */
  lemma SilentBeforeUpdates(evs: seq<Event>, ds: seq<Device>, n: nat)
    requires IsRun(evs, ds) && n < |evs| && evs[n] == Boot
    requires forall j :: 0 <= j < n ==> !evs[j].Install?
    ensures var given := GivenUp(ds[0].flash.st.Of(Other(ds[0].running)));
      && ds[n + 1].outcome == (if given then RolledBackOutcome else NoUpdate)
      && (!given ==> ds[n + 1].rec == ds[0].rec)
  {
    var given := GivenUp(ds[0].flash.st.Of(Other(ds[0].running)));
    CalmRun(evs, ds, 0, n, given);
    assert Link(evs, ds, n);
    CalmStays(ds[n], evs[n], given);
  }

  /** After a completed cancel every start says nothing, until something is installed. */
  lemma SilentAfterCancel(evs: seq<Event>, ds: seq<Device>, m: nat, n: nat)
    requires IsRun(evs, ds) && m < n < |evs| && evs[m] == CancelRecord && evs[n] == Boot
    requires forall j :: m < j < n ==> !evs[j].Install?
    ensures ds[n + 1].outcome == NoUpdate && ds[n + 1].rec == Record(Nothing, "", None, "")
  {
    RunKeepsPhases(evs, ds, m);
    RunKeepsPhases(evs, ds, m + 1);
    assert Link(evs, ds, m) && Link(evs, ds, n);
    CalmRun(evs, ds, m + 1, n, false);
    CalmStays(ds[n], evs[n], false);
  }

  // ---- runs that exist ----

  /** The states of a run. */
  ghost function States(d: Device, evs: seq<Event>): (ds: seq<Device>)
    ensures |ds| == |evs| + 1 && ds[0] == d
    decreases |evs|
  {
    if evs == [] then [d] else [d] + States(Apply(d, evs[0]), evs[1..])
  }

  lemma {:induction false} PossibleIsLinked(d: Device, evs: seq<Event>, m: nat)
    requires Possible(d, evs) && m <= |evs|
    ensures States(d, evs)[|evs|] == After(d, evs)
    ensures m < |evs| ==> Link(evs, States(d, evs), m)
    decreases |evs|
  {
    if evs != [] {
      var ds, t := States(d, evs), States(Apply(d, evs[0]), evs[1..]);
      assert ds == [d] + t;
      if m > 0 {
        PossibleIsLinked(Apply(d, evs[0]), evs[1..], m - 1);
        if m < |evs| { assert Link(evs[1..], t, m - 1); }
      } else {
        PossibleIsLinked(Apply(d, evs[0]), evs[1..], 0);
      }
    }
  }

  lemma RunExists(d: Device, evs: seq<Event>)
    requires Factory(d) && Possible(d, evs)
    ensures exists ds :: IsRun(evs, ds) && ds[0] == d && ds[|evs|] == After(d, evs)
  {
    var ds := States(d, evs);
    forall m | 0 <= m < |evs| ensures Link(evs, ds, m) { PossibleIsLinked(d, evs, m); }
    PossibleIsLinked(d, evs, 0);
    assert IsRun(evs, ds);
  }

  lemma {:induction false} InTwo(d: Device, a: seq<Event>, b: seq<Event>)
    ensures After(d, a + b) == After(After(d, a), b)
    ensures Possible(d, a + b) <==> Possible(d, a) && Possible(After(d, a), b)
    decreases |a|
  {
    if a == [] {
      assert a + b == b;
    } else {
      assert (a + b)[1..] == a[1..] + b;
      InTwo(Apply(d, a[0]), a[1..], b);
    }
  }

  ghost predicate Steps(d: Device, e: Event, d': Device) { Enabled(d, e) && d' == Apply(d, e) }

  /** Linked states make a possible run. */
  lemma {:induction false} Chain(evs: seq<Event>, ds: seq<Device>)
    requires |ds| == |evs| + 1 && forall m :: 0 <= m < |evs| ==> Link(evs, ds, m)
    ensures Possible(ds[0], evs) && After(ds[0], evs) == ds[|evs|]
    decreases |evs|
  {
    if evs != [] {
      assert Link(evs, ds, 0);
      forall m | 0 <= m < |evs| - 1 ensures Link(evs[1..], ds[1..], m) { assert Link(evs, ds, m + 1); }
      Chain(evs[1..], ds[1..]);
    }
  }

  lemma Seven(s: seq<Event>, a: Device, b: Device, c: Device, f: Device, g: Device, h: Device, i: Device, j: Device)
    requires |s| == 7 && Steps(a, s[0], b) && Steps(b, s[1], c) && Steps(c, s[2], f) && Steps(f, s[3], g)
    requires Steps(g, s[4], h) && Steps(h, s[5], i) && Steps(i, s[6], j)
    ensures Possible(a, s) && After(a, s) == j
  {
    Chain(s, [a, b, c, f, g, h, i, j]);
  }

  lemma Five(s: seq<Event>, a: Device, b: Device, c: Device, f: Device, g: Device, h: Device)
    requires |s| == 5 && Steps(a, s[0], b) && Steps(b, s[1], c) && Steps(c, s[2], f) && Steps(f, s[3], g) && Steps(g, s[4], h)
    ensures Possible(a, s) && After(a, s) == h
  {
    Chain(s, [a, b, c, f, g, h]);
  }

  /** An update is fetched and installed. */
  function Installing(v: string): seq<Event> { [StartDownload, Erased, Written(v, true), Install, InstallRecord] }

  lemma FactoryInstalls(d: Device, v: string) returns (x: Device)
    requires Factory(d)
    ensures Possible(d, Installing(v)) && x == After(d, Installing(v))
    ensures x == d.(flash := x.flash, tested := d.tested.With(Other(d.running), false), job := Ready,
                    rec := Record(Switched, "hid_fi_v" + v, Some(Other(d.running)), ""))
    ensures x.flash == Flash(Other(d.running), d.flash.st.With(Other(d.running), New), d.flash.good.With(Other(d.running), true),
                             d.flash.version.With(Other(d.running), "hid_fi_v" + v))
  {
    var d1 := Apply(d, StartDownload);
    var d2 := Apply(d1, Erased);
    var d3 := Apply(d2, Written(v, true));
    var d4 := Apply(d3, Install);
    x := Apply(d4, InstallRecord);
    Five(Installing(v), d, d1, d2, d3, d4, x);
  }

  /** A cancelled update can run after all: its cancel fails after the erase, the same image is
      fetched again and stopped after the last byte, and the next reset starts it. */
  lemma CancelledCanRun(d: Device, v: string)
    requires Factory(d)
    ensures var evs := Installing(v) + [CancelErase(true), CancelChoose(false), Check, StartDownload, Written(v, true), DownloadStops, Reset];
      Possible(d, evs) && After(d, evs).running == Other(d.running)
  {
    var x := FactoryInstalls(d, v);
    var rest := [CancelErase(true), CancelChoose(false), Check, StartDownload, Written(v, true), DownloadStops, Reset];
    FetchedAgain(x, v, rest);
    InTwo(d, Installing(v), rest);
  }

  lemma FetchedAgain(x: Device, v: string, rest: seq<Event>)
    requires rest == [CancelErase(true), CancelChoose(false), Check, StartDownload, Written(v, true), DownloadStops, Reset]
    requires x.at == Rest && x.job == Ready && !x.pending && x.flash.choice == Other(x.running)
    requires x.flash.st.Of(Other(x.running)) == New
    ensures Possible(x, rest) && After(x, rest).running == Other(x.running)
  {
    var a := Apply(x, CancelErase(true));
    var b := Apply(a, CancelChoose(false));
    var c := Apply(b, Check);
    var e := Apply(c, StartDownload);
    var f := Apply(e, Written(v, true));
    var g := Apply(f, DownloadStops);
    Seven(rest, x, a, b, c, e, f, g, Apply(g, Reset));
  }
}
