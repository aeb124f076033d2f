/** The update code as it runs: one object whose fields the start, the tick, the switch and
    the cancel change in place. Each method is the sequence of flash writes of OtaDevice with
    no power cut in between. */
module OtaBoard {
  import opened Common
  import opened OtaLogic
  import opened OtaDevice

  datatype CancelWord = NothingDone | Stopping | SwitchedBack | SwitchBackFailed | TryAgain

  class OtaBoard {
    var flash: Flash
    var rec: Record
    var running: Slot
    var pending: bool
    var outcome: Outcome
    var job: JobStep
    ghost var at: Point
    ghost var tested: Both<bool>
    ghost var unsaid: bool

    ghost function View(): Device
      reads this
    {
      Device(flash, rec, running, pending, outcome, job, at, tested, unsaid)
    }

    /** The running version can start, and the object stands where the device does. */
    ghost predicate Valid()
      reads this
    {
      Phases(View())
    }

    constructor (d: Device)
      requires Factory(d)
      ensures Valid() && View() == d
    {
      flash, rec, running, pending, outcome, job := d.flash, d.rec, d.running, d.pending, d.outcome, d.job;
      at, tested, unsaid := d.at, d.tested, d.unsaid;
    }

    method WriteRecord(step: RecordStep, to: string, why: string, slot: Option<Slot>)
      modifies this`rec
      ensures rec == Record(step, to, slot, why)
    {
      rec := rec.(step := step);
      rec := rec.(to := to);
      rec := rec.(why := why);
      rec := rec.(slot := slot);
    }

    /** A reset at any moment, as the bootloader sees it. */
    method StartOver()
      requires Valid()
      modifies this
      ensures Valid() && View() == Apply(old(View()), Reset)
    {
      PhasesKept(View(), Reset);
      var (f, s) := Bootloader(flash);
      flash, running, pending, outcome, job, at := f, s, false, NoUpdate, Idle, Starting;
    }

    /** A reset at any moment, then otaBoot. */
    method Restart()
      requires Valid()
      modifies this
      ensures Valid() && View() == Apply(Apply(old(View()), Reset), Boot)
    {
      StartOver();
      PhasesKept(View(), Boot);
      pending := flash.st.Of(running) == PendingVerify;
      var aborted := !Selectable(flash.st.app0) || !Selectable(flash.st.app1);
      var version := flash.version.Of(running);
      outcome := OutcomeOf(rec, version, Some(running), pending, aborted);
      if pending && !Open(rec.step) {
        WriteRecord(Pending, version, "", Some(running));
      } else if pending {
        rec := rec.(step := Pending);
      } else if outcome == Updated && Open(rec.step) {
        WriteRecord(RecordStep.Valid, rec.to, "", rec.slot);
      } else if outcome == RolledBackOutcome && rec.step != RolledBack {
        WriteRecord(RolledBack, rec.to, if rec.why == "" then "did_not_start" else rec.why, rec.slot);
      }
      at, unsaid := Rest, false;
    }

    /** The self-test passed: mark the image valid, then say so in the record. */
    method KeepVersion(ghost i: SelfTestIn)
      requires Valid() && Enabled(View(), TickMark(i, true))
      modifies this
      ensures Valid() && View() == Apply(Apply(old(View()), TickMark(i, true)), TickRecord)
    {
      flash := flash.(st := flash.st.With(Active(flash), Proven));
      tested := tested.With(running, true);
      pending, outcome, at := false, Updated, Rest;
      WriteRecord(RecordStep.Valid, flash.version.Of(running), "", Some(running));
    }

    /** The self-test failed: write down why, then let the bootloader take the board back. */
    method GoBack(i: SelfTestIn)
      requires Valid() && Enabled(View(), TickFail(i))
      modifies this
      ensures Valid() && View() == Apply(Apply(old(View()), TickFail(i)), TickReboot)
    {
      ghost var d := View();
      PhasesKept(d, TickFail(i));
      PhasesKept(Apply(d, TickFail(i)), TickReboot);
      WriteRecord(RolledBack, flash.version.Of(running), SelfTest(i).1, Some(running));
      at := Failing;
      assert View() == Apply(d, TickFail(i));
      at := Rest;
      if RollbackPossible(flash) {
        var (f, s) := Bootloader(InvalidActive(flash));
        flash, running, outcome, job, at := f, s, NoUpdate, Idle, Starting;
      }
      pending := false;
    }

    /** Once a second on probation: keep this version, go back, or wait. */
    method Tick(i: SelfTestIn, markOk: bool)
      requires Valid() && at == Rest
      modifies this
      ensures Valid()
      ensures View() ==
        var d := old(View());
        if !d.pending || SelfTest(i).0 == Wait || (SelfTest(i).0 == Pass && !markOk) then d
        else if SelfTest(i).0 == Pass then Apply(Apply(d, TickMark(i, true)), TickRecord)
        else Apply(Apply(d, TickFail(i)), TickReboot)
    {
      if !pending { return; }
      var (verdict, _) := SelfTest(i);
      if verdict == Wait { return; }
      if verdict == Fail {
        GoBack(i);
      } else if markOk {
        KeepVersion(i);
      }
    }

    /** The switch at the end of a download: the boot choice and the record. */
    method Switch()
      requires Valid() && Enabled(View(), Install)
      modifies this
      ensures Valid() && View() == Apply(Apply(old(View()), Install), InstallRecord)
    {
      var o := Other(running);
      flash := flash.(choice := o, st := flash.st.With(o, New));
      rec := Record(Switched, flash.version.Of(o), Some(o), "");
      job, unsaid := Ready, false;
    }

    /** Cancel, whenever it comes: refused while the boot choice is made; a running job is told to stop
        and stops where it looks next; a ready update is undone, or not entirely; else nothing. */
    method Cancel(eraseOk: bool, chooseOk: bool, confirmOk: bool) returns (word: CancelWord)
      requires Valid() && (at == Rest || at == SlotChosen)
      modifies this
      ensures Valid() && (old(job) != Ready ==> View() == old(View()))
      ensures word == TryAgain <==> old(job) == Switching
      ensures word == Stopping <==> old(job) == Checking || old(job) == Downloading || old(job) == Verifying_
      ensures word == NothingDone <==> old(job) == Idle
      ensures word == SwitchedBack <==> old(job) == Ready && eraseOk && chooseOk && confirmOk
      ensures word == SwitchBackFailed <==> old(job) == Ready && !(eraseOk && chooseOk && confirmOk)
      ensures old(job) == Ready ==> View() == CancelSpec(old(View()), eraseOk, chooseOk, confirmOk)
    {
      match CancelAction(job)
      case Refused => word := TryAgain;
      case Stop => word := Stopping;
      case NothingToDo => word := NothingDone;
      case SwitchBack =>
        var done := SwitchBack(eraseOk, chooseOk, confirmOk);
        word := if done then SwitchedBack else SwitchBackFailed;
    }

    /** Cancel of a ready update: erase, choose again, confirm, forget. Any write may fail. */
    method SwitchBack(eraseOk: bool, chooseOk: bool, confirmOk: bool) returns (done: bool)
      requires Valid() && at == Rest && CancelAction(job) == CancelKind.SwitchBack
      modifies this
      ensures Valid()
      ensures done <==> eraseOk && chooseOk && confirmOk
      ensures View() == CancelSpec(old(View()), eraseOk, chooseOk, confirmOk)
      ensures !eraseOk ==> View() == old(View())
      ensures eraseOk ==> !flash.good.Of(Other(running)) && (chooseOk ==> flash.choice == running)
      ensures done ==> flash.st.Of(running) == Proven && rec == Record(Nothing, "", None, "") && job == Idle
      ensures !done ==> rec == old(rec) && job == Ready
      ensures running == old(running) && flash.version == old(flash.version) && at == Rest
    {
      EraseOther(eraseOk);
      if !eraseOk { return false; }
      ChooseRunning(chooseOk);
      if !chooseOk { return false; }
      Confirm(confirmOk);
      if !confirmOk { return false; }
      Forget();
      done := true;
    }

    /** The first sector of the other slot. */
    method EraseOther(ok: bool)
      requires Valid() && Enabled(View(), CancelErase(ok))
      modifies this
      ensures Valid() && View() == Apply(old(View()), CancelErase(ok))
    {
      if !ok { return; }
      flash := flash.(good := flash.good.With(Other(running), false));
      tested, at := tested.With(Other(running), false), CancelErased;
    }

    method ChooseRunning(ok: bool)
      requires Valid() && Enabled(View(), CancelChoose(ok))
      modifies this
      ensures Valid() && View() == Apply(old(View()), CancelChoose(ok))
    {
      at := if ok then CancelChosen else Rest;
      if ok { flash := flash.(choice := running, st := flash.st.With(running, New)); }
    }

    method Confirm(ok: bool)
      requires Valid() && Enabled(View(), CancelConfirm(ok))
      modifies this
      ensures Valid() && View() == Apply(old(View()), CancelConfirm(ok))
    {
      at := if ok then CancelConfirmed else Rest;
      if ok { flash := flash.(st := flash.st.With(Active(flash), Proven)); }
    }

    method Forget()
      requires Valid() && Enabled(View(), CancelRecord)
      modifies this
      ensures Valid() && View() == Apply(old(View()), CancelRecord)
    {
      WriteRecord(Nothing, "", "", None);
      job, at := Idle, Rest;
    }
  }

  function CancelSpec(d: Device, eraseOk: bool, chooseOk: bool, confirmOk: bool): Device {
    var d1 := Apply(d, CancelErase(eraseOk));
    if !eraseOk then d1
    else
      var d2 := Apply(d1, CancelChoose(chooseOk));
      if !chooseOk then d2
      else
        var d3 := Apply(d2, CancelConfirm(confirmOk));
        if !confirmOk then d3 else Apply(d3, CancelRecord)
  }
}
