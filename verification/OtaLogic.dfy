/** The decisions behind updates: the self-test, what to say after a restart, whether a
    release fits, what cancel does, where a broken download goes on. */
module OtaLogic {
  import opened Common
  import opened Versions

  const SELFTEST_MIN_MS := 60_000
  const HID_DEADLINE_MS := 30_000
  const NET_DEADLINE_MS := 180_000
  const MAX_ATTEMPTS := 8

  datatype Verdict = Wait | Pass | Fail

  datatype SelfTestIn = SelfTestIn(uptime: nat, hidReady: bool, needNetwork: bool, networkUp: bool, forcedFail: bool)

  function SelfTest(i: SelfTestIn): (Verdict, string) {
    if i.forcedFail then (Fail, "test_build")
    else if !i.hidReady then (if i.uptime >= HID_DEADLINE_MS then Fail else Wait, "usb_hid")
    else if i.needNetwork && !i.networkUp then (if i.uptime >= NET_DEADLINE_MS then Fail else Wait, "network")
    else if i.uptime < SELFTEST_MIN_MS then (Wait, "running")
    else (Pass, "")
  }

  /** The self-test passes exactly when it ran a minute with its USB up and the network back, if there
      was one; it fails exactly when its USB is late by half a minute, or with USB the network by
      three; by then there is a verdict; and the reason is what is missing, USB first. */
  lemma SelfTestSound(i: SelfTestIn)
    ensures SelfTest(i).0 == Pass <==>
      i.uptime >= 60_000 && i.hidReady && (i.needNetwork ==> i.networkUp) && !i.forcedFail
    ensures SelfTest(i).0 == Fail && !i.forcedFail <==>
      && !i.forcedFail
      && ((!i.hidReady && i.uptime >= 30_000) || (i.hidReady && i.needNetwork && !i.networkUp && i.uptime >= 180_000))
    ensures i.forcedFail ==> SelfTest(i) == (Fail, "test_build")
    ensures i.uptime >= 180_000 ==> SelfTest(i).0 != Wait
    ensures !i.forcedFail ==>
      SelfTest(i).1 == if !i.hidReady then "usb_hid" else if i.needNetwork && !i.networkUp then "network"
                       else if SelfTest(i).0 == Wait then "running" else ""
  {
  }

  datatype Slot = App0 | App1

  function Other(s: Slot): (o: Slot)
    ensures o != s
  {
    if s == App0 then App1 else App0
  }

  datatype RecordStep = Nothing | Switched | Pending | Valid | RolledBack

  /** slot None: not known. */
  datatype Record = Record(step: RecordStep, to: string, slot: Option<Slot>, why: string)

  datatype Outcome = NoUpdate | Verifying | Updated | RolledBackOutcome

  predicate Open(step: RecordStep) { step == Switched || step == Pending }

  function OutcomeOf(rec: Record, running: string, slot: Option<Slot>, pending: bool, abortedOther: bool): Outcome {
    if pending then Verifying
    else if Open(rec.step) then
      if rec.slot.Some? && slot.Some? then (if rec.slot == slot then Updated else RolledBackOutcome)
      else
        var r, t := Parse(running), Parse(rec.to);
        if r.Some? && t.Some? && Compare(r.value, t.value) == 0 then Updated else RolledBackOutcome
    else if rec.step == RolledBack then RolledBackOutcome
    else if rec.step == Valid then Updated
    else if abortedOther then RolledBackOutcome
    else NoUpdate
  }

  /** Where the record says the update went is where the board is: by the slot, or, when one of the
      slots is not known, by the version. */
  predicate WhereItWent(rec: Record, running: string, slot: Option<Slot>) {
    if rec.slot.Some? && slot.Some? then rec.slot == slot
    else Parse(running).Some? && Parse(running) == Parse(rec.to)
  }

  /** Every outcome with its exact condition; nothing is said exactly when nothing is recorded, no
      image is given up and the running one is not on probation. */
  lemma OutcomeExactly(rec: Record, running: string, slot: Option<Slot>, pending: bool, abortedOther: bool)
    ensures var out := OutcomeOf(rec, running, slot, pending, abortedOther);
      && (out == Verifying <==> pending)
      && (out == NoUpdate <==> !pending && rec.step == Nothing && !abortedOther)
      && (out == Updated <==>
            !pending && (rec.step == Valid || (Open(rec.step) && WhereItWent(rec, running, slot))))
      && (out == RolledBackOutcome <==>
            !pending && (|| rec.step == RolledBack || (rec.step == Nothing && abortedOther)
                         || (Open(rec.step) && !WhereItWent(rec, running, slot))))
  {
  }

  datatype Refusal = Ok | BadVersion | NotNewer | TooOld | WrongChip | TooBig | Empty

  datatype Offer = Offer(version: string, minFrom: string, chip: Option<string>, size: nat, downgradeOk: bool)

  function CanInstall(o: Offer, running: string, slotSize: nat): Refusal {
    var v, m, r := Parse(o.version), Parse(o.minFrom), Parse(running);
    if v.None? || m.None? || r.None? then BadVersion
    else if o.chip != Some("esp32s3") then WrongChip
    else if o.size == 0 then Empty
    else if o.size > slotSize then TooBig
    else if Compare(r.value, m.value) < 0 then TooOld
    else
      var c := Compare(v.value, r.value);
      if c < 0 && !o.downgradeOk then NotNewer
      else if c == 0 then NotNewer
      else Ok
  }

  /** A release may be installed if and only if all three versions can be read, it is for this chip,
      it is not empty and fits the slot, what runs is not below its min_from, and it is newer than
      what runs - or older, and asked for. The first of these that fails is the refusal. */
  lemma InstallsExactly(o: Offer, running: string, slotSize: nat)
    ensures var v, m, r, why := Parse(o.version), Parse(o.minFrom), Parse(running), CanInstall(o, running, slotSize);
      && (why == BadVersion <==> v.None? || m.None? || r.None?)
      && (v.Some? && m.Some? && r.Some? ==>
            && (why == Ok <==>
                  && o.chip == Some("esp32s3") && 0 < o.size <= slotSize && Compare(r.value, m.value) >= 0
                  && (Compare(v.value, r.value) > 0 || (Compare(v.value, r.value) < 0 && o.downgradeOk)))
            && (why == WrongChip <==> o.chip != Some("esp32s3"))
            && (o.chip == Some("esp32s3") ==>
                  && (why == Empty <==> o.size == 0)
                  && (why == TooBig <==> o.size > slotSize)
                  && (0 < o.size <= slotSize ==>
                        && (why == TooOld <==> Compare(r.value, m.value) < 0)
                        && (why == NotNewer <==>
                              Compare(r.value, m.value) >= 0
                              && (v == r || (Compare(v.value, r.value) < 0 && !o.downgradeOk))))))
  {
  }

  datatype JobStep = Idle | Checking | Downloading | Verifying_ | Switching | Ready

  datatype CancelKind = NothingToDo | Stop | SwitchBack | Refused

  function CancelAction(s: JobStep): CancelKind {
    match s
    case Checking => Stop
    case Downloading => Stop
    case Verifying_ => Stop
    case Switching => Refused
    case Ready => SwitchBack
    case Idle => NothingToDo
  }

  /** What a cancel may do, step by step of an install: nothing before and after it, stop what runs,
      undo the choice when it is made - and wait while it is being made. */
  lemma CancelExactly(s: JobStep)
    ensures CancelAction(s) == NothingToDo <==> s == Idle
    ensures CancelAction(s) == Stop <==> s == Checking || s == Downloading || s == Verifying_
    ensures CancelAction(s) == Refused <==> s == Switching
    ensures CancelAction(s) == SwitchBack <==> s == Ready
  {
  }

  /** -1 gives up, 0 starts over, otherwise go on from there. */
  function ResumeFrom(written: nat, total: nat, rangeOk: bool, attempts: nat): int {
    if attempts >= MAX_ATTEMPTS then -1
    else if !rangeOk || written == 0 || written >= total then 0
    else written
  }
}
