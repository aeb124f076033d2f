/** The same handlers as the firmware runs them: fixed tables changed in place. Each method
    is proved to compute the function of the same name in PairingBoard. */
module PairingTables {
  import opened Common
  import opened Crypto
  import opened Clock32
  import opened PairingBoard
  import Decimal

  class Companion {
    var pending: array<Request>
    var paired: array<Entry>
    var nvs: seq<Stored>
    var now: nat
    var lastTick: nat

    ghost predicate Valid()
      reads this, pending, paired
    {
      pending.Length == PENDING_MAX && paired.Length == PAIRED_MAX && Shape(State())
    }

    ghost function State(): Board
      reads this, pending, paired
    {
      Board(pending[..], paired[..], nvs, now, lastTick)
    }

    constructor ()
      ensures Valid() && fresh(pending) && fresh(paired) && State() == Start()
    {
      pending := new Request[PENDING_MAX](_ => WIPED);
      paired := new Entry[PAIRED_MAX](_ => EMPTY);
      nvs := seq(PAIRED_MAX, _ => ERASED);
      now, lastTick := 0, 0;
      new;
      assert pending[..] == Start().pending;
      assert paired[..] == Start().paired;
    }

    method SeekPending(id: Blob) returns (r: int)
      requires Valid()
      ensures r == FindPending(pending[..], id)
    {
      for i := 0 to pending.Length
        invariant forall j :: 0 <= j < i ==> pending[j].phase == Free || pending[j].id != id
      {
        if pending[i].phase != Free && pending[i].id == id { return i; }
      }
      r := -1;
    }

    method SeekPaired(id: Blob) returns (r: int)
      requires Valid()
      ensures r == FindPaired(paired[..], id)
    {
      for i := 0 to paired.Length
        invariant forall j :: 0 <= j < i ==> !paired[j].used || paired[j].id != id
      {
        if paired[i].used && paired[i].id == id { return i; }
      }
      r := -1;
    }

    method SeekFreeRequest() returns (r: int)
      requires Valid()
      ensures r == FreePending(pending[..])
    {
      for i := 0 to pending.Length
        invariant forall j :: 0 <= j < i ==> pending[j].phase != Free
      {
        if pending[i].phase == Free { return i; }
      }
      r := -1;
    }

    method SeekFreeEntry() returns (r: int)
      requires Valid()
      ensures r == FreePaired(paired[..])
    {
      for i := 0 to paired.Length
        invariant forall j :: 0 <= j < i ==> paired[j].used
      {
        if !paired[i].used { return i; }
      }
      r := -1;
    }

    method ReplyState(id: Blob) returns (r: Reply)
      requires Valid()
      ensures r == StateReply(State(), id)
    {
      var pi := SeekPending(id);
      if pi >= 0 { return Standing0(pending[pi]); }
      var i := SeekPaired(id);
      r := Standing(if i >= 0 then SPaired else SNone, 0, 0);
    }

    /** The loop that frees every request from one address. */
    method FreeAddress(ip: nat)
      requires Valid()
      modifies pending
      ensures Valid() && State() == old(State()).(pending := DropAddress(old(pending[..]), ip))
    {
      ghost var was := pending[..];
      for i := 0 to pending.Length
        invariant pending.Length == PENDING_MAX && unchanged(paired)
        invariant forall j :: 0 <= j < i ==> pending[j] == DropAddress(was, ip)[j]
        invariant forall j :: i <= j < pending.Length ==> pending[j] == was[j]
      {
        if pending[i].phase != Free && pending[i].ip == ip { pending[i] := WIPED; }
      }
      assert pending[..] == DropAddress(was, ip);
    }

    /** Another attempt of this computer and every request from its address are dropped. */
    method MakeRoom(pi: int, id: Blob, ip: nat)
      requires Valid() && pi == FindPending(pending[..], id)
      modifies pending
      ensures Valid() && State() == old(State()).(pending := Cleared(old(pending[..]), id, ip))
    {
      if pi >= 0 {
        pending[pi] := WIPED;
        assert pending[..] == old(pending[..])[pi := WIPED];
      }
      FreeAddress(ip);
    }

    method EnrolRequest(id: Blob, name: string, aPub: Blob, commit: Blob, ip: nat) returns (r: Reply)
      requires Valid()
      modifies pending
      ensures Valid() && (State(), r) == Enrol(old(State()), id, name, aPub, commit, ip)
    {
      var slot := SeekFreeRequest();
      if slot < 0 { return Refused(Full); }
      pending[slot] := NewRequest(id, name, aPub, commit, ip, Millis(now));
      assert pending[..] == old(pending[..])[slot := pending[slot]];
      r := ReplyState(id);
    }

    method OnHello(v: nat, id: Blob, name: string, aPub: Blob, commit: Blob, ip: nat) returns (r: Reply)
      requires Valid()
      modifies pending
      ensures Valid() && (State(), r) == Hello(old(State()), v, id, name, aPub, commit, ip)
    {
      if v != 1 { return Refused(Unsupported); }
      if |name| > NAME_MAX { return Refused(BadRequest); }
      var pi := SeekPending(id);
      if pi >= 0 {
        if pending[pi].aPub == aPub && pending[pi].commit == commit {
          r := ReplyState(id);
          return;
        }
      }
      MakeRoom(pi, id, ip);
      r := EnrolRequest(id, name, aPub, commit, ip);
    }

    method OnState(id: Blob, ip: nat) returns (r: Reply)
      requires Valid()
      modifies pending
      ensures Valid() && (State(), r) == AskState(old(State()), id, ip)
    {
      var pi := SeekPending(id);
      if pi >= 0 && pending[pi].phase == Pending && pending[pi].ip == ip {
        pending[pi] := pending[pi].(at := Millis(now));
        assert pending[..] == old(pending[..])[pi := pending[pi]];
      }
      r := ReplyState(id);
    }

    method OnReveal(s: Scheme, id: Blob, nA: Blob, keysOk: bool) returns (r: Reply)
      requires Valid()
      modifies pending
      ensures Valid() && (State(), r) == Reveal(s, old(State()), id, nA, keysOk)
    {
      var pi := SeekPending(id);
      if pi < 0 || pending[pi].phase != Confirm { return Refused(NotReady); }
      var p := pending[pi];
      if s.commit(p.aPub, nA) != p.commit {
        pending[pi] := WIPED;
        assert pending[..] == old(pending[..])[pi := WIPED];
        return Refused(BadMac);
      }
      var shared := s.dh(p.bSec, p.aPub);
      if shared == 0 || !keysOk {
        pending[pi] := WIPED;
        assert pending[..] == old(pending[..])[pi := WIPED];
        return Refused(BadRequest);
      }
      pending[pi] := p.(bSec := 0, code := s.Sas(p.aPub, p.bPub, nA, p.nB),
        key := s.kdf(shared, p.aPub, p.bPub, nA, p.nB), phase := CodeShown, at := Millis(now));
      assert pending[..] == old(pending[..])[pi := pending[pi]];
      r := ReplyState(id);
    }

    method OnApprove(s: Scheme, id: Blob, pinSet: bool, bSec: Blob, nB: Blob, keyOk: bool) returns (r: Reply)
      requires Valid()
      modifies pending
      ensures Valid() && (State(), r) == Approve(s, old(State()), id, pinSet, bSec, nB, keyOk)
    {
      if !pinSet { return Refused(PinRequired); }
      var pi := SeekPending(id);
      if pi < 0 { return Refused(NotFound); }
      if pending[pi].phase != Pending { return Refused(NotReady); }
      if !keyOk {
        pending[pi] := WIPED;
        assert pending[..] == old(pending[..])[pi := WIPED];
        return Refused(Failed);
      }
      pending[pi] := pending[pi].(bSec := bSec, nB := nB, bPub := s.pub(bSec), phase := Confirm, at := Millis(now));
      assert pending[..] == old(pending[..])[pi := pending[pi]];
      r := Standing(SConfirm, 0, 0);
    }

    /** Six digits, read left to right; anything else is not a code. */
    method ReadCode(text: string) returns (shape: bool, got: nat)
      ensures shape <==> |text| == 6 && Decimal.AllDigits(text)
      ensures shape ==> got == Decimal.Value(text)
    {
      shape, got := |text| == 6, 0;
      assert text[..0] == [];
      var i := 0;
      while shape && i < 6
        invariant 0 <= i <= 6
        invariant shape ==> |text| == 6 && Decimal.AllDigits(text[..i]) && got == Decimal.Value(text[..i])
        invariant !shape ==> !(|text| == 6 && Decimal.AllDigits(text))
        decreases if shape then 7 - i else 0
      {
        assert text[..i + 1][..i] == text[..i];
        if !Decimal.IsDigit(text[i]) { shape := false; }
        else {
          got := got * 10 + Decimal.DigitValue(text[i]);
          i := i + 1;
        }
      }
      if shape { assert text[..6] == text; }
    }

    /** Writes id, key and name; stops counting at the first failed write. */
    method Store(slot: nat, puts: nat) returns (ok: bool)
      requires Valid() && slot < PAIRED_MAX
      modifies this`nvs
      ensures ok <==> puts >= 3
      ensures |nvs| == PAIRED_MAX && nvs == old(nvs)[slot := nvs[slot]]
      ensures ok ==> nvs[slot] == Stored(Some(paired[slot].id), Some(paired[slot].key), Some(paired[slot].name))
    {
      ok := puts >= 1;
      if ok { nvs := nvs[slot := nvs[slot].(id := Some(paired[slot].id))]; }
      ok := ok && puts >= 2;
      if ok { nvs := nvs[slot := nvs[slot].(key := Some(paired[slot].key))]; }
      ok := ok && puts >= 3;
      if ok { nvs := nvs[slot := nvs[slot].(name := Some(paired[slot].name))]; }
    }

    method Forget(slot: nat)
      requires Valid() && slot < PAIRED_MAX
      modifies this`nvs, paired
      ensures Valid()
      ensures State() == old(State()).(nvs := old(nvs)[slot := ERASED], paired := old(paired[..])[slot := EMPTY])
    {
      nvs := nvs[slot := nvs[slot].(id := None)];
      nvs := nvs[slot := nvs[slot].(key := None)];
      nvs := nvs[slot := nvs[slot].(name := None)];
      paired[slot] := EMPTY;
      assert paired[..] == old(paired[..])[slot := EMPTY];
    }

    method KeepAt(pi: nat, slot: nat, puts: nat) returns (r: Reply)
      requires Valid() && pi < PENDING_MAX && slot < PAIRED_MAX
      modifies this`nvs, pending, paired
      ensures Valid() && (State(), r) == Keep(old(State()), pi, slot, puts)
    {
      var p := pending[pi];
      paired[slot] := Entry(true, p.id, p.name, p.key);
      assert paired[..] == old(paired[..])[slot := paired[slot]];
      var stored := Store(slot, puts);
      pending[pi] := WIPED;
      assert pending[..] == old(pending[..])[pi := WIPED];
      if !stored {
        Forget(slot);
        assert nvs == old(nvs)[slot := ERASED];
        assert paired[..] == old(paired[..])[slot := EMPTY];
        return Refused(Failed);
      }
      r := Standing(SPaired, 0, 0);
    }

    method OnCode(id: Blob, pinSet: bool, text: string, puts: nat) returns (r: Reply)
      requires Valid() && text != []
      modifies this`nvs, pending, paired
      ensures Valid() && (State(), r) == TypeCode(old(State()), id, pinSet, text, puts)
    {
      if !pinSet { return Refused(PinRequired); }
      var pi := SeekPending(id);
      if pi < 0 { return Refused(NotFound); }
      var p := pending[pi];
      if p.phase != CodeShown { return Refused(NotReady); }
      var shape, got := ReadCode(text);
      if !shape || got != p.code {
        pending[pi] := AfterWrong(p, Millis(now));
        assert pending[..] == old(pending[..])[pi := pending[pi]];
        return Refused(if p.tries + 1 >= CODE_TRIES then AbortedNow else WrongCode);
      }
      var slot := SeekPaired(id);
      if slot < 0 { slot := SeekFreeEntry(); }
      if slot < 0 { return Refused(Full); }
      r := KeepAt(pi, slot, puts);
    }

    method OnUnpair(id: Blob)
      requires Valid()
      modifies this`nvs, pending, paired
      ensures Valid() && State() == Unpair(old(State()), id)
    {
      var i := SeekPaired(id);
      var pi := SeekPending(id);
      if pi >= 0 {
        pending[pi] := WIPED;
        assert pending[..] == old(pending[..])[pi := WIPED];
      }
      if i >= 0 { Forget(i); }
    }

    method OnTick()
      requires Valid()
      modifies this`lastTick, pending
      ensures Valid() && State() == Tick(old(State()))
    {
      if Since(Millis(now), lastTick) < TICK_MS { return; }
      lastTick := Millis(now);
      ghost var was := pending[..];
      ghost var goal := Tick(old(State())).pending;
      for i := 0 to pending.Length
        invariant pending.Length == PENDING_MAX && unchanged(paired) && lastTick == Millis(now)
        invariant forall j :: 0 <= j < i ==> pending[j] == goal[j]
        invariant forall j :: i <= j < pending.Length ==> pending[j] == was[j]
      {
        assert was[i].at < WRAP;
        if Expired(pending[i], Millis(now)) { pending[i] := WIPED; }
      }
      assert pending[..] == goal;
    }

    /** A start: everything in memory is wiped, then flash is read slot by slot. */
    method OnRestart()
      requires Valid()
      modifies this, pending, paired
      ensures Valid() && State() == Restart(old(State()))
      ensures pending == old(pending) && paired == old(paired)
    {
      now, lastTick := 0, 0;
      for i := 0 to pending.Length
        invariant pending.Length == PENDING_MAX && unchanged(this`nvs) && unchanged(this`pending) && unchanged(this`paired)
        invariant now == lastTick == 0
        invariant forall j :: 0 <= j < i ==> pending[j] == WIPED
      {
        pending[i] := WIPED;
      }
      for i := 0 to paired.Length
        invariant paired.Length == PAIRED_MAX && |nvs| == PAIRED_MAX && unchanged(this`nvs)
        invariant unchanged(this`pending) && unchanged(this`paired) && now == lastTick == 0
        invariant forall j :: 0 <= j < pending.Length ==> pending[j] == WIPED
        invariant forall j :: 0 <= j < i ==> paired[j] == LoadSlot(nvs[j])
      {
        paired[i] := EMPTY;
        if nvs[i].id.Some? && nvs[i].key.Some? {
          var n := if nvs[i].name.Some? then nvs[i].name.value else "Computer";
          paired[i] := Entry(true, nvs[i].id.value, if |n| > NAME_MAX then n[..NAME_MAX] else n, nvs[i].key.value);
        }
      }
      assert pending[..] == Start().pending;
      assert paired[..] == Load(nvs);
    }

    method OnWipe()
      requires Valid()
      modifies this`nvs, pending, paired
      ensures Valid() && State() == WipeAll(old(State()))
    {
      nvs := seq(PAIRED_MAX, _ => ERASED);
      for i := 0 to pending.Length
        invariant pending.Length == PENDING_MAX && paired.Length == PAIRED_MAX
        invariant nvs == seq(PAIRED_MAX, _ => ERASED)
        invariant forall j :: 0 <= j < i ==> pending[j] == WIPED && paired[j] == EMPTY
      {
        paired[i] := EMPTY;
        pending[i] := WIPED;
      }
      assert pending[..] == Start().pending && paired[..] == Start().paired && nvs == Start().nvs;
    }
  }
}
