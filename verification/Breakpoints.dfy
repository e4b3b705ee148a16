/** Planting and removing software breakpoints in a traced process. */
module Breakpoints {
  import opened Words
  import opened Machine
  import opened Ptrace

  ghost predicate WindowInText(text: Memory, a: int) {
    forall k :: InWindow(a, k) ==> k in text
  }

  /** Where a command left by exception. Reserving: there is no room for a negative number of results.
      InLoop.guardOk: every write of the guard took effect. */
  datatype Site = Attaching | Reserving | Arming | InLoop(guardOk: bool) | CleaningUp

  datatype Outcome<+T> = Returned(value: T) | Threw(site: Site)

  /** The requests of a loop that throw. Restoring: the write that takes a breakpoint out; Planting: the
      first breakpoint at a return address, before the target is set back; Rearming: any breakpoint
      after it has been set back. */
  datatype Request = GettingRegs | Restoring | ReadingReturn | Planting | SettingRegs | Rearming

  // The request that threw, and its number.
  datatype Throw = Throw(request: Request, number: nat)

  // Which request throws while a breakpoint is planted behind a target set back, from number k on.
  function PatchThrow(fates: nat -> bool, k: nat): Option<Throw> {
    if fates(k) then Some(Throw(Rearming, k))
    else if fates(k + 1) then Some(Throw(Rearming, k + 1))
    else None
  }

  // Which one throws while the target is set back and the entry patched.
  function SetBackThrow(fates: nat -> bool, k: nat): Option<Throw> {
    if fates(k) then Some(Throw(SettingRegs, k)) else PatchThrow(fates, k + 1)
  }

  // Which one throws in the return branch of either command.
  function ReturnThrow(fates: nat -> bool, k: nat): Option<Throw> {
    if fates(k) then Some(Throw(Restoring, k)) else SetBackThrow(fates, k + 1)
  }

  // Which one throws under trace between the restored entry and the patched return address.
  function PlantThrow(fates: nat -> bool, k: nat, readable: bool): Option<Throw> {
    if fates(k) || !readable then Some(Throw(ReadingReturn, k))
    else if fates(k + 1) then Some(Throw(Planting, k + 1))
    else if fates(k + 2) then Some(Throw(Planting, k + 2))
    else if fates(k + 3) then Some(Throw(SettingRegs, k + 3))
    else None
  }

  // Which one throws in the entry branch of trace.
  function EntryThrow(fates: nat -> bool, k: nat, readable: bool): Option<Throw> {
    if fates(k) then Some(Throw(Restoring, k)) else PlantThrow(fates, k + 1, readable)
  }

  // Which one throws in the entry branch of stack; m: the first request behind the sample.
  function SampleThrow(fates: nat -> bool, k: nat, last: bool, m: nat): Option<Throw> {
    if fates(k) then Some(Throw(Restoring, k))
    else if fates(k + 1) then Some(Throw(SettingRegs, k + 1))
    else if last then None
    else PatchThrow(fates, m + 1)
  }

  /** In either branch of stack the target has not been set back, where an exception finds it, exactly if the
      write of the saved word or that of the registers is refused. */
  lemma SetBackUnlessRefused(fates: nat -> bool, k: nat, last: bool, m: nat)
    ensures forall t :: t in {ReturnThrow(fates, k), SampleThrow(fates, k, last, m)} ==>
              && (t.Some? && !t.value.request.Rearming? <==> fates(k) || fates(k + 1))
              && (t.Some? ==> fates(t.value.number))
  {
  }

  /** What the clock and the rest of the world do in one round of a tracing loop: whether a stop
      was requested, whether the deadline has passed at the top or just before the wait, how many
      moves the target makes during the wait, and whether the wait reports its stop in time. */
  datatype Turn = Turn(stop: bool, late: bool, lateToWait: bool, moves: nat, inTime: bool)

  // Attached, and the stop of the attach is over.
  predicate InHand(state: RunState) {
    state.Running? || state.Stopped? || state.Exited?
  }

  predicate TrapPending(state: RunState) {
    state.Stopped? && state.stop.AtTrap?
  }

  predicate SignalPending(state: RunState) {
    state.Stopped? && state.stop.AtSignal?
  }

  // The deadline passes in the first round, when the target has been continued.
  predicate LateOnceContinued(turns: seq<Turn>) {
    turns != [] && !turns[0].stop && !turns[0].late && turns[0].lateToWait
  }

  // After k rounds there was a reason not to go on waiting: the turns end at the deadline.
  predicate Excused(turns: seq<Turn>, k: int) {
    k == |turns| || (0 <= k < |turns| && (turns[k].stop || turns[k].late || turns[k].lateToWait))
  }

  // The round with this turn, if it is reached, reports no stop.
  predicate ReportsNone(turn: Turn) {
    turn.stop || turn.late || turn.lateToWait || !turn.inTime
  }

  // No more stops are reported than there are rounds before the first one that reports none.
  predicate ReportsWithin(turns: seq<Turn>, reports: int) {
    forall k :: 0 <= k < |turns| && ReportsNone(turns[k]) ==> reports <= k
  }

  // There is nothing to do, or no time or leave to do it.
  predicate OverAtOnce(turns: seq<Turn>, count: int) {
    count == 0 || turns == [] || turns[0].stop || turns[0].late
  }

  lemma WindowReadable(text: Memory, data: Memory, a: int, b: int)
    requires WindowInText(text, a)
    ensures PeekWord(text, data, a).Some? && PeekWord(Planted(text, b), data, a).Some?
  {
    assert forall k :: a <= k < a + 8 ==>
             InWindow(a, k) && Mapped(text, data, k) && Mapped(Planted(text, b), data, k);
  }

  /** insert_breakpoint into the original text: the word that was there, or None where the
      original throws. */
  method InsertBreakpoint(p: Tracee, a: U64) returns (orig: Option<U64>)
    requires p.Valid() && p.text == p.program.text
    modifies p`requests, p`misused, p`text, p`cpu
    ensures p.Valid() && p.requests > old(p.requests)
    ensures p.state.Stopped? ==> p.misused == old(p.misused)
    ensures p.cpu.regs == old(p.cpu).regs
    ensures orig.Some? ==>
              && Saved(p.program.text, a, orig.value) && p.text == Planted(p.program.text, a)
              && p.requests == old(p.requests) + 2
    ensures orig.None? ==> p.text == p.program.text && p.cpu == old(p.cpu)
    ensures WindowInText(p.program.text, a) ==> p.cpu == old(p.cpu)
    ensures WindowInText(p.program.text, a) && p.state.Stopped? ==>
              && (orig.None? <==> p.fates(old(p.requests)) || p.fates(old(p.requests) + 1))
              && p.requests == old(p.requests) + if p.fates(old(p.requests)) then 1 else 2
  {
    if WindowInText(p.program.text, a) {
      WindowReadable(p.text, p.cpu.data, a, a);
    }
    var w := p.Peek(a);
    if w.None? {
      return None;
    }
    PeekSaves(p.text, p.cpu.data, a);
    PatchPlants(p.text, p.cpu.data, a);
    if forall k :: InWindow(a, k) ==> k in p.text {
      PokeSparesData(p.text, p.cpu.data, a, MakePatchedWord(w.value));
    }
    var ok := p.Poke(a, MakePatchedWord(w.value));
    assert p.requests == old(p.requests) + 2;
    orig := if ok then w else None;
  }

  /** restore_word, with the word saved from the original text, while the only breakpoint, if
      any, is at b: false where the original throws. */
  method RestoreWord(p: Tracee, a: U64, orig: U64, ghost b: int) returns (ok: bool)
    requires p.Valid() && Saved(p.program.text, a, orig)
    requires p.text == Planted(p.program.text, b) || p.text == p.program.text
    modifies p`requests, p`misused, p`text, p`cpu
    ensures p.Valid() && p.requests == old(p.requests) + 1
    ensures p.misused == (old(p.misused) || (!p.state.Stopped? && !p.state.Exited?))
    ensures p.cpu.regs == old(p.cpu).regs
    ensures p.text == if ok && InWindow(a, b) then p.program.text else old(p.text)
    ensures ok ==> p.state.Stopped? && (a == b ==> p.text == p.program.text)
    ensures !ok || WindowInText(p.program.text, a) ==> p.cpu == old(p.cpu)
    ensures WindowInText(p.program.text, a) ==> ok == (p.state.Stopped? && !p.fates(old(p.requests)))
  {
    PokeRestores(p.program.text, b, a, orig);
    PokeKeepsSaved(p.program.text, a, orig);
    if forall k :: InWindow(a, k) ==> k in p.text {
      PokeSparesData(p.text, p.cpu.data, a, orig);
      assert forall k :: a <= k < a + 8 ==> InWindow(a, k) && k in p.text;
    } else {
      assert !WindowInText(p.program.text, a);
    }
    ok := p.Poke(a, orig);
  }

  // Which exception keeps a command from its loop, if its first request is number k.
  function Barred(fates: nat -> bool, k: nat, count: int, attachMoves: nat, stopsInTime: bool): Option<Site> {
    if fates(k) || attachMoves == 0 || !stopsInTime then Some(Attaching)
    else if count < 0 then Some(Reserving)
    else if fates(k + 1) || fates(k + 2) then Some(Arming)
    else None
  }

  // In which run state that exception leaves the target.
  function BarredState(fates: nat -> bool, k: nat, attachMoves: nat, site: Site): RunState {
    if !site.Attaching? then Stopped(AtAttach, true)
    else if fates(k) then Released(0)
    else if attachMoves == 0 then Arriving
    else LetGo(fates(k + 1), Stopped(AtAttach, false))
  }

  /** Attach, wait for the stop, make room for the results, and plant the first breakpoint: the word
      that was there. */
  method Arm(p: Tracee, entry: U64, count: int, attachMoves: nat, stopsInTime: bool) returns (r: Outcome<U64>)
    requires p.Valid() && p.state == Released(0) && p.text == p.program.text
    modifies p
    ensures p.Valid() && p.requests >= old(p.requests)
    ensures p.misused == (old(p.misused) || p.state.Arriving?)
    ensures p.state.Arriving? <==> attachMoves == 0 && !p.fates(old(p.requests))
    ensures r == Threw(Attaching) ==> p.state in {Released(0), Arriving, Exited}
    ensures r == Threw(Reserving) ==> count < 0
    ensures p.reports <= old(p.reports) + 1
    ensures p.cpu.regs == old(p.cpu).regs && p.pos == old(p.pos) && p.readings == old(p.readings)
    ensures r.Returned? ==>
              && p.state == Stopped(AtAttach, true)
              && p.reports == old(p.reports) + 1 && p.requests == old(p.requests) + 3
              && Saved(p.program.text, entry, r.value) && p.text == Planted(p.program.text, entry) && count >= 0
    ensures r.Threw? ==>
              && r.site in {Attaching, Reserving, Arming} && p.text == p.program.text
              && p.state == BarredState(p.fates, old(p.requests), attachMoves, r.site)
    ensures r == Threw(Attaching) || r == Threw(Reserving) ==> p.cpu == old(p.cpu)
    ensures var barred := Barred(p.fates, old(p.requests), count, attachMoves, stopsInTime);
            && (r == Threw(Attaching) <==> barred == Some(Attaching))
            && (r == Threw(Reserving) <==> barred == Some(Reserving))
            && (WindowInText(p.program.text, entry) ==> (r == Threw(Arming) <==> barred == Some(Arming)))
    ensures WindowInText(p.program.text, entry) ==> p.cpu == old(p.cpu)
    ensures (&& WindowInText(p.program.text, entry) && attachMoves > 0 && stopsInTime && count >= 0
             && p.Untroubled(old(p.requests))) ==> r.Returned?
  {
    hide Saved, WindowInText;
    var ok := p.Attach();
    if !ok {
      return Threw(Attaching);
    }
    var status := p.Wait(attachMoves, stopsInTime);
    if status.TimedOut? {
      p.Detach();
      return Threw(Attaching);
    }
    if count < 0 {
      return Threw(Reserving);
    }
    var orig := InsertBreakpoint(p, entry);
    r := if orig.Some? then Returned(orig.value) else Threw(Arming);
  }

  // The return address on top of the stack can be patched if it can be read.
  ghost predicate ReturnPatchableIfReadable(text: Memory, data: Memory, sp: U64) {
    var ra := PeekWord(text, data, sp);
    ra.Some? ==> WindowInText(text, ra.value)
  }

  // With the program counter one byte too far.
  function OneBehind(cpu: Cpu): Cpu {
    cpu.(regs := cpu.regs.(pc := Wrap(cpu.regs.pc + 1)))
  }

  /** The state in which an exception out of the loop finds the target, memory included: that of the
      untraced run if the target had been set back, and one byte behind it otherwise. */
  ghost predicate LeftAt(p: Program, pos: nat, cpu: Cpu, threw: Throw) {
    pos <= |p.tape| && cpu == if threw.request.Rearming? then Replay(p, pos) else OneBehind(Replay(p, pos))
  }

  // The two cases exclude each other.
  lemma ExactlyIfSetBack(p: Program, pos: nat, cpu: Cpu, threw: Throw)
    requires LeftAt(p, pos, cpu, threw)
    ensures cpu == Replay(p, pos) <==> threw.request.Rearming?
    ensures cpu.data == Replay(p, pos).data
  {
  }

  // A target behind the breakpoint at a is where the engine looks for it.
  lemma BehindIsFound(p: Program, a: U64, pos: nat, cpu: Cpu)
    requires Hit(p, a, pos) && cpu == BehindBreakpoint(p, a, pos)
    ensures Wrap(cpu.regs.pc - 1) == a
    ensures cpu.data == Replay(p, pos).data && cpu.regs.sp == Replay(p, pos).regs.sp
    ensures cpu.regs.ret == Replay(p, pos).regs.ret && cpu.regs.fp == Replay(p, pos).regs.fp
    ensures cpu.(regs := cpu.regs.(pc := a)) == Replay(p, pos) != cpu
    ensures cpu == OneBehind(Replay(p, pos))
  {
  }

  /** A target let go of goes on as if it had never been stopped, with no signal lost, exactly when its
      last stop was waited for. */
  lemma LetGoInStep(p: Program, a: U64, pos: nat, cpu: Cpu, state: RunState)
    requires state.Stopped? && state != Stopped(AtAttach, false) && pos <= |p.tape|
    requires if TrapPending(state) && !state.reaped then Hit(p, a, pos) && cpu == BehindBreakpoint(p, a, pos)
             else cpu == Replay(p, pos)
    requires SignalPending(state) ==> state.stop.sig != 0 && !state.reaped
    ensures (cpu == Replay(p, pos) && LostBy(state) == 0) <==> state.reaped
  {
    if TrapPending(state) && !state.reaped {
      BehindIsFound(p, a, pos, cpu);
    }
  }

  lemma SignalIsNoTrap(p: Program, entry: int, n: nat)
    requires Observable(p, entry) && n < |p.tape| && p.tape[n].Signal?
    ensures p.tape[n].sig != SIGTRAP && p.tape[n].sig != 0
  {
  }

  lemma PatchTargetIsText(p: Program, entry: int, a: int)
    requires Observable(p, entry) && PatchTarget(p, entry, a)
    ensures WindowInText(p.text, a) && a != 0
  {
    assert PatchableAt(p, a);
  }

  // A running target with a breakpoint at a patch target is where the untraced run is.
  lemma AdvanceObserved(p: Program, entry: int, a: int, pos: nat, n: nat)
    requires Observable(p, entry) && PatchTarget(p, entry, a) && pos <= |p.tape|
    ensures var s := Advance(p, Planted(p.text, a), Replay(p, pos), pos, n);
            && Simulates(p, a, pos, s)
            && (s.pause.Signalled? ==> s.pause.sig != SIGTRAP && s.pause.sig != 0)
  {
    hide Observable, Transparent;
    ObservableIsTransparent(p, entry, a);
    AdvanceSimulates(p, a, pos, n);
    var s := Advance(p, Planted(p.text, a), Replay(p, pos), pos, n);
    if s.pause.Signalled? {
      SignalIsNoTrap(p, entry, s.pos);
    }
  }
}
