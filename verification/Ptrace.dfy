/**
 The target as the kernel shows it to a tracer. Requests that ptrace(2) refuses on a target that
 is not stopped are refused here, and any request may fail besides.
 */
module Ptrace {
  import opened Words
  import opened Machine

  datatype Stop = AtAttach | AtTrap | AtSignal(sig: nat)

  /** Arriving: attached, and the stop that the attach asks for has not happened yet.
      Stopped.reaped: waitpid has reported the stop. Released.lost: the signal that a detach from
      an unreported signal stop threw away, 0 for none. */
  datatype RunState = Arriving | Running | Stopped(stop: Stop, reaped: bool) | Exited | Released(lost: nat)

  datatype WaitStatus = TimedOut | StoppedBy(sig: nat) | Gone

  // A reading of the monotonic clock, and the position of the run at which it was taken.
  datatype Reading = Reading(pos: nat, time: U64)

  class Tracee {
    const program: Program
    const fates: nat -> bool   // which requests fail for reasons of the kernel's own
    const clock: nat -> U64    // what the successive readings of the clock show

    var text: Memory
    var cpu: Cpu
    var pos: nat               // moves of the tape made so far
    var state: RunState
    var requests: nat          // requests made so far
    var readings: seq<Reading>
    var reports: nat           // stops reported by waitpid so far
    var misused: bool          // some request found a live target in the wrong run state

    ghost predicate Valid()
      reads this
    {
      && pos <= |program.tape|
      && (state.Stopped? && state.stop.AtSignal? ==>
            pos < |program.tape| && program.tape[pos] == Signal(state.stop.sig))
    }

    constructor (program: Program, fates: nat -> bool, clock: nat -> U64)
      ensures Valid() && state == Released(0) && !misused && readings == [] && reports == 0
      ensures this.program == program && this.fates == fates && this.clock == clock
      ensures text == program.text && cpu == program.start && pos == 0 && requests == 0
    {
      this.program, this.fates, this.clock := program, fates, clock;
      text, cpu, pos := program.text, program.start, 0;
      state, requests, readings, reports, misused := Released(0), 0, [], 0, false;
    }

    // No request from number `from` on failed for reasons of the kernel's own.
    ghost predicate Untroubled(from: nat)
      reads this
    {
      forall k: nat :: from <= k < requests ==> !fates(k)
    }

    method Fate() returns (fails: bool)
      modifies this`requests
      ensures requests == old(requests) + 1 && fails == fates(old(requests))
    {
      fails := fates(requests);
      requests := requests + 1;
    }

    // The running target makes its next move.
    method Move()
      requires Valid() && state.Running?
      modifies this`cpu, this`pos, this`state
      ensures Valid()
      ensures var s := OneMove(program, text, old(cpu), old(pos));
              cpu == s.cpu && pos == s.pos && state == AfterPause(s.pause)
    {
      if pos == |program.tape| {
        state := Exited;
      } else {
        match program.tape[pos]
        case Signal(sig) =>
          state := Stopped(AtSignal(sig), false);
        case Instr(input) =>
          var pc: int := cpu.regs.pc;
          if pc in text && text[pc] == 0xCC {
            cpu := cpu.(regs := cpu.regs.(pc := Wrap(pc + 1)));
            state := Stopped(AtTrap, false);
          } else {
            cpu := Execute(program.isa, text, cpu, input);
            pos := pos + 1;
          }
      }
    }

    // The target goes on by itself for at most n moves; a stopped target does not move.
    method Elapse(n: nat)
      requires Valid()
      modifies this`cpu, this`pos, this`state
      ensures Valid()
      ensures !old(state).Running? ==> cpu == old(cpu) && pos == old(pos) && state == old(state)
      ensures old(state).Running? ==>
                var s := Advance(program, text, old(cpu), old(pos), n);
                cpu == s.cpu && pos == s.pos && state == AfterPause(s.pause)
    {
      if !state.Running? {
        return;
      }
      hide OneMove;
      ghost var s := Advance(program, text, cpu, pos, n);
      var k := n;
      while k > 0 && state.Running?
        invariant Valid()
        invariant state.Running? ==> s == Advance(program, text, cpu, pos, k)
        invariant !state.Running? ==> s == Situation(cpu, pos, s.pause) && state == AfterPause(s.pause)
      {
        Move();
        k := k - 1;
      }
    }

    // PTRACE_ATTACH. The stop it asks for comes later and consumes nothing of the tape.
    method Attach() returns (ok: bool)
      requires Valid() && state.Released?
      modifies this`requests, this`state
      ensures Valid() && requests == old(requests) + 1 && ok == !fates(old(requests))
      ensures state == if ok then Arriving else old(state)
    {
      var fails := Fate();
      ok := !fails;
      if ok {
        state := Arriving;
      }
    }

    /** PTRACE_CONT, with a signal to deliver or 0. On failure the target has been killed. The signal
        of a signal stop is used up, whether the argument repeats it or not. */
    method Cont(sig: nat)
      requires Valid()
      modifies this`requests, this`state, this`cpu, this`pos, this`misused
      ensures Valid() && requests == old(requests) + 1
      ensures misused == (old(misused) || (!old(state).Stopped? && !old(state).Exited?))
      ensures !old(state).Stopped? ==> state == old(state) && cpu == old(cpu) && pos == old(pos)
      ensures old(state).Stopped? && fates(old(requests)) ==>
                state == Exited && cpu == old(cpu) && pos == old(pos)
      ensures old(state).Stopped? && !fates(old(requests)) ==>
                && state == Running
                && pos == (if old(state).stop.AtSignal? then old(pos) + 1 else old(pos))
                && cpu == (if sig != 0 then program.isa.deliver(sig, old(cpu)) else old(cpu))
    {
      var fails := Fate();
      if !state.Stopped? {
        misused := misused || !state.Exited?;
      } else if fails {
        state := Exited;
      } else {
        if sig != 0 {
          cpu := program.isa.deliver(sig, cpu);
        }
        if state.stop.AtSignal? {
          pos := pos + 1;
        }
        state := Running;
      }
    }

    /** waitpid with a timeout: the target makes at most n moves meanwhile; it may have stopped
        or ended and still not be reported before the caller gives up. The stop of an attach takes
        the target one move to make. */
    method Wait(n: nat, inTime: bool) returns (status: WaitStatus)
      requires Valid()
      modifies this`cpu, this`pos, this`state, this`reports, this`misused
      ensures Valid()
      ensures reports == old(reports) + if status.StoppedBy? then 1 else 0
      ensures misused == (old(misused) || (old(state).Stopped? && old(state).reaped))
      ensures old(state).Running? ==>
                var s := Advance(program, text, old(cpu), old(pos), n);
                && cpu == s.cpu && pos == s.pos
                && state == (if inTime then Reaped(AfterPause(s.pause)) else AfterPause(s.pause))
                && status == (if inTime then Reported(AfterPause(s.pause)) else TimedOut)
      ensures !old(state).Running? ==> cpu == old(cpu) && pos == old(pos)
      ensures old(state).Exited? ==> state == Exited && status == if inTime then Gone else TimedOut
      ensures old(state).Arriving? ==>
                && state == (if n == 0 then Arriving else Stopped(AtAttach, inTime))
                && status == if inTime && n > 0 then StoppedBy(SIGSTOP) else TimedOut
    {
      misused := misused || (state.Stopped? && state.reaped);
      if state.Arriving? && n > 0 {
        state := Stopped(AtAttach, false);
      }
      Elapse(n);
      if !inTime || (state.Stopped? && state.reaped) {
        status := TimedOut;
      } else {
        status := Reported(state);
        reports := reports + if status.StoppedBy? then 1 else 0;
        state := Reaped(state);
      }
    }

    // PTRACE_GETREGS.
    method GetRegs() returns (regs: Option<Regs>)
      requires Valid()
      modifies this`requests, this`misused
      ensures Valid() && requests == old(requests) + 1
      ensures misused == (old(misused) || (!state.Stopped? && !state.Exited?))
      ensures regs == if state.Stopped? && !fates(old(requests)) then Some(cpu.regs) else None
    {
      var fails := Fate();
      misused := misused || (!state.Stopped? && !state.Exited?);
      regs := if state.Stopped? && !fails then Some(cpu.regs) else None;
    }

    // PTRACE_SETREGS.
    method SetRegs(regs: Regs) returns (ok: bool)
      requires Valid()
      modifies this`requests, this`misused, this`cpu
      ensures Valid() && requests == old(requests) + 1
      ensures misused == (old(misused) || (!state.Stopped? && !state.Exited?))
      ensures ok == (state.Stopped? && !fates(old(requests)))
      ensures cpu == if ok then old(cpu).(regs := regs) else old(cpu)
    {
      var fails := Fate();
      misused := misused || (!state.Stopped? && !state.Exited?);
      ok := state.Stopped? && !fails;
      if ok {
        cpu := cpu.(regs := regs);
      }
    }

    // PTRACE_PEEKDATA.
    method Peek(a: U64) returns (w: Option<U64>)
      requires Valid()
      modifies this`requests, this`misused
      ensures Valid() && requests == old(requests) + 1
      ensures misused == (old(misused) || (!state.Stopped? && !state.Exited?))
      ensures w == if state.Stopped? && !fates(old(requests)) then PeekWord(text, cpu.data, a) else None
    {
      var fails := Fate();
      misused := misused || (!state.Stopped? && !state.Exited?);
      w := if state.Stopped? && !fails then PeekWord(text, cpu.data, a) else None;
    }

    // PTRACE_POKEDATA.
    method Poke(a: U64, w: U64) returns (ok: bool)
      requires Valid()
      modifies this`requests, this`misused, this`text, this`cpu
      ensures Valid() && requests == old(requests) + 1
      ensures misused == (old(misused) || (!state.Stopped? && !state.Exited?))
      ensures ok == (state.Stopped? && !fates(old(requests)) && PeekWord(old(text), old(cpu).data, a).Some?)
      ensures text == if ok then PokeText(old(text), a, w) else old(text)
      ensures cpu.regs == old(cpu).regs
      ensures cpu.data == if ok then PokeData(old(text), old(cpu).data, a, w) else old(cpu).data
    {
      var fails := Fate();
      misused := misused || (!state.Stopped? && !state.Exited?);
      ok := state.Stopped? && !fails && PeekWord(text, cpu.data, a).Some?;
      if ok {
        text, cpu := PokeText(text, a, w), cpu.(data := PokeData(text, cpu.data, a, w));
      }
    }

    // PTRACE_DETACH without a signal. On failure a stopped target has been killed.
    method Detach()
      requires Valid()
      modifies this`requests, this`state, this`misused
      ensures Valid() && requests == old(requests) + 1
      ensures misused == (old(misused) || (!old(state).Stopped? && !old(state).Exited?))
      ensures state == LetGo(fates(old(requests)), old(state))
    {
      var fails := Fate();
      misused := misused || (!state.Stopped? && !state.Exited?);
      if state.Stopped? {
        state := if fails then Exited else Released(LostBy(state));
      }
    }

    // CLOCK_MONOTONIC.
    method Now() returns (t: U64)
      modifies this`readings
      ensures t == clock(|old(readings)|)
      ensures readings == old(readings) + [Reading(pos, t)]
    {
      t := clock(|readings|);
      readings := readings + [Reading(pos, t)];
    }
  }

  function AfterPause(pause: Pause): RunState {
    match pause
    case OnTheWay => Running
    case Trapped => Stopped(AtTrap, false)
    case Signalled(sig) => Stopped(AtSignal(sig), false)
    case Ended => Exited
  }

  function StopSignal(stop: Stop): (sig: nat)
    ensures stop.AtTrap? ==> sig == 5
    ensures stop.AtAttach? ==> sig == 19
  {
    match stop
    case AtAttach => SIGSTOP
    case AtTrap => SIGTRAP
    case AtSignal(sig) => sig
  }

  function Reported(state: RunState): WaitStatus {
    match state
    case Stopped(stop, _) => StoppedBy(StopSignal(stop))
    case Exited => Gone
    case _ => TimedOut
  }

  function Reaped(state: RunState): RunState {
    if state.Stopped? then state.(reaped := true) else state
  }

  // What a detach makes of a run state.
  function LetGo(fails: bool, state: RunState): RunState {
    if !state.Stopped? then state else if fails then Exited else Released(LostBy(state))
  }

  // A signal stop that nobody forwarded loses its signal.
  function LostBy(state: RunState): nat {
    if state.Stopped? && state.stop.AtSignal? then state.stop.sig else 0
  }
}
