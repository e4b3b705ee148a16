/** Letting a target with one breakpoint run: what both tracing loops do between their stops. */
module Stepping {
  import opened Words
  import opened Machine
  import opened Ptrace
  import opened Breakpoints
  import opened Schedule

  // The only breakpoint is at a.
  ghost predicate PatchedAt(p: Tracee, a: int)
    reads p
  {
    p.Valid() && p.text == Planted(p.program.text, a)
  }

  // The target is where the untraced run is, and the breakpoint at an address that may be patched.
  ghost predicate Exact(p: Tracee, entry: int, a: int)
    reads p
  {
    p.Valid() && PatchTarget(p.program, entry, a) && p.cpu == Replay(p.program, p.pos)
  }

  // It has run into the breakpoint.
  ghost predicate Behind(p: Tracee, entry: int, a: int)
    reads p
  {
    && p.Valid() && PatchTarget(p.program, entry, a)
    && Hit(p.program, a, p.pos) && p.cpu == BehindBreakpoint(p.program, a, p.pos)
  }

  /** Let the target run until it stops. A stop at a signal or at the breakpoint leaves it where the
      untraced run is, but for the program counter behind the breakpoint. */
  method Await(p: Tracee, ghost entry: int, ghost a: U64, turn: Turn) returns (status: WaitStatus)
    requires PatchedAt(p, a) && (p.state.Running? || p.state.Exited?)
    requires Observable(p.program, entry) ==> Exact(p, entry, a)
    modifies p`cpu, p`pos, p`state, p`reports, p`misused
    ensures p.Valid() && p.misused == old(p.misused)
    ensures p.reports == old(p.reports) + if status.StoppedBy? then 1 else 0
    ensures status.StoppedBy? ==>
              turn.inTime && p.state.Stopped? && p.state.reaped && status.sig == StopSignal(p.state.stop)
    ensures !status.StoppedBy? ==> !(p.state.Stopped? && p.state.reaped)
    ensures p.state.Stopped? ==> p.state.stop != AtAttach
    ensures InHand(p.state)
    ensures Observable(p.program, entry) ==>
              && (if TrapPending(p.state) then Behind(p, entry, a) else Exact(p, entry, a))
              && old(p.pos) <= p.pos && NoHit(p.program, a, old(p.pos), p.pos)
              && (status.StoppedBy? ==> (status.sig == SIGTRAP <==> p.state.stop.AtTrap?))
    ensures !old(p.state).Running? ==> p.pos == old(p.pos) && p.state == old(p.state)
    ensures Observable(p.program, entry) && old(p.state).Running? ==>
              var h := Ahead(p.program, a, old(p.pos), turn.moves);
              p.pos == h.pos && p.state == if turn.inTime then Reaped(AfterPause(h.pause)) else AfterPause(h.pause)
  {
    hide Observable, PatchTarget, Advance, Ahead;
    if Observable(p.program, entry) {
      AdvanceObserved(p.program, entry, a, p.pos, turn.moves);
      AdvanceScheduled(p.program, entry, a, p.pos, turn.moves);
    }
    status := p.Wait(turn.moves, turn.inTime);
  }

  // Deliver the signal at which the target has stopped.
  method Forward(p: Tracee, ghost entry: int, ghost a: U64, sig: nat)
    requires PatchedAt(p, a) && p.state.Stopped? && sig == StopSignal(p.state.stop)
    requires Observable(p.program, entry) ==> Exact(p, entry, a) && p.state.stop.AtSignal?
    modifies p`cpu, p`pos, p`state, p`misused, p`requests
    ensures p.Valid() && p.misused == old(p.misused) && p.requests == old(p.requests) + 1
    ensures p.state == if p.fates(old(p.requests)) then Exited else Running
    ensures Observable(p.program, entry) ==>
              && Exact(p, entry, a) && old(p.pos) <= p.pos && NoHit(p.program, a, old(p.pos), p.pos)
    ensures Observable(p.program, entry) && p.state.Running? ==>
              old(p.pos) < |p.program.tape| && p.program.tape[old(p.pos)] == Signal(sig) && p.pos == old(p.pos) + 1
    ensures p.state.Exited? ==> p.pos == old(p.pos)
  {
    hide Observable, PatchTarget, Planted;
    ghost var was := p.pos;
    p.Cont(sig);
    if Observable(p.program, entry) && p.state.Running? {
      SignalIsNoTrap(p.program, entry, was);
    }
  }

  // PTRACE_CONT where it is due.
  method Resume(p: Tracee, ghost entry: int, ghost a: U64, needCont: bool)
    requires PatchedAt(p, a) && needCont == p.state.Stopped? && InHand(p.state)
    requires Observable(p.program, entry) ==> Exact(p, entry, a) && !SignalPending(p.state)
    modifies p`cpu, p`pos, p`state, p`misused, p`requests
    ensures p.Valid() && p.misused == old(p.misused)
    ensures p.state == if !old(p.state).Stopped? then old(p.state)
                       else if p.fates(old(p.requests)) then Exited else Running
    ensures p.requests == old(p.requests) + if needCont then 1 else 0
    ensures Observable(p.program, entry) ==> Exact(p, entry, a) && p.pos == old(p.pos)
  {
    hide Observable, PatchTarget, Planted;
    if needCont {
      p.Cont(0);
    }
  }

  // A target that is left alone for a while.
  method Drift(p: Tracee, ghost entry: int, ghost a: U64, moves: nat)
    requires p.Valid() && (p.state.Running? ==> PatchedAt(p, a)) && InHand(p.state)
    requires Observable(p.program, entry) && p.state.Running? ==> Exact(p, entry, a)
    modifies p`cpu, p`pos, p`state
    ensures p.Valid() && InHand(p.state)
    ensures !old(p.state).Running? || moves == 0 ==>
              p.state == old(p.state) && p.pos == old(p.pos) && p.cpu == old(p.cpu)
    ensures old(p.state).Running? ==> p.state != Stopped(AtAttach, false) && !(p.state.Stopped? && p.state.reaped)
    ensures Observable(p.program, entry) && old(p.state).Running? ==>
              && (if TrapPending(p.state) then Behind(p, entry, a) else Exact(p, entry, a))
              && old(p.pos) <= p.pos && NoHit(p.program, a, old(p.pos), p.pos)
              && var h := Ahead(p.program, a, old(p.pos), moves); p.pos == h.pos && p.state == AfterPause(h.pause)
    ensures Observable(p.program, entry) && SignalPending(p.state) ==> p.state.stop.sig != 0
  {
    hide Observable, PatchTarget;
    if Observable(p.program, entry) && p.state.Running? {
      AdvanceObserved(p.program, entry, a, p.pos, moves);
      AdvanceScheduled(p.program, entry, a, p.pos, moves);
    }
    p.Elapse(moves);
    if Observable(p.program, entry) && SignalPending(p.state) {
      SignalIsNoTrap(p.program, entry, p.pos);
    }
  }
}
