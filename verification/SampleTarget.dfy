/** Small targets that meet what is asked of the targets of trace and stack. */
module SampleTarget {
  import opened Words
  import opened Machine
  import opened Ptrace
  import opened Breakpoints
  import opened Selection
  import opened Schedule
  import TraceEngine

  function Zeros(from: int, n: nat): (m: Memory)
    ensures forall k :: k in m <==> from <= k < from + n
    ensures forall k :: k in m ==> m[k] == 0
  {
    if n == 0 then map[] else Zeros(from, n - 1)[from + n - 1 := 0]
  }

  function Stack(): Memory {
    Zeros(1000, 8)[1000 := 32]
  }

  function Jumped(cpu: Cpu, to: int): Cpu {
    cpu.(regs := cpu.regs.(pc := Wrap(to), sp := Wrap(cpu.regs.sp + 8)))
  }

  // A function at 16 whose one instruction returns to 32; the stack, at 1000, is one word deep.
  function Target(): Program {
    Program(Isa((s: seq<Byte>) => 1, (s: seq<Byte>, cpu: Cpu, to: int) => Jumped(cpu, to), (sig: nat, cpu: Cpu) => cpu),
            Zeros(16, 32),
            Cpu(Regs(16, 1000, 0, 0, 0), Stack()),
            [Instr(32), Instr(33)])
  }

  lemma WordOf32(text: Memory, data: Memory, a: int)
    requires forall k :: a <= k < a + 8 ==> k in data && k !in text && data[k] == if k == a then 32 else 0
    ensures PeekWord(text, data, a) == Some(32)
  {
    assert Load(text, data, a + 8, 0) == 0;
    assert Load(text, data, a + 7, 1) == 0;
    assert Load(text, data, a + 6, 2) == 0;
    assert Load(text, data, a + 5, 3) == 0;
    assert Load(text, data, a + 4, 4) == 0;
    assert Load(text, data, a + 3, 5) == 0;
    assert Load(text, data, a + 2, 6) == 0;
    assert Load(text, data, a + 1, 7) == 0;
    assert Load(text, data, a, 8) == 32;
  }

  lemma TopOfStack(text: Memory)
    requires text == Zeros(16, 32)
    ensures PeekWord(text, Stack(), 1000) == Some(32)
  {
    hide PeekWord;
    WordOf32(text, Stack(), 1000);
  }

  lemma TargetRun()
    ensures var p := Target();
            && Replay(p, 0) == p.start && Replay(p, 1).regs == Regs(32, 1008, 0, 0, 0)
            && ReturnAddress(p, 0) == Some(32)
            && forall a, n :: Hit(p, a, n) <==> (n == 0 && a == 16) || (n == 1 && a == 32)
  {
    hide PeekWord, Zeros, Stack;
    TopOfStack(Target().text);
  }

  /** The function is entered and returns, and every address patched on the way may be patched. */
  lemma ObservableTargetsExist()
    ensures Observable(Target(), 16) && ReturnsAt(Target(), 0, 1)
  {
    hide Load, Replay, ReturnAddress, PeekWord, Stack;
    TargetRun();
  }

  // ----- left one byte behind -----

  // The first request of the loop continues the target, which arrives at the entry at once.
  lemma FirstMove(plan: Plan, turn: Turn, k: nat)
    requires plan.p == Target() && plan.entry == 16 && !plan.fates(k) && turn.moves == 1
    ensures var c := Continued(plan, Outset(plan, k));
            && c == Outset(plan, k).(run := Running, asked := k + 1)
            && Waited(plan, c, turn) == c.(run := Stopped(AtTrap, turn.inTime))
            && Drifted(plan, c, 1) == c.(run := Stopped(AtTrap, false))
  {
    hide Replay, ReturnAddress, Stack, Hit;
    TargetRun();
    assert Ahead(Target(), 16, 0, 1) == Halt(0, Trapped);
  }

  /** A stop that comes too late for the loop, or is not reported in time, leaves the target, let go of, one byte
      behind the breakpoint. */
  lemma LateStopIsMissed(plan: Plan, k: nat)
    requires plan.p == Target() && plan.entry == 16 && plan.count > 0 && !plan.fates(k)
    ensures Ending(plan, [Turn(false, false, true, 0, false)], 1, k).run == Stopped(AtTrap, false)
    ensures Ending(plan, [Turn(false, false, false, 1, false)], 0, k).run == Stopped(AtTrap, false)
  {
    hide Replay, ReturnAddress, Stack, Hit, Ahead, StopThrow;
    FirstMove(plan, Turn(false, false, false, 1, false), k);
  }

  lemma RefusedRegistersEnd(plan: Plan, turn: Turn, k: nat)
    requires plan.p == Target() && plan.entry == 16 && plan.count > 0 && !plan.fates(k) && plan.fates(k + 1)
    requires turn == Turn(false, false, false, 1, true)
    ensures Ending(plan, [turn], 0, k)
              == Outset(plan, k).(run := Stopped(AtTrap, true), asked := k + 1,
                                  threw := Some(Throw(GettingRegs, k + 1)))
  {
    hide Replay, ReturnAddress, Stack, Hit, Ahead;
    FirstMove(plan, turn, k);
  }

  /** Under trace, when only PTRACE_GETREGS is refused at the first stop: the command throws and lets go of the
      target with the program counter inside the instruction it was about to execute. */
  method RefusedRegistersLeaveOneBehind(clock: nat -> U64) returns (p: Tracee)
    ensures fresh(p) && p.program == Target() && p.state == Released(0) && p.pos == 0
    ensures p.text == Target().text
    ensures p.cpu == OneBehind(Replay(Target(), 0)) && p.cpu.regs.pc == 17 && Replay(Target(), 0).regs.pc == 16
  {
    hide Replay, ReturnAddress, Stack, Hit, Ahead, Observable, Ending;
    ObservableTargetsExist();
    TargetRun();
    var turn := Turn(false, false, false, 1, true);
    p := new Tracee(Target(), (k: nat) => k == 4, clock);
    RefusedRegistersEnd(TraceEngine.TracePlan(p, 16, 1), turn, 3);
    var r, left, threw := TraceEngine.Trace(p, "f", 16, 1, 1, true, [turn], 0);
  }

  // ----- recursion -----

  // An instruction that goes to input / 10000 and leaves the stack pointer at input % 10000.
  function Landed(cpu: Cpu, input: int): Cpu {
    cpu.(regs := cpu.regs.(pc := Wrap(input / 10000), sp := Wrap(input % 10000)))
  }

  function TwoReturns(): Memory {
    Zeros(992, 16)[992 := 32][1000 := 32]
  }

  /** A function at 16 that calls itself from a call site whose return address is 32. It is about to be
      entered from that call site, calls itself once more, and both calls return to 32. */
  function Recursive(): Program {
    Program(Isa((s: seq<Byte>) => 1, (s: seq<Byte>, cpu: Cpu, input: int) => Landed(cpu, input),
                (sig: nat, cpu: Cpu) => cpu),
            Zeros(16, 32),
            Cpu(Regs(16, 1000, 0, 0, 0), TwoReturns()),
            [Instr(160992), Instr(321000), Instr(321008), Instr(331008)])
  }

  lemma RecursiveSteps()
    ensures var p := Recursive();
            && Replay(p, 0).regs == Regs(16, 1000, 0, 0, 0) && Replay(p, 1).regs == Regs(16, 992, 0, 0, 0)
            && Replay(p, 2).regs == Regs(32, 1000, 0, 0, 0) && Replay(p, 3).regs == Regs(32, 1008, 0, 0, 0)
            && Replay(p, 0).data == Replay(p, 1).data == TwoReturns()
  {
    hide TwoReturns, Zeros, Fetch, Instruction;
    var p := Recursive();
    assert Replay(p, 1) == Landed(p.start, 160992);
    assert Replay(p, 2) == Landed(Replay(p, 1), 321000);
    assert Replay(p, 3) == Landed(Replay(p, 2), 321008);
  }

  lemma RecursiveRun()
    ensures var p := Recursive();
            && ReturnAddress(p, 0) == Some(32) && ReturnAddress(p, 1) == Some(32)
            && (forall a, n :: Hit(p, a, n) <==> (a == 16 && 0 <= n <= 1) || (a == 32 && 2 <= n <= 3))
  {
    hide PeekWord, Replay;
    RecursiveSteps();
    WordOf32(Recursive().text, TwoReturns(), 1000);
    WordOf32(Recursive().text, TwoReturns(), 992);
  }

  lemma RecursiveIsObservable()
    ensures Observable(Recursive(), 16)
  {
    hide Load, Replay, ReturnAddress, PeekWord, TwoReturns, Fetch;
    RecursiveRun();
    RecursiveSteps();
    OneByteEach();
  }

  lemma OneByteEach()
    ensures forall pc :: |Instruction(Recursive().isa, Recursive().text, pc)| <= 1
  {
    hide TwoReturns;
  }

  /** Recursion through one call site: the calls are selected as they should be, yet the entry of the
      outer call is paired with the return of the inner one. */
  lemma RecursionIsMispaired(t0: U64, t1: U64)
    ensures var p, log := Recursive(), [Reading(0, t0), Reading(2, t1)];
            && Observable(p, 16) && Selects(p, 16, log)
            && ReturnsAt(p, 0, 3) && ReturnsAt(p, 1, 2) && !ReturnsAt(p, log[0].pos, log[1].pos)
  {
    hide Load, Replay, ReturnAddress, PeekWord, TwoReturns, Fetch, Observable;
    RecursiveIsObservable();
    RecursiveRun();
    RecursiveSteps();
  }
}
