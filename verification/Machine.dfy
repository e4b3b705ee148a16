/**
 The target: a processor that fetches its instructions from a text, and the run it makes when
 nobody watches it. The instruction set is a parameter.
 */
module Machine {
  import opened Words

  const SIGTRAP: nat := 5
  const SIGSTOP: nat := 19

  // The longest x86_64 instruction.
  const MAX_INSN: nat := 15

  // pc, sp, fp and ret are RIP, RSP, RBP and RAX; rest stands for every other register.
  datatype Regs = Regs(pc: U64, sp: U64, fp: U64, ret: U64, rest: int)

  datatype Cpu = Cpu(regs: Regs, data: Memory)

  /** ilen: length of the instruction that starts a byte sequence. exec: effect of the fetched
      bytes, given what the instruction takes from outside (system call results, other mappings).
      deliver: effect of a signal on the state (death, a handler frame, nothing). */
  datatype Isa = Isa(ilen: seq<Byte> -> nat,
                     exec: (seq<Byte>, Cpu, int) -> Cpu,
                     deliver: (nat, Cpu) -> Cpu)

  datatype Move = Instr(input: int) | Signal(sig: nat)

  /** text: the target's code as the loader left it. start: the state when the tracer attaches.
      tape: what happens to the target from then until it exits. */
  datatype Program = Program(isa: Isa, text: Memory, start: Cpu, tape: seq<Move>)

  // Up to n consecutive text bytes from pc on.
  function Fetch(text: Memory, pc: int, n: nat): (s: seq<Byte>)
    ensures |s| <= n
    decreases n
  {
    if n == 0 || pc !in text then [] else [text[pc]] + Fetch(text, pc + 1, n - 1)
  }

  function Instruction(isa: Isa, text: Memory, pc: int): seq<Byte> {
    var w := Fetch(text, pc, MAX_INSN);
    if isa.ilen(w) <= |w| then w[..isa.ilen(w)] else w
  }

  function Execute(isa: Isa, text: Memory, cpu: Cpu, input: int): Cpu {
    isa.exec(Instruction(isa, text, cpu.regs.pc), cpu, input)
  }

  function Apply(isa: Isa, text: Memory, cpu: Cpu, move: Move): Cpu {
    match move
    case Instr(input) => Execute(isa, text, cpu, input)
    case Signal(sig) => isa.deliver(sig, cpu)
  }

  // The untraced run: the state after the first n moves on the original text.
  function Replay(p: Program, n: nat): Cpu
    requires n <= |p.tape|
  {
    if n == 0 then p.start else Apply(p.isa, p.text, Replay(p, n - 1), p.tape[n - 1])
  }

  // The untraced run is about to execute the instruction at a.
  predicate Hit(p: Program, a: int, n: nat) {
    n < |p.tape| && p.tape[n].Instr? && Replay(p, n).regs.pc == a
  }

  // The word on top of the stack: at a function entry, the return address.
  function ReturnAddress(p: Program, n: nat): Option<U64>
    requires n <= |p.tape|
  {
    PeekWord(p.text, Replay(p, n).data, Replay(p, n).regs.sp)
  }

  // a is an address that the tracer may patch: the entry, or where a call of it returns.
  ghost predicate PatchTarget(p: Program, entry: int, a: int) {
    a == entry || exists n: nat :: Hit(p, entry, n) && ReturnAddress(p, n) == Some(a)
  }

  // The bytes of an instruction determine its length.
  ghost predicate SameLength(isa: Isa, u: seq<Byte>, v: seq<Byte>) {
    isa.ilen(u) <= |u| && isa.ilen(u) <= |v| && u[..isa.ilen(u)] == v[..isa.ilen(u)]
    ==> isa.ilen(v) == isa.ilen(u)
  }

  ghost predicate PrefixDecoded(isa: Isa) {
    forall u: seq<Byte>, v: seq<Byte> :: SameLength(isa, u, v)
  }

  // The instruction executed at position n does not reach over the start of another one at a.
  ghost predicate Unspanned(p: Program, a: int, n: nat)
    requires n <= |p.tape|
  {
    var pc := Replay(p, n).regs.pc;
    !(pc < a < pc + |Instruction(p.isa, p.text, pc)|)
  }

  ghost predicate NoOwnTraps(p: Program) {
    forall n: nat :: n < |p.tape| ==>
      match p.tape[n]
      case Signal(sig) => sig != 5 && sig != 0
      case Instr(_) => var pc := Replay(p, n).regs.pc; pc in p.text ==> p.text[pc] != 0xCC
  }

  ghost predicate PatchableAt(p: Program, a: int) {
    && a != 0
    && (forall k :: InWindow(a, k) ==> k in p.text)
    && (forall n: nat :: n < |p.tape| && p.tape[n].Instr? ==> Unspanned(p, a, n))
  }

  /** What the engine takes for granted about a target: single-threaded by construction, raises
      no SIGTRAP of its own, and every address that gets patched starts an instruction of the
      text and lies inside none that is executed. */
  ghost predicate Observable(p: Program, entry: int) {
    && PrefixDecoded(p.isa)
    && NoOwnTraps(p)
    && forall a :: PatchTarget(p, entry, a) ==> PatchableAt(p, a)
  }

  lemma {:induction false} FetchPlanted(text: Memory, a: int, pc: int, n: nat, m: nat)
    requires a in text
    requires m <= |Fetch(text, pc, n)| && !(pc <= a < pc + m)
    ensures var s, t := Fetch(text, pc, n), Fetch(Planted(text, a), pc, n);
            |t| == |s| && s[..m] == t[..m]
    decreases n
  {
    if n > 0 && pc in text {
      FetchPlanted(text, a, pc + 1, n - 1, if m == 0 then 0 else m - 1);
    }
  }

  // A breakpoint outside the bytes of an instruction does not change what executes.
  lemma PlantedElsewhere(isa: Isa, text: Memory, a: int, pc: int)
    requires PrefixDecoded(isa) && a in text
    requires !(pc <= a < pc + |Instruction(isa, text, pc)|)
    ensures Instruction(isa, Planted(text, a), pc) == Instruction(isa, text, pc)
  {
    var s, t := Fetch(text, pc, MAX_INSN), Fetch(Planted(text, a), pc, MAX_INSN);
    var m := |Instruction(isa, text, pc)|;
    FetchPlanted(text, a, pc, MAX_INSN, m);
    assert SameLength(isa, s, t) && SameLength(isa, t, s);
    assert s[..|s|] == s && t[..|t|] == t;
  }

  // Where the target stands after it has run for a while without being stopped by anybody.
  datatype Pause = OnTheWay | Trapped | Signalled(sig: nat) | Ended

  datatype Situation = Situation(cpu: Cpu, pos: nat, pause: Pause)

  /** The next move on the given text. The byte 0xCC traps with the program counter behind it and uses up
      nothing of the tape; a signal stops the target before it is delivered. */
  function OneMove(p: Program, text: Memory, cpu: Cpu, pos: nat): (s: Situation)
    requires pos <= |p.tape|
    ensures pos <= s.pos <= |p.tape|
    ensures s.pause.Signalled? ==> s.pos < |p.tape| && p.tape[s.pos] == Signal(s.pause.sig)
  {
    if pos == |p.tape| then Situation(cpu, pos, Ended)
    else
      match p.tape[pos]
      case Signal(sig) => Situation(cpu, pos, Signalled(sig))
      case Instr(input) =>
        var pc := cpu.regs.pc;
        if pc in text && text[pc] == 0xCC then
          Situation(cpu.(regs := cpu.regs.(pc := Wrap(pc + 1))), pos, Trapped)
        else
          Situation(Execute(p.isa, text, cpu, input), pos + 1, OnTheWay)
  }

  // At most n moves, up to whatever stops the target.
  function Advance(p: Program, text: Memory, cpu: Cpu, pos: nat, n: nat): (s: Situation)
    requires pos <= |p.tape|
    ensures pos <= s.pos <= |p.tape|
    ensures s.pause.Signalled? ==> s.pos < |p.tape| && p.tape[s.pos] == Signal(s.pause.sig)
    decreases n
  {
    if n == 0 then Situation(cpu, pos, OnTheWay)
    else
      var s := OneMove(p, text, cpu, pos);
      if s.pause.OnTheWay? then Advance(p, text, s.cpu, s.pos, n - 1) else s
  }

  ghost predicate NoHit(p: Program, a: int, from: nat, upTo: nat) {
    forall q: nat :: from <= q < upTo ==> !Hit(p, a, q)
  }

  // The state right after the breakpoint at a has fired at position n.
  function BehindBreakpoint(p: Program, a: int, n: nat): Cpu
    requires n <= |p.tape|
  {
    var cpu := Replay(p, n);
    cpu.(regs := cpu.regs.(pc := Wrap(a + 1)))
  }

  // A breakpoint at a changes nothing about the instruction executed at position n, unless that
  // is the instruction at a.
  ghost predicate StepAgrees(p: Program, a: int, n: nat)
    requires n < |p.tape| && p.tape[n].Instr?
  {
    var text, cpu := Planted(p.text, a), Replay(p, n);
    cpu.regs.pc != a ==>
      && (cpu.regs.pc in text ==> text[cpu.regs.pc] != 0xCC)
      && Execute(p.isa, text, cpu, p.tape[n].input) == Replay(p, n + 1)
  }

  ghost predicate Transparent(p: Program, a: int) {
    && a in p.text
    && forall n: nat :: n < |p.tape| && p.tape[n].Instr? ==> StepAgrees(p, a, n)
  }

  lemma ObservableIsTransparent(p: Program, entry: int, a: int)
    requires Observable(p, entry) && PatchTarget(p, entry, a)
    ensures Transparent(p, a)
  {
    assert PatchableAt(p, a);
    assert InWindow(a, a);
    forall n: nat | n < |p.tape| && p.tape[n].Instr?
      ensures StepAgrees(p, a, n)
    {
      var pc := Replay(p, n).regs.pc;
      if pc != a {
        assert Unspanned(p, a, n);
        PlantedElsewhere(p.isa, p.text, a, pc);
      }
    }
  }

  // From position `from` on, the situation is one of the untraced run, except that a target that
  // has trapped is one byte behind the breakpoint.
  ghost predicate Simulates(p: Program, a: int, from: nat, s: Situation)
    requires s.pos <= |p.tape|
  {
    && NoHit(p, a, from, s.pos)
    && (if s.pause == Trapped then Hit(p, a, s.pos) && s.cpu == BehindBreakpoint(p, a, s.pos)
        else s.cpu == Replay(p, s.pos))
  }

  lemma MoveSimulates(p: Program, a: int, pos: nat)
    requires Transparent(p, a) && pos <= |p.tape|
    ensures Simulates(p, a, pos, OneMove(p, Planted(p.text, a), Replay(p, pos), pos))
  {
    hide Execute;
    if pos < |p.tape| && p.tape[pos].Instr? {
      assert StepAgrees(p, a, pos);
      assert Replay(p, pos).regs.pc != a ==> !Hit(p, a, pos);
    }
  }

  /** Running on a text with one breakpoint is running on the original text: no move differs, and
      the target traps at the breakpoint exactly when the untraced run gets there. */
  lemma {:induction false} AdvanceSimulates(p: Program, a: int, pos: nat, n: nat)
    requires Transparent(p, a) && pos <= |p.tape|
    ensures Simulates(p, a, pos, Advance(p, Planted(p.text, a), Replay(p, pos), pos, n))
    decreases n
  {
    hide OneMove, Transparent, BehindBreakpoint, Hit;
    if n > 0 {
      var s := OneMove(p, Planted(p.text, a), Replay(p, pos), pos);
      MoveSimulates(p, a, pos);
      if s.pause.OnTheWay? {
        AdvanceSimulates(p, a, s.pos, n - 1);
      }
    }
  }
}
