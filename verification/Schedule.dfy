/**
 Where a tracing loop leaves its target, as a function of the untraced run, of the schedule, of which
 requests fail, and of the number of results wanted.
 */
module Schedule {
  import opened Words
  import opened Machine
  import opened Ptrace
  import opened Breakpoints
  import opened Selection

  datatype Halt = Halt(pos: nat, pause: Pause)

  // Where the untraced run is after at most n more moves, up to a signal or its arrival at a.
  function Ahead(p: Program, a: int, pos: nat, n: nat): (h: Halt)
    requires pos <= |p.tape|
    ensures pos <= h.pos <= |p.tape|
    ensures h.pause.Signalled? ==> h.pos < |p.tape| && p.tape[h.pos] == Signal(h.pause.sig)
    ensures h.pause == Trapped ==> Hit(p, a, h.pos)
    decreases n
  {
    if n == 0 then Halt(pos, OnTheWay)
    else if pos == |p.tape| then Halt(pos, Ended)
    else if p.tape[pos].Signal? then Halt(pos, Signalled(p.tape[pos].sig))
    else if Hit(p, a, pos) then Halt(pos, Trapped)
    else Ahead(p, a, pos + 1, n - 1)
  }

  lemma MoveIsAhead(p: Program, a: int, pos: nat)
    requires Transparent(p, a) && pos < |p.tape|
    ensures var s := OneMove(p, Planted(p.text, a), Replay(p, pos), pos);
            && (p.tape[pos].Signal? ==> s.pos == pos && s.pause == Signalled(p.tape[pos].sig))
            && (Hit(p, a, pos) ==> s.pos == pos && s.pause == Trapped)
            && (p.tape[pos].Instr? && !Hit(p, a, pos) ==>
                  s.pos == pos + 1 && s.pause == OnTheWay && s.cpu == Replay(p, pos + 1))
  {
    hide Execute;
    if p.tape[pos].Instr? {
      assert StepAgrees(p, a, pos);
    }
  }

  /** With a breakpoint at a the target halts where the untraced run has a signal or arrives at a. */
  lemma {:induction false} AdvanceIsAhead(p: Program, a: int, pos: nat, n: nat)
    requires Transparent(p, a) && pos <= |p.tape|
    ensures var s, h := Advance(p, Planted(p.text, a), Replay(p, pos), pos, n), Ahead(p, a, pos, n);
            s.pos == h.pos && s.pause == h.pause
    decreases n
  {
    hide OneMove, Transparent, Hit, Replay;
    if n > 0 && pos < |p.tape| {
      MoveIsAhead(p, a, pos);
      if p.tape[pos].Instr? && !Hit(p, a, pos) {
        AdvanceIsAhead(p, a, pos + 1, n - 1);
      }
    } else if n > 0 {
      EndIsAhead(p, Planted(p.text, a), pos);
    }
  }

  lemma EndIsAhead(p: Program, text: Memory, pos: nat)
    requires pos == |p.tape|
    ensures var s := OneMove(p, text, Replay(p, pos), pos); s.pos == pos && s.pause == Ended
  {
    hide Replay;
  }

  lemma AdvanceScheduled(p: Program, entry: int, a: int, pos: nat, n: nat)
    requires Observable(p, entry) && PatchTarget(p, entry, a) && pos <= |p.tape|
    ensures var s, h := Advance(p, Planted(p.text, a), Replay(p, pos), pos, n), Ahead(p, a, pos, n);
            s.pos == h.pos && s.pause == h.pause
  {
    hide Observable, PatchTarget;
    ObservableIsTransparent(p, entry, a);
    AdvanceIsAhead(p, a, pos, n);
  }

  // Nothing stops the target during its next n moves.
  ghost predicate Quiet(p: Program, a: int, pos: nat, n: nat) {
    pos + n <= |p.tape| && forall q: nat :: pos <= q < pos + n ==> p.tape[q].Instr? && !Hit(p, a, q)
  }

  lemma {:induction false} OnTheWayIfQuiet(p: Program, a: int, pos: nat, n: nat)
    requires pos <= |p.tape|
    ensures Ahead(p, a, pos, n).pause == OnTheWay <==> Quiet(p, a, pos, n)
    ensures Quiet(p, a, pos, n) ==> Ahead(p, a, pos, n).pos == pos + n
    decreases n
  {
    hide Hit;
    if n > 0 && pos < |p.tape| {
      OnTheWayIfQuiet(p, a, pos + 1, n - 1);
    }
  }

  // ----- the course of a loop -----

  datatype Command = Tracing | Sampling

  /** What decides the course of a command besides the schedule: the untraced run, which requests fail, the
      command, its entry and its count. behind(pos, k): the number of the first request behind a stack
      walk that is made at position pos by the requests from number k on. */
  datatype Plan = Plan(p: Program, fates: nat -> bool, behind: (nat, nat) -> nat, cmd: Command, entry: int, count: nat)

  /** What a command goes by: how far the untraced run is, the run state, whether it awaits a return, the
      address awaited, the numbers of results and of requests, and which request has thrown. */
  datatype Course = Course(pos: nat, run: RunState, waiting: bool, awaited: int, results: nat, asked: nat,
                           threw: Option<Throw>)

  ghost predicate Sound(plan: Plan, c: Course) {
    c.pos <= |plan.p.tape| && (SignalPending(c.run) ==> c.pos < |plan.p.tape|)
  }

  // PTRACE_CONT where it is due.
  function Continued(plan: Plan, c: Course): (d: Course)
    ensures d.pos == c.pos
  {
    if c.run.Stopped? then c.(run := if plan.fates(c.asked) then Exited else Running, asked := c.asked + 1) else c
  }

  // The wait.
  function Waited(plan: Plan, c: Course, turn: Turn): (w: Course)
    requires Sound(plan, c)
    ensures Sound(plan, w)
  {
    if !c.run.Running? then c
    else
      var h := Ahead(plan.p, c.awaited, c.pos, turn.moves);
      c.(pos := h.pos, run := if turn.inTime then Reaped(AfterPause(h.pause)) else AfterPause(h.pause))
  }

  // Which request throws at a breakpoint stop, if one does.
  function StopThrow(plan: Plan, c: Course): Option<Throw>
    requires c.pos <= |plan.p.tape|
  {
    var k := c.asked;
    if plan.fates(k) then Some(Throw(GettingRegs, k))
    else if c.waiting then ReturnThrow(plan.fates, k + 1)
    else if plan.cmd.Tracing? then EntryThrow(plan.fates, k + 1, ReturnAddress(plan.p, c.pos).Some?)
    else SampleThrow(plan.fates, k + 1, c.results + 1 >= plan.count, plan.behind(c.pos, k + 3))
  }

  // A breakpoint stop under trace: the breakpoint moves, and a return yields a result.
  function TraceHandled(plan: Plan, c: Course): Course
    requires c.pos <= |plan.p.tape|
  {
    if c.waiting then c.(waiting := false, awaited := plan.entry, results := c.results + 1, asked := c.asked + 5)
    else
      match ReturnAddress(plan.p, c.pos)
      case Some(ra) => c.(waiting := true, awaited := ra, asked := c.asked + 6)
      case None => c
  }

  /** A breakpoint stop under stack: an arrival yields a result; the last one leaves no breakpoint, and the
      others one at the return address, or at the entry again if that cannot be read. */
  function StackHandled(plan: Plan, c: Course): Course
    requires c.pos <= |plan.p.tape|
  {
    if c.waiting then c.(waiting := false, awaited := plan.entry, asked := c.asked + 5)
    else
      var m, ra := plan.behind(c.pos, c.asked + 3), ReturnAddress(plan.p, c.pos);
      var more := c.(results := c.results + 1, asked := m);
      if more.results >= plan.count then more
      else if ra.Some? && !plan.fates(m) then more.(waiting := true, awaited := ra.value, asked := m + 3)
      else more.(asked := m + 3)
  }

  // What is done about a reported stop.
  function Handled(plan: Plan, c: Course): (h: Course)
    requires Sound(plan, c)
    ensures Sound(plan, h)
  {
    if SignalPending(c.run) then
      if plan.fates(c.asked) then c.(run := Exited, asked := c.asked + 1)
      else c.(pos := c.pos + 1, run := Running, asked := c.asked + 1)
    else if !TrapPending(c.run) then c
    else if StopThrow(plan, c).Some? then c.(threw := StopThrow(plan, c))
    else if plan.cmd.Tracing? then TraceHandled(plan, c)
    else StackHandled(plan, c)
  }

  // Where a round leads: back to the head of the loop, or out of it.
  datatype Progress = GoOn(c: Course) | Over(c: Course)

  function Round(plan: Plan, c: Course, turn: Turn): (r: Progress)
    requires Sound(plan, c)
    ensures Sound(plan, r.c)
  {
    if turn.lateToWait then Over(Continued(plan, c))
    else
      var w := Waited(plan, Continued(plan, c), turn);
      if w.run.Stopped? && w.run.reaped then
        var h := Handled(plan, w);
        if h.threw.Some? then Over(h) else GoOn(h)
      else Over(w)
  }

  // The loop is left at its head, before round i.
  predicate AtEnd(plan: Plan, turns: seq<Turn>, i: nat, c: Course)
    requires i <= |turns|
  {
    c.results >= plan.count || i == |turns| || turns[i].stop || turns[i].late
  }

  /** The rounds from number i on, begun in c. */
  function Rounds(plan: Plan, turns: seq<Turn>, i: nat, c: Course): (r: Course)
    requires Sound(plan, c) && i <= |turns|
    ensures Sound(plan, r)
    decreases |turns| - i
  {
    if AtEnd(plan, turns, i, c) then c
    else
      match Round(plan, c, turns[i])
      case Over(w) => w
      case GoOn(h) => Rounds(plan, turns, i + 1, h)
  }

  // A target that still runs goes on by itself for at most n moves.
  function Drifted(plan: Plan, c: Course, n: nat): (d: Course)
    requires Sound(plan, c)
    ensures Sound(plan, d) && d == c.(pos := d.pos, run := d.run) && (c.run.Running? || d == c)
  {
    if !c.run.Running? then c
    else
      var h := Ahead(plan.p, c.awaited, c.pos, n);
      c.(pos := h.pos, run := AfterPause(h.pause))
  }

  // Behind the first breakpoint, planted by the requests before number k.
  function Outset(plan: Plan, k: nat): Course {
    Course(0, Stopped(AtAttach, true), false, plan.entry, 0, k, None)
  }

  /** How the loop of a command ends whose first request is number k, and in which state the clean-up finds the
      target. */
  function Ending(plan: Plan, turns: seq<Turn>, slack: nat, k: nat): Course {
    Drifted(plan, Rounds(plan, turns, 0, Outset(plan, k)), slack)
  }

  // How many words the clean-up writes.
  function Pokes(plan: Plan, c: Course): nat {
    if plan.cmd.Tracing? then if c.waiting then 2 else 1
    else if 0 < plan.count <= c.results then 0 else 1
  }

  // The clean-up throws: on a target that has not stopped, or when one of its writes is refused.
  predicate CleanUpFails(plan: Plan, c: Course) {
    || !c.run.Stopped?
    || (Pokes(plan, c) > 0 && plan.fates(c.asked)) || (Pokes(plan, c) > 1 && plan.fates(c.asked + 1))
  }

  // On the way out of the loop by exception the guard writes a word.
  predicate GuardWrites(plan: Plan, c: Course)
    requires c.threw.Some?
  {
    || plan.cmd.Tracing?
    || match c.threw.value.request
       case Rearming => false
       case SettingRegs => c.waiting
       case _ => true
  }

  // A text with a breakpoint, if there is one.
  function WithPatch(text: Memory, at: Option<int>): Memory {
    if at.Some? then Planted(text, at.value) else text
  }

  // Where the breakpoint is when the loop is left by exception.
  function PatchAtThrow(plan: Plan, c: Course): Option<int>
    requires c.threw.Some? && c.pos <= |plan.p.tape|
  {
    match c.threw.value.request
    case GettingRegs => Some(c.awaited)
    case Restoring => Some(c.awaited)
    case SettingRegs => if plan.cmd.Tracing? && !c.waiting then ReturnAddress(plan.p, c.pos) else None
    case _ => None
  }

  // Where it is behind the guard, that of trace writing at the entry and that of stack where it is needed.
  function PatchLeft(plan: Plan, c: Course): Option<int>
    requires c.threw.Some? && c.pos <= |plan.p.tape|
  {
    var at := PatchAtThrow(plan, c);
    if at.Some? && !plan.fates(c.threw.value.number + 1) && (plan.cmd.Sampling? || InWindow(plan.entry, at.value))
    then None else at
  }

  // Where it is when the clean-up throws: only trace has two words to write.
  function PatchUncleaned(plan: Plan, c: Course): Option<int> {
    if c.run.Stopped? && Pokes(plan, c) > 1 && !plan.fates(c.asked) then None else Some(c.awaited)
  }

  // Registers and memory where the clean-up has found the target: one byte behind a stop that was not waited for.
  function CpuFound(plan: Plan, c: Course): Cpu
    requires c.pos <= |plan.p.tape|
  {
    if c.run == Stopped(AtTrap, false) then OneBehind(Replay(plan.p, c.pos)) else Replay(plan.p, c.pos)
  }

  /** A command that is over has ended as its course does, in e: by exception out of the loop or out of the
      clean-up, or normally. The state of the target, the text and the number of requests are those of e. */
  ghost predicate Ends<T>(p: Tracee, plan: Plan, e: Course, r: Outcome<seq<T>>, left: RunState, threw: Throw)
    reads p
  {
    && left == e.run && p.pos == e.pos <= |plan.p.tape|
    && (if e.threw.Some? then LeftAt(plan.p, e.pos, p.cpu, threw) else p.cpu == CpuFound(plan, e))
    && if e.threw.Some? then
         var writes := GuardWrites(plan, e);
         && Some(threw) == e.threw && r == Threw(InLoop(writes ==> !p.fates(threw.number + 1)))
         && p.requests == (threw.number + if writes then 3 else 2)
         && p.text == WithPatch(plan.p.text, PatchLeft(plan, e))
       else if CleanUpFails(plan, e) then
         r == Threw(CleaningUp) && p.text == WithPatch(plan.p.text, PatchUncleaned(plan, e))
       else
         && r.Returned? && |r.value| == e.results && p.requests == e.asked + Pokes(plan, e) + 1
         && p.text == plan.p.text
  }

  /** There is no round j for a loop that is in c at its head: it has its results, the deadline has passed, or a
      stop has been requested. */
  predicate NoMoreRounds(plan: Plan, turns: seq<Turn>, j: nat, c: Course)
    requires j <= |turns|
  {
    j == |turns| || turns[j].late || turns[j].stop || plan.count <= c.results
  }

  // At the head of the loop.
  predicate AtHead(plan: Plan, c: Course) {
    c.results < plan.count || (c.run.Stopped? && c.run.reaped)
  }

  /** A loop that reaches its count leaves a target that has stopped and been waited for. */
  lemma {:induction false} CountReachedStopped(plan: Plan, turns: seq<Turn>, i: nat, c: Course)
    requires Sound(plan, c) && i <= |turns| && AtHead(plan, c)
    ensures AtHead(plan, Rounds(plan, turns, i, c))
    decreases |turns| - i
  {
    hide Ahead, ReturnAddress, StopThrow;
    if !NoMoreRounds(plan, turns, i, c) {
      var r := Round(plan, c, turns[i]);
      if r.GoOn? {
        CountReachedStopped(plan, turns, i + 1, r.c);
      }
    }
  }

  lemma CountReachedReturns(plan: Plan, turns: seq<Turn>, slack: nat, k: nat)
    ensures var e := Ending(plan, turns, slack, k);
            e.results >= plan.count ==> e.run.Stopped? && e.run.reaped
  {
    hide Rounds, Ahead;
    CountReachedStopped(plan, turns, 0, Outset(plan, k));
  }

  // The head of round j, if the rounds from number i on, begun in c, get there.
  function HeadFrom(plan: Plan, turns: seq<Turn>, i: nat, c: Course, j: nat): (h: Option<Course>)
    requires Sound(plan, c) && i <= |turns|
    ensures h.Some? ==> Sound(plan, h.value) && j <= |turns|
    decreases |turns| - i
  {
    if i == j then Some(c)
    else if NoMoreRounds(plan, turns, i, c) then None
    else
      match Round(plan, c, turns[i])
      case Over(_) => None
      case GoOn(h) => HeadFrom(plan, turns, i + 1, h, j)
  }

  // A target met at the head of a round runs during its wait.
  predicate RunsOn(plan: Plan, c: Course) {
    c.run.Running? || (c.run.Stopped? && !plan.fates(c.asked))
  }

  /** Nothing stops the target from the head of round j on, in c, until the clean-up begins: either the
      loop ends right there with the target running, as it does behind a forwarded signal, or the round
      is begun and its wait, if there is one, runs out. */
  ghost predicate EndsQuietly(plan: Plan, turns: seq<Turn>, j: nat, c: Course, slack: nat)
    requires j <= |turns|
  {
    if NoMoreRounds(plan, turns, j, c) then c.run.Running? && Quiet(plan.p, c.awaited, c.pos, slack)
    else
      && RunsOn(plan, c)
      && Quiet(plan.p, c.awaited, c.pos, (if turns[j].lateToWait then 0 else turns[j].moves) + slack)
  }

  ghost predicate QuietEndAt(plan: Plan, turns: seq<Turn>, i: nat, c: Course, slack: nat, j: nat)
    requires Sound(plan, c) && i <= |turns|
  {
    var h := HeadFrom(plan, turns, i, c, j);
    h.Some? && EndsQuietly(plan, turns, j, h.value, slack)
  }

  lemma QuietInTwo(p: Program, a: int, pos: nat, m: nat, n: nat)
    requires pos <= |p.tape|
    ensures Quiet(p, a, pos, m + n) <==> Quiet(p, a, pos, m) && Quiet(p, a, pos + m, n)
  {
    hide Hit;
  }

  // The last round.
  lemma LastRoundEndsRunning(plan: Plan, turns: seq<Turn>, i: nat, c: Course, slack: nat)
    requires Sound(plan, c) && i <= |turns| && c.threw.None?
    requires !NoMoreRounds(plan, turns, i, c)
    ensures var r := Round(plan, c, turns[i]);
            EndsQuietly(plan, turns, i, c, slack) <==> r.Over? && Drifted(plan, r.c, slack).run == Running
  {
    hide Ahead, Quiet, ReturnAddress, StopThrow;
    var turn := turns[i];
    OnTheWayIfQuiet(plan.p, c.awaited, c.pos, slack);
    OnTheWayIfQuiet(plan.p, c.awaited, c.pos, turn.moves);
    QuietInTwo(plan.p, c.awaited, c.pos, turn.moves, slack);
    if !turn.lateToWait && Quiet(plan.p, c.awaited, c.pos, turn.moves) {
      QuietFits(plan.p, c.awaited, c.pos, turn.moves);
      OnTheWayIfQuiet(plan.p, c.awaited, c.pos + turn.moves, slack);
    }
  }

  lemma QuietFits(p: Program, a: int, pos: nat, n: nat)
    requires Quiet(p, a, pos, n)
    ensures pos + n <= |p.tape|
  {
  }

  /** Exactly when the clean-up meets a running target, which is when the command throws there: if and
      only if nothing stops the target any more from the head of some round on. */
  lemma {:induction false} EndsRunningExactly(plan: Plan, turns: seq<Turn>, i: nat, c: Course, slack: nat)
    requires Sound(plan, c) && i <= |turns| && c.threw.None?
    ensures Drifted(plan, Rounds(plan, turns, i, c), slack).run == Running <==>
            exists j: nat :: QuietEndAt(plan, turns, i, c, slack, j)
    decreases |turns| - i
  {
    hide Ahead, Quiet, Round, EndsQuietly, Drifted;
    if NoMoreRounds(plan, turns, i, c) {
      HeadEndsRunning(plan, turns, i, c, slack);
      assert QuietEndAt(plan, turns, i, c, slack, i) <==> EndsQuietly(plan, turns, i, c, slack);
    } else {
      LastRoundEndsRunning(plan, turns, i, c, slack);
      assert QuietEndAt(plan, turns, i, c, slack, i) <==> EndsQuietly(plan, turns, i, c, slack);
      var r := Round(plan, c, turns[i]);
      RoundsNext(plan, turns, i, c);
      if r.GoOn? {
        GoOnUnthrown(plan, c, turns[i]);
        EndsRunningExactly(plan, turns, i + 1, r.c, slack);
        HeadsAreLater(plan, turns, i + 1, r.c, i);
        var next := i + 1;
        if j: nat :| QuietEndAt(plan, turns, next, r.c, slack, j) {
          assert QuietEndAt(plan, turns, i, c, slack, j);
        }
        if j: nat :| QuietEndAt(plan, turns, i, c, slack, j) {
          assert QuietEndAt(plan, turns, next, r.c, slack, j);
        }
      } else {
        forall j: nat | j != i
          ensures !QuietEndAt(plan, turns, i, c, slack, j)
        {
          assert HeadFrom(plan, turns, i, c, j).None?;
        }
      }
    }
  }

  lemma GoOnUnthrown(plan: Plan, c: Course, turn: Turn)
    requires Sound(plan, c)
    ensures var r := Round(plan, c, turn); r.GoOn? ==> r.c.threw.None?
  {
    hide Waited, Handled;
  }

  lemma HeadEndsRunning(plan: Plan, turns: seq<Turn>, i: nat, c: Course, slack: nat)
    requires Sound(plan, c) && i <= |turns|
    requires NoMoreRounds(plan, turns, i, c)
    ensures Drifted(plan, c, slack).run == Running <==> EndsQuietly(plan, turns, i, c, slack)
  {
    hide Ahead, Quiet;
    OnTheWayIfQuiet(plan.p, c.awaited, c.pos, slack);
  }

  lemma {:induction false} HeadsAreLater(plan: Plan, turns: seq<Turn>, i: nat, c: Course, j: nat)
    requires Sound(plan, c) && j < i <= |turns|
    ensures HeadFrom(plan, turns, i, c, j).None?
    decreases |turns| - i
  {
    hide Round;
    if !NoMoreRounds(plan, turns, i, c) {
      var r := Round(plan, c, turns[i]);
      if r.GoOn? {
        HeadsAreLater(plan, turns, i + 1, r.c, j);
      }
    }
  }

  /** A loop that ends at its head behind a breakpoint stop, or before its first round, meets a
      stopped target, whatever the reason for ending. */
  lemma StoppedHeadReturns(plan: Plan, turns: seq<Turn>, i: nat, c: Course, slack: nat)
    requires Sound(plan, c) && i <= |turns| && c.run.Stopped?
    requires NoMoreRounds(plan, turns, i, c)
    ensures Drifted(plan, Rounds(plan, turns, i, c), slack).run == c.run
  {
  }

  lemma RoundsNext(plan: Plan, turns: seq<Turn>, i: nat, c: Course)
    requires Sound(plan, c) && i <= |turns|
    ensures Rounds(plan, turns, i, c) ==
            if NoMoreRounds(plan, turns, i, c) then c
            else
              var r := Round(plan, c, turns[i]);
              if r.Over? then r.c else Rounds(plan, turns, i + 1, r.c)
  {
  }

  // ----- what ends a loop -----

  /** Once a stop has been requested or the deadline has passed there are no more rounds: what the schedule would
      have had in store does not matter. */
  lemma {:induction false} StopEndsRounds(plan: Plan, turns: seq<Turn>, i: nat, c: Course, k: nat)
    requires Sound(plan, c) && i <= k < |turns| && (turns[k].stop || turns[k].late)
    ensures Rounds(plan, turns, i, c) == Rounds(plan, turns[..k], i, c)
    decreases k - i
  {
    hide Round;
    RoundsNext(plan, turns, i, c);
    RoundsNext(plan, turns[..k], i, c);
    if i < k && !NoMoreRounds(plan, turns, i, c) {
      var r := Round(plan, c, turns[i]);
      if r.GoOn? {
        StopEndsRounds(plan, turns, i + 1, r.c, k);
      }
    }
  }

  /** A round in which the deadline passes before the wait continues the target where that is due and does nothing
      else; it is the last one. */
  lemma {:induction false} LateToWaitEndsRounds(plan: Plan, turns: seq<Turn>, i: nat, c: Course, k: nat)
    requires Sound(plan, c) && i <= k < |turns| && turns[k].lateToWait
    ensures var before, after := Rounds(plan, turns[..k], i, c), Rounds(plan, turns, i, c);
            && (after == before || (before.run.Stopped? && after == Continued(plan, before)))
            && after.pos == before.pos && after.results == before.results && after.threw == before.threw
    decreases k - i
  {
    hide Waited, Handled;
    RoundsNext(plan, turns, i, c);
    RoundsNext(plan, turns[..k], i, c);
    if i < k && !NoMoreRounds(plan, turns, i, c) {
      var r := Round(plan, c, turns[i]);
      if r.GoOn? {
        LateToWaitEndsRounds(plan, turns, i + 1, r.c, k);
      }
    }
  }

  // A command that is stopped at once does nothing to its target.
  lemma StoppedAtOnce(plan: Plan, turns: seq<Turn>, slack: nat, k: nat)
    requires turns == [] || turns[0].stop || turns[0].late || plan.count == 0
    ensures Ending(plan, turns, slack, k) == Outset(plan, k)
  {
    RoundsNext(plan, turns, 0, Outset(plan, k));
  }

  // ----- the other ways to end -----

  // The number of the last round, in which the loop is left, and the course at its head.
  function LastHead(plan: Plan, turns: seq<Turn>, i: nat, c: Course): (h: (nat, Course))
    requires Sound(plan, c) && i <= |turns|
    ensures h.0 <= |turns| && Sound(plan, h.1)
    decreases |turns| - i
  {
    if NoMoreRounds(plan, turns, i, c) then (i, c)
    else
      match Round(plan, c, turns[i])
      case Over(_) => (i, c)
      case GoOn(h) => LastHead(plan, turns, i + 1, h)
  }

  // The untraced run ends within the next n moves, and nothing stops the target before.
  ghost predicate RunsOut(p: Program, a: int, pos: nat, n: nat)
    requires pos <= |p.tape|
  {
    pos + n > |p.tape| && Quiet(p, a, pos, |p.tape| - pos)
  }

  lemma {:induction false} EndedIfRunsOut(p: Program, a: int, pos: nat, n: nat)
    requires pos <= |p.tape|
    ensures Ahead(p, a, pos, n).pause == Ended <==> RunsOut(p, a, pos, n)
    decreases n
  {
    hide Hit;
    if n > 0 && pos < |p.tape| {
      EndedIfRunsOut(p, a, pos + 1, n - 1);
    }
  }

  lemma RunsOutInTwo(p: Program, a: int, pos: nat, m: nat, n: nat)
    requires pos <= |p.tape|
    ensures RunsOut(p, a, pos, m + n) <==>
            RunsOut(p, a, pos, m) || (Quiet(p, a, pos, m) && RunsOut(p, a, pos + m, n))
  {
    hide Hit, Quiet;
    if pos + m <= |p.tape| {
      QuietInTwo(p, a, pos, m, |p.tape| - pos - m);
    } else if Quiet(p, a, pos, m) {
      QuietFits(p, a, pos, m);
    }
  }

  /** From the head of round j on, in c, the target ends: killed as it was when a signal was to be forwarded or
      the target to be continued, or by itself before anything stops it. */
  ghost predicate EndsGone(plan: Plan, turns: seq<Turn>, j: nat, c: Course, slack: nat)
    requires Sound(plan, c) && j <= |turns|
  {
    || c.run.Exited?
    || if NoMoreRounds(plan, turns, j, c) then c.run.Running? && RunsOut(plan.p, c.awaited, c.pos, slack)
       else
         || !RunsOn(plan, c)
         || RunsOut(plan.p, c.awaited, c.pos, (if turns[j].lateToWait then 0 else turns[j].moves) + slack)
  }

  // What a loop may find at its head.
  predicate UnderWay(c: Course) {
    c.threw.None? && (c.run.Running? || c.run.Exited? || (c.run.Stopped? && c.run.reaped))
  }

  lemma RoundGoesOn(plan: Plan, c: Course, turn: Turn)
    requires Sound(plan, c) && UnderWay(c)
    ensures var r := Round(plan, c, turn);
            && (r.GoOn? ==> UnderWay(r.c))
            && (r.c.threw.Some? ==> r.Over? && r.c.run == Stopped(AtTrap, true))
            && (r.Over? && r.c.threw.None? ==> !(r.c.run.Stopped? && r.c.run.reaped))
  {
    hide Ahead, ReturnAddress, StopThrow;
  }

  // The last round leads to the end of the target exactly if it is killed or the untraced run ends.
  lemma LastRoundEndsGone(plan: Plan, turns: seq<Turn>, i: nat, c: Course, slack: nat)
    requires Sound(plan, c) && i <= |turns| && UnderWay(c) && !NoMoreRounds(plan, turns, i, c)
    ensures var r := Round(plan, c, turns[i]);
            EndsGone(plan, turns, i, c, slack) <==> r.Over? && Drifted(plan, r.c, slack).run.Exited?
  {
    hide Ahead, Quiet, RunsOut, ReturnAddress, StopThrow;
    var turn := turns[i];
    EndedIfRunsOut(plan.p, c.awaited, c.pos, slack);
    EndedIfRunsOut(plan.p, c.awaited, c.pos, turn.moves);
    OnTheWayIfQuiet(plan.p, c.awaited, c.pos, turn.moves);
    RunsOutInTwo(plan.p, c.awaited, c.pos, turn.moves, slack);
    if !turn.lateToWait && Quiet(plan.p, c.awaited, c.pos, turn.moves) {
      QuietFits(plan.p, c.awaited, c.pos, turn.moves);
      EndedIfRunsOut(plan.p, c.awaited, c.pos + turn.moves, slack);
    }
  }

  /** Exactly when the clean-up finds a target that has stopped and been waited for, and exactly when it finds
      one that has ended. */
  lemma {:induction false} EndsStoppedOrGone(plan: Plan, turns: seq<Turn>, i: nat, c: Course, slack: nat)
    requires Sound(plan, c) && i <= |turns| && UnderWay(c)
    ensures var e := Drifted(plan, Rounds(plan, turns, i, c), slack);
            var last := LastHead(plan, turns, i, c);
            && (e.run.Stopped? && e.run.reaped && e.threw.None? <==>
                  NoMoreRounds(plan, turns, last.0, last.1) && last.1.run.Stopped?)
            && (e.run.Exited? <==> EndsGone(plan, turns, last.0, last.1, slack))
    decreases |turns| - i
  {
    hide Ahead, Quiet, RunsOut, ReturnAddress, Round;
    if NoMoreRounds(plan, turns, i, c) {
      EndedIfRunsOut(plan.p, c.awaited, c.pos, slack);
    } else {
      RoundGoesOn(plan, c, turns[i]);
      LastRoundEndsGone(plan, turns, i, c, slack);
      var r := Round(plan, c, turns[i]);
      if r.GoOn? {
        EndsStoppedOrGone(plan, turns, i + 1, r.c, slack);
      }
    }
  }

  // ----- exceptions -----

  // Which request throws in round j, begun in c.
  function RoundThrow(plan: Plan, turns: seq<Turn>, j: nat, c: Course): Option<Throw>
    requires Sound(plan, c) && j <= |turns|
  {
    if NoMoreRounds(plan, turns, j, c) || turns[j].lateToWait then None
    else
      var w := Waited(plan, Continued(plan, c), turns[j]);
      if w.run == Stopped(AtTrap, true) then StopThrow(plan, w) else None
  }

  lemma RoundThrows(plan: Plan, turns: seq<Turn>, i: nat, c: Course)
    requires Sound(plan, c) && i <= |turns| && !NoMoreRounds(plan, turns, i, c)
    requires UnderWay(c) && (!c.waiting ==> c.awaited == plan.entry)
    ensures var r := Round(plan, c, turns[i]);
            && r.c.threw == RoundThrow(plan, turns, i, c)
            && (r.c.threw.Some? && !plan.fates(r.c.threw.value.number) ==>
                  plan.cmd.Tracing? && ReturnUnreadable(plan.p, plan.entry))
            && (r.GoOn? && !r.c.waiting ==> r.c.awaited == plan.entry)
  {
    hide Ahead, ReturnAddress, Hit;
  }

  /** Exactly when the loop throws, and at which request: at the last stop, as the requests made there are
      granted. If that request was not refused, it asked for a return address that cannot be read. */
  lemma {:induction false} ThrowsExactly(plan: Plan, turns: seq<Turn>, i: nat, c: Course)
    requires Sound(plan, c) && i <= |turns| && UnderWay(c) && (!c.waiting ==> c.awaited == plan.entry)
    ensures var threw, last := Rounds(plan, turns, i, c).threw, LastHead(plan, turns, i, c);
            && threw == RoundThrow(plan, turns, last.0, last.1)
            && (threw.Some? && !plan.fates(threw.value.number) ==>
                  plan.cmd.Tracing? && ReturnUnreadable(plan.p, plan.entry))
    decreases |turns| - i
  {
    hide Round, Waited, StopThrow, ReturnUnreadable;
    if !NoMoreRounds(plan, turns, i, c) {
      RoundGoesOn(plan, c, turns[i]);
      RoundThrows(plan, turns, i, c);
      var r := Round(plan, c, turns[i]);
      if r.GoOn? {
        ThrowsExactly(plan, turns, i + 1, r.c);
      }
    }
  }
}
