/** The trace command: timing calls with one breakpoint at a time. */
module TraceEngine {
  import opened Words
  import opened Machine
  import opened Ptrace
  import opened Breakpoints
  import opened Schedule
  import opened Selection
  import opened Stepping

  datatype TraceNode = TraceNode(funcName: string, duration: U64, retRaw: U64)

  // Node k times the call between stops 2k and 2k + 1 and shows its return register.
  ghost predicate NodeMatches(p: Program, name: string, log: seq<Reading>, node: TraceNode, k: nat) {
    && 2 * k + 1 < |log| && log[2 * k + 1].pos <= |p.tape|
    && node == TraceNode(name, Wrap(log[2 * k + 1].time - log[2 * k].time),
                         Replay(p, log[2 * k + 1].pos).regs.ret)
  }

  ghost predicate NodesMatch(p: Program, name: string, log: seq<Reading>, nodes: seq<TraceNode>) {
    forall k :: 0 <= k < |nodes| ==> NodeMatches(p, name, log, nodes[k], k)
  }

  // The nodes are the calls selected so far, and the next stop is due at `awaited`.
  ghost predicate Record(p: Program, name: string, entry: int, waiting: bool, awaited: int,
                         log: seq<Reading>, nodes: seq<TraceNode>, pos: nat) {
    && Due(p, entry, awaited, log, pos)
    && NodesMatch(p, name, log, nodes)
    && |log| == 2 * |nodes| + (if waiting then 1 else 0)
  }

  lemma RecordLater(p: Program, name: string, entry: int, waiting: bool, awaited: int,
                    log: seq<Reading>, nodes: seq<TraceNode>, pos: nat, later: nat)
    requires Record(p, name, entry, waiting, awaited, log, nodes, pos)
    requires pos <= later <= |p.tape| && NoHit(p, awaited, pos, later)
    ensures Record(p, name, entry, waiting, awaited, log, nodes, later)
  {
    DueLater(p, entry, awaited, log, pos, later);
  }

  lemma RecordSays(p: Program, name: string, entry: int, waiting: bool, awaited: int,
                      log: seq<Reading>, nodes: seq<TraceNode>, pos: nat)
    requires Record(p, name, entry, waiting, awaited, log, nodes, pos)
    ensures pos <= |p.tape| && Selects(p, entry, log) && NodesMatch(p, name, log, nodes)
    ensures |log| / 2 == |nodes|
    ensures PatchTarget(p, entry, awaited)
  {
    DueIsPatchTarget(p, entry, awaited, log, pos);
  }

  lemma RecordAlsoSays(p: Program, name: string, entry: int, waiting: bool, awaited: int,
                       log: seq<Reading>, nodes: seq<TraceNode>, pos: nat)
    requires Record(p, name, entry, waiting, awaited, log, nodes, pos)
    ensures NoneMissed(p, entry, log, pos)
    ensures DueAddress(p, entry, log, |log|) == Some(awaited)
    ensures waiting ==> |log| % 2 == 1 && LastReturn(p, log).Some? && LastReturn(p, log).value == awaited
  {
    hide Selects, Hit;
    DueMissesNone(p, entry, log, pos);
    if waiting {
      DueIsLastReturn(p, entry, log);
    }
  }

  lemma RecordEntry(p: Program, name: string, entry: int, log: seq<Reading>, nodes: seq<TraceNode>,
                    r: Reading, ret: int)
    requires Record(p, name, entry, false, entry, log, nodes, r.pos) && Hit(p, entry, r.pos)
    requires ReturnAddress(p, r.pos) == Some(ret)
    ensures Record(p, name, entry, true, ret, log + [r], nodes, r.pos)
  {
    hide Due;
    DueAfterStop(p, entry, entry, log, r, ret);
    forall k | 0 <= k < |nodes| ensures NodeMatches(p, name, log + [r], nodes[k], k) {
      assert NodeMatches(p, name, log, nodes[k], k);
    }
  }

  lemma RecordReturn(p: Program, name: string, entry: int, ret: int, log: seq<Reading>, nodes: seq<TraceNode>,
                     r: Reading, node: TraceNode)
    requires Record(p, name, entry, true, ret, log, nodes, r.pos) && Hit(p, ret, r.pos)
    requires node == TraceNode(name, Wrap(r.time - log[|log| - 1].time), Replay(p, r.pos).regs.ret)
    ensures Record(p, name, entry, false, entry, log + [r], nodes + [node], r.pos)
  {
    hide Due;
    DueAfterStop(p, entry, ret, log, r, entry);
    var more := nodes + [node];
    forall k | 0 <= k < |more| ensures NodeMatches(p, name, log + [r], more[k], k) {
      if k < |nodes| {
        assert NodeMatches(p, name, log, nodes[k], k);
      }
    }
  }

  /** The nodes are the calls selected on the untraced run, none missed up to where the target is;
      `left` is the run state in which the loop or the clean-up has found it, and it goes on as if it
      had never been stopped exactly when its last stop was waited for. */
  ghost predicate Faithful(p: Tracee, name: string, entry: int, nodes: seq<TraceNode>, left: RunState)
    reads p
  {
    && p.pos <= |p.program.tape|
    && Selects(p.program, entry, p.readings)
    && NodesMatch(p.program, name, p.readings, nodes)
    && |p.readings| / 2 == |nodes|
    && NoneMissed(p.program, entry, p.readings, p.pos)
    && left.Stopped?
    && (p.cpu == Replay(p.program, p.pos) && LostBy(left) == 0 <==> left.reaped)
  }

  /** The one breakpoint is still where the next stop is due. */
  ghost predicate StillPatched(p: Tracee, entry: int)
    reads p
  {
    var a := DueAddress(p.program, entry, p.readings, |p.readings|);
    && a.Some? && PatchTarget(p.program, entry, a.value) && a.value in p.program.text
    && p.text == Planted(p.program.text, a.value)
  }

  /** What an exception out of the loop leaves: the request that threw was refused, or the return address
      could not be read; the whole state is the untraced one, or one byte behind it exactly when the
      target had not been set back; no signal is lost; and of the text at most one byte has changed. */
  ghost predicate LeftBy(p: Tracee, entry: int, threw: Throw, guardOk: bool)
    reads p
  {
    var a := LastReturn(p.program, p.readings);
    && LeftAt(p.program, p.pos, p.cpu, threw)
    && (p.fates(threw.number) || (threw.request.ReadingReturn? && a.None?))
    && threw.number + 3 == p.requests && guardOk == !p.fates(threw.number + 1)
    && p.state in {Released(0), Exited}
    && Leftover(p.program, entry, p.readings, p.text)
    && (guardOk ==>
          || p.text == p.program.text
          || (a.Some? && !InWindow(entry, a.value) && p.text == Planted(p.program.text, a.value)))
  }

  /** What every outcome of the command keeps. `left` is the run state in which the loop, or the
      clean-up, finds the target; `threw` is for an exception out of the loop. */
  ghost predicate Kept(p: Tracee, name: string, entry: int, count: int, r: Outcome<seq<TraceNode>>, left: RunState,
                       threw: Throw)
    reads p
  {
    && p.Valid()
    // Restoration.
    && (r.Returned? && 0 !in p.program.text ==> p.text == p.program.text)
    && (r.Threw? && r.site in {Attaching, Reserving, Arming} ==> p.text == p.program.text)
    && (r == Threw(InLoop(true)) ==>
          || p.text == p.program.text
          || exists a :: a in p.program.text && !InWindow(entry, a) && p.text == Planted(p.program.text, a))
    // What an exception leaves.
    && (Observable(p.program, entry) ==>
          && (r == Threw(CleaningUp) && !left.Stopped? ==> StillPatched(p, entry))
          && (r.Threw? && r.site.InLoop? ==> LeftBy(p, entry, threw, r.site.guardOk)))
    // Letting go: not by an exception from outside the loop once the target has stopped for the attach.
    && (r == Threw(Attaching) ==> p.state in {Released(0), Arriving, Exited})
    && (r == Threw(Reserving) ==> count < 0)
    && (r.Threw? && r.site in {Reserving, Arming} ==> p.state == Stopped(AtAttach, true))
    && (r == Threw(CleaningUp) ==> p.state == left && !left.Released?)
    && (r.Threw? && r.site.InLoop? ==>
          left.Stopped? && p.requests > 0 && p.state == LetGo(p.fates(p.requests - 1), left))
    // Protocol: a wrong run state is met by the clean-up, when the target still runs, and by the
    // detach from a target that has not stopped for the attach.
    && (p.misused <==> (r == Threw(CleaningUp) && left.Running?) || p.state.Arriving?)
    // Normal return.
    && (r.Returned? ==>
          && left.Stopped? && |r.value| <= count
          && p.requests > 0 && p.state == LetGo(p.fates(p.requests - 1), left))
    && (r.Returned? && |r.value| == count ==> left.reaped)
    && (r.Returned? && Observable(p.program, entry) ==> Faithful(p, name, entry, r.value, left))
  }

  // What decides the course of the command besides the schedule.
  function TracePlan(p: Tracee, entry: int, count: nat): Plan {
    Plan(p.program, p.fates, (pos: nat, k: nat) => k, Tracing, entry, count)
  }

  lemma BarredKept(p: Tracee, name: string, entry: int, count: int, site: Site, threw: Throw)
    requires p.Valid() && p.text == p.program.text && site in {Attaching, Reserving, Arming}
    requires p.misused == p.state.Arriving? && (site != Attaching ==> p.state == Stopped(AtAttach, true))
    requires site == Attaching ==> p.state in {Released(0), Arriving, Exited}
    requires site == Reserving ==> count < 0
    ensures Kept(p, name, entry, count, Threw(site), p.state, threw)
  {
  }

  /** The local variables of the command and its guard's copy of the entry word. */
  class TraceSession {
    const p: Tracee
    const name: string
    const entry: U64
    const count: nat
    var origEntry: U64
    var guardWord: U64
    var waiting: bool       // for the return of a call
    var ret: U64
    var origRet: U64
    var entryTs: U64
    var results: seq<TraceNode>
    ghost var threw: Throw  // for an exception out of the loop

    // Where the breakpoint is.
    function Awaited(): U64
      reads this
    {
      if waiting then ret else entry
    }

    // Where the command is in its course.
    ghost function Here(): Course
      reads this, p
    {
      Course(p.pos, p.state, waiting, Awaited(), |results|, p.requests, None)
    }

    ghost function Given(): Plan {
      TracePlan(p, entry, count)
    }

    // The course has come to c, where the request that throws, if one does, is `threw`.
    ghost predicate Reaches(c: Course, ok: bool)
      reads this, p
    {
      && p.Valid() && c.threw == (if ok then None else Some(threw)) && c.pos == p.pos && c.run == p.state
      && if ok then c == Here() else p.text == WithPatch(p.program.text, PatchAtThrow(Given(), c))
    }

    /** One patch at a time: text is the original one but for the breakpoint byte, and the saved
        words are the original words. */
    ghost predicate OnePatch()
      reads this, p
    {
      && p.Valid()
      && Saved(p.program.text, entry, origEntry) && guardWord == origEntry
      && (waiting ==> Saved(p.program.text, ret, origRet))
      && p.text == Planted(p.program.text, Awaited())
    }

    ghost predicate Recorded()
      reads this, p
    {
      && Record(p.program, name, entry, waiting, Awaited(), p.readings, results, p.pos)
      && (waiting ==> entryTs == p.readings[|p.readings| - 1].time)
    }

    // The target is where the untraced run is.
    ghost predicate InStep()
      reads this, p
    {
      Recorded() && p.cpu == Replay(p.program, p.pos)
    }

    // The target has run into the breakpoint and not been set back yet.
    ghost predicate AtBreakpoint()
      reads this, p
    {
      && Recorded()
      && Hit(p.program, Awaited(), p.pos)
      && p.cpu == BehindBreakpoint(p.program, Awaited(), p.pos)
    }

    // Where the loop leaves the target: in step, unless it has stopped unnoticed.
    ghost predicate Settled()
      reads this, p
    {
      && (if TrapPending(p.state) && !p.state.reaped then AtBreakpoint() else InStep())
      && (SignalPending(p.state) ==> !p.state.reaped)
      && p.state != Stopped(AtAttach, false)
    }

    // After a failure inside the loop there is at most one patch, at the entry or the return address.
    ghost predicate AfterFailure()
      reads this, p
    {
      && p.Valid() && Saved(p.program.text, entry, guardWord)
      && (p.text == p.program.text || p.text == Planted(p.program.text, entry)
          || p.text == Planted(p.program.text, ret))
    }

    // Where an exception out of the loop finds the target.
    ghost predicate Failed()
      reads this, p
    {
      && LeftAt(p.program, p.pos, p.cpu, threw)
      && (p.fates(threw.number) || (threw.request.ReadingReturn? && LastReturn(p.program, p.readings).None?))
      && threw.number + 1 == p.requests
      && Leftover(p.program, entry, p.readings, p.text)
    }

    constructor (p: Tracee, name: string, entry: U64, count: nat, origEntry: U64)
      requires p.Valid() && p.readings == []
      requires Saved(p.program.text, entry, origEntry) && p.text == Planted(p.program.text, entry)
      requires p.pos == 0
      ensures this.p == p && this.name == name && this.entry == entry && this.count == count
      ensures OnePatch() && Recorded() && results == [] && !waiting
    {
      this.p, this.name, this.entry, this.count := p, name, entry, count;
      this.origEntry, this.guardWord := origEntry, origEntry;
      waiting, ret, origRet, entryTs, results := false, 0, 0, 0, [];
      threw := Throw(GettingRegs, 0);
    }

    // Second half of the entry branch: from the restored entry to the patched return address.
    method PlantReturn(back: Regs) returns (ok: bool)
      requires p.Valid() && p.state.Stopped? && p.text == p.program.text
      modifies this`ret, this`origRet, this`threw, p`requests, p`misused, p`text, p`cpu
      ensures p.Valid() && p.requests >= old(p.requests) && p.misused == old(p.misused)
      ensures ok ==>
                && Saved(p.program.text, ret, origRet) && p.text == Planted(p.program.text, ret)
                && p.requests == old(p.requests) + 4
      ensures ok ==> PeekWord(p.program.text, old(p.cpu).data, back.sp) == Some(ret)
      ensures ok && WindowInText(p.program.text, ret) ==> p.cpu == old(p.cpu).(regs := back)
      ensures !ok ==>
                if threw.request.SettingRegs? then
                  && p.text == Planted(p.program.text, ret)
                  && PeekWord(p.program.text, old(p.cpu).data, back.sp) == Some(ret)
                else threw.request in {ReadingReturn, Planting} && p.text == p.program.text
      ensures !ok && ReturnPatchableIfReadable(p.program.text, old(p.cpu).data, back.sp) ==> p.cpu == old(p.cpu)
      ensures ReturnPatchableIfReadable(p.program.text, old(p.cpu).data, back.sp) ==>
                var k, readable := old(p.requests), PeekWord(p.program.text, old(p.cpu).data, back.sp).Some?;
                PlantThrow(p.fates, k, readable) == if ok then None else Some(threw)
      ensures !ok ==> threw.number + 1 == p.requests
    {
      hide Saved, WindowInText, PeekWord, Planted, InWindow;
      ok := false;
      var word := p.Peek(back.sp);
      threw := Throw(ReadingReturn, p.requests - 1);
      if word.Some? {
        ret := word.value;
        var orig := InsertBreakpoint(p, ret);
        threw := Throw(Planting, p.requests - 1);
        if orig.Some? {
          origRet := orig.value;
          ok := p.SetRegs(back);
          threw := Throw(SettingRegs, p.requests - 1);
        }
      }
    }

    // The entry breakpoint has been hit.
    method OnEntry(regs: Regs) returns (ok: bool)
      requires OnePatch() && !waiting && p.state.Stopped? && regs == p.cpu.regs
      modifies this`entryTs, this`ret, this`origRet, this`waiting, this`threw
      modifies p`requests, p`misused, p`text, p`cpu, p`readings
      ensures p.requests >= old(p.requests) && p.misused == old(p.misused)
      ensures ok ==> OnePatch() && waiting && p.requests == old(p.requests) + 5
      ensures ok && WindowInText(p.program.text, entry) ==>
                PeekWord(p.program.text, old(p.cpu).data, regs.sp) == Some(ret)
      ensures ok && WindowInText(p.program.text, entry) && WindowInText(p.program.text, ret) ==>
                p.cpu == old(p.cpu).(regs := regs.(pc := entry))
      ensures !ok ==> AfterFailure()
      ensures p.readings == old(p.readings) + [Reading(p.pos, entryTs)]
      ensures !ok && WindowInText(p.program.text, entry) ==>
                if threw.request.SettingRegs? then
                  && p.text == Planted(p.program.text, ret)
                  && PeekWord(p.program.text, old(p.cpu).data, regs.sp) == Some(ret)
                else
                  && threw.request in {Restoring, ReadingReturn, Planting}
                  && p.text == if threw.request.Restoring? then old(p.text) else p.program.text
      ensures WindowInText(p.program.text, entry)
              && ReturnPatchableIfReadable(p.program.text, old(p.cpu).data, regs.sp) ==>
                var k, readable := old(p.requests), PeekWord(p.program.text, old(p.cpu).data, regs.sp).Some?;
                && EntryThrow(p.fates, k, readable) == (if ok then None else Some(threw))
                && (!ok ==> p.cpu == old(p.cpu))
      ensures !ok ==> threw.number + 1 == p.requests
    {
      hide Saved, WindowInText, PeekWord, ReturnPatchableIfReadable, PlantThrow, Planted, InWindow;
      entryTs := p.Now();
      ok := RestoreWord(p, entry, origEntry, entry);
      threw := Throw(Restoring, p.requests - 1);
      if ok {
        ok := PlantReturn(regs.(pc := entry));
        waiting := ok;
      }
    }

    // The return breakpoint has been hit.
    method OnReturn(regs: Regs) returns (ok: bool)
      requires OnePatch() && waiting && p.state.Stopped? && regs == p.cpu.regs
      modifies this`results, this`origEntry, this`guardWord, this`waiting, this`threw
      modifies p`requests, p`misused, p`text, p`cpu, p`readings
      ensures p.requests >= old(p.requests) && p.misused == old(p.misused)
      ensures |p.readings| > 0 && p.readings == old(p.readings) + [Reading(p.pos, p.readings[|p.readings| - 1].time)]
      ensures var t := p.readings[|p.readings| - 1].time;
              results == old(results) + [TraceNode(name, Wrap(t - entryTs), regs.ret)]
      ensures ok ==> OnePatch() && !waiting && p.requests == old(p.requests) + 4
      ensures ok && WindowInText(p.program.text, entry) && WindowInText(p.program.text, ret) ==>
                p.cpu == old(p.cpu).(regs := regs.(pc := ret))
      ensures !ok ==> AfterFailure()
      ensures !ok ==>
                && threw.request in {Restoring, SettingRegs, Rearming}
                && p.text == if threw.request.Restoring? then old(p.text) else p.program.text
      ensures WindowInText(p.program.text, entry) && WindowInText(p.program.text, ret) ==>
                && ReturnThrow(p.fates, old(p.requests)) == (if ok then None else Some(threw))
                && (!ok ==> p.cpu == if threw.request.Rearming? then old(p.cpu).(regs := regs.(pc := ret))
                                     else old(p.cpu))
      ensures !ok ==> threw.number + 1 == p.requests
    {
      hide Saved, WindowInText, SetBackThrow;
      var exitTs := p.Now();
      results := results + [TraceNode(name, Wrap(exitTs - entryTs), regs.ret)];
      ok := RestoreWord(p, ret, origRet, ret);
      threw := Throw(Restoring, p.requests - 1);
      if ok {
        ok := SetBack(regs.(pc := ret));
      }
    }

    // Second half of the return branch: from the restored return address to the patched entry.
    method SetBack(back: Regs) returns (ok: bool)
      requires p.Valid() && p.state.Stopped? && p.text == p.program.text && waiting
      modifies this`origEntry, this`guardWord, this`waiting, this`threw, p`requests, p`misused, p`text, p`cpu
      ensures p.Valid() && p.requests >= old(p.requests) && p.misused == old(p.misused)
      ensures ok ==>
                && Saved(p.program.text, entry, origEntry) && guardWord == origEntry && !waiting
                && p.requests == old(p.requests) + 3
      ensures !ok ==> origEntry == old(origEntry) && guardWord == old(guardWord) && waiting
      ensures p.text == if ok then Planted(p.program.text, entry) else p.program.text
      ensures !ok ==> threw.request in {SettingRegs, Rearming}
      ensures ok && WindowInText(p.program.text, entry) ==> p.cpu == old(p.cpu).(regs := back)
      ensures WindowInText(p.program.text, entry) ==>
                && SetBackThrow(p.fates, old(p.requests)) == (if ok then None else Some(threw))
                && (!ok ==> p.cpu == if threw.request.Rearming? then old(p.cpu).(regs := back) else old(p.cpu))
      ensures !ok ==> threw.number + 1 == p.requests
    {
      hide Saved, WindowInText;
      ok := p.SetRegs(back);
      threw := Throw(SettingRegs, p.requests - 1);
      if ok {
        var orig := InsertBreakpoint(p, entry);
        ok := orig.Some?;
        threw := Throw(Rearming, p.requests - 1);
        if ok {
          origEntry := orig.value;
          guardWord := origEntry;
          waiting := false;
        }
      }
    }

    /** Let the target run until it stops. A stop at a signal or at the breakpoint leaves it where
        the untraced run is, but for the program counter behind the breakpoint. */
    method AwaitStop(turn: Turn) returns (status: WaitStatus)
      requires OnePatch() && (p.state.Running? || p.state.Exited?)
      requires Observable(p.program, entry) ==> InStep()
      modifies p`cpu, p`pos, p`state, p`reports, p`misused
      ensures OnePatch() && p.misused == old(p.misused)
      ensures p.reports == old(p.reports) + if status.StoppedBy? then 1 else 0
      ensures status.StoppedBy? ==>
                turn.inTime && p.state.Stopped? && p.state.reaped && status.sig == StopSignal(p.state.stop)
      ensures !status.StoppedBy? ==> !(p.state.Stopped? && p.state.reaped)
      ensures Observable(p.program, entry) ==> if TrapPending(p.state) then AtBreakpoint() else InStep()
      ensures Observable(p.program, entry) && status.StoppedBy? ==> (status.sig == SIGTRAP <==> p.state.stop.AtTrap?)
      ensures p.state.Stopped? ==> p.state.stop != AtAttach
      ensures InHand(p.state)
      ensures Observable(p.program, entry) ==> Here() == Waited(Given(), old(Here()), turn)
    {
      hide Observable, Record, PatchTarget, Ahead, Replay;
      ghost var was := p.pos;
      Patched();
      status := Await(p, entry, Awaited(), turn);
      if Observable(p.program, entry) {
        RecordLater(p.program, name, entry, waiting, Awaited(), p.readings, results, was, p.pos);
      }
    }

    // Deliver the signal at which the target has stopped.
    method Forward(sig: nat)
      requires OnePatch() && p.state.Stopped? && sig == StopSignal(p.state.stop)
      requires Observable(p.program, entry) ==> InStep() && p.state.stop.AtSignal?
      modifies p`cpu, p`pos, p`state, p`misused, p`requests
      ensures OnePatch() && p.misused == old(p.misused) && p.requests >= old(p.requests)
      ensures p.state.Running? || p.state.Exited?
      ensures Observable(p.program, entry) ==> InStep()
      ensures Observable(p.program, entry) && p.state.Running? ==>
                old(p.pos) < |p.program.tape| && p.program.tape[old(p.pos)] == Signal(sig) && p.pos == old(p.pos) + 1
      ensures Observable(p.program, entry) ==> Here() == Handled(Given(), old(Here()))
    {
      hide Observable, Record, PatchTarget, Replay;
      ghost var was := p.pos;
      Patched();
      Stepping.Forward(p, entry, Awaited(), sig);
      if Observable(p.program, entry) {
        RecordLater(p.program, name, entry, waiting, Awaited(), p.readings, results, was, p.pos);
      }
    }

    lemma Patched()
      requires OnePatch()
      ensures PatchedAt(p, Awaited())
      ensures Recorded() ==> PatchTarget(p.program, entry, Awaited())
    {
      hide Record, Saved;
      if Recorded() {
        RecordSays(p.program, name, entry, waiting, Awaited(), p.readings, results, p.pos);
      }
    }

    // The entry branch keeps the target in step.
    lemma EntryInStep(log: seq<Reading>, nodes: seq<TraceNode>, t: U64, pos: nat, before: Cpu, ra: U64, after: Cpu)
      requires Observable(p.program, entry)
      requires Record(p.program, name, entry, false, entry, log, nodes, pos)
      requires Hit(p.program, entry, pos) && before == BehindBreakpoint(p.program, entry, pos)
      requires WindowInText(p.program.text, entry) ==>
                 PeekWord(p.program.text, before.data, before.regs.sp) == Some(ra)
      requires WindowInText(p.program.text, entry) && WindowInText(p.program.text, ra) ==>
                 after == before.(regs := before.regs.(pc := entry))
      ensures Record(p.program, name, entry, true, ra, log + [Reading(pos, t)], nodes, pos)
      ensures after == Replay(p.program, pos)
    {
      BehindIsFound(p.program, entry, pos, before);
      PatchTargetIsText(p.program, entry, entry);
      RecordEntry(p.program, name, entry, log, nodes, Reading(pos, t), ra);
      RecordSays(p.program, name, entry, true, ra, log + [Reading(pos, t)], nodes, pos);
      PatchTargetIsText(p.program, entry, ra);
    }

    // So does the return branch.
    lemma ReturnInStep(log: seq<Reading>, nodes: seq<TraceNode>, t: U64, pos: nat, before: Cpu, ra: U64, after: Cpu)
      requires Observable(p.program, entry)
      requires Record(p.program, name, entry, true, ra, log, nodes, pos)
      requires Hit(p.program, ra, pos) && before == BehindBreakpoint(p.program, ra, pos)
      requires WindowInText(p.program.text, entry) && WindowInText(p.program.text, ra) ==>
                 after == before.(regs := before.regs.(pc := ra))
      ensures Record(p.program, name, entry, false, entry, log + [Reading(pos, t)],
                     nodes + [TraceNode(name, Wrap(t - log[|log| - 1].time), before.regs.ret)], pos)
      ensures after == Replay(p.program, pos)
    {
      BehindIsFound(p.program, ra, pos, before);
      PatchTargetIsText(p.program, entry, entry);
      RecordSays(p.program, name, entry, true, ra, log, nodes, pos);
      PatchTargetIsText(p.program, entry, ra);
      RecordReturn(p.program, name, entry, ra, log, nodes, Reading(pos, t),
                   TraceNode(name, Wrap(t - log[|log| - 1].time), before.regs.ret));
    }

    // What the entry branch reads is the return address, which can be patched if it can be read.
    lemma WhyEntryFails(pos: nat, before: Cpu)
      requires Observable(p.program, entry)
      requires Hit(p.program, entry, pos) && before == BehindBreakpoint(p.program, entry, pos)
      ensures WindowInText(p.program.text, entry)
      ensures PeekWord(p.program.text, before.data, before.regs.sp) == ReturnAddress(p.program, pos)
      ensures ReturnPatchableIfReadable(p.program.text, before.data, before.regs.sp)
    {
      hide Observable, WindowInText;
      BehindIsFound(p.program, entry, pos, before);
      PatchTargetIsText(p.program, entry, entry);
      var ra := ReturnAddress(p.program, pos);
      if ra.Some? {
        PatchTargetIsText(p.program, entry, ra.value);
      }
    }

    // What the entry branch leaves behind when it fails.
    lemma EntryLeaves(log: seq<Reading>, nodes: seq<TraceNode>, r: Reading, text: Memory)
      requires Record(p.program, name, entry, false, entry, log, nodes, r.pos) && Hit(p.program, entry, r.pos)
      requires || text == p.program.text || text == Planted(p.program.text, entry)
               || (text == Planted(p.program.text, ret) && ReturnAddress(p.program, r.pos) == Some(ret))
      ensures Leftover(p.program, entry, log + [r], text)
      ensures LastReturn(p.program, log + [r]) == ReturnAddress(p.program, r.pos)
    {
      hide Due;
      assert (log + [r])[|log|] == r;
    }

    // What the return branch leaves behind when it fails.
    lemma ReturnLeaves(log: seq<Reading>, nodes: seq<TraceNode>, r: Reading, ra: U64, text: Memory)
      requires Record(p.program, name, entry, true, ra, log, nodes, r.pos)
      requires text == p.program.text || text == Planted(p.program.text, ra)
      ensures Leftover(p.program, entry, log, text) && Leftover(p.program, entry, log + [r], text)
    {
      RecordAlsoSays(p.program, name, entry, true, ra, log, nodes, r.pos);
      assert |log| % 2 == 1 && (log + [r])[|log| - 1] == log[|log| - 1];
    }

    /** What a SIGTRAP stop calls for; a trap of unknown origin is ignored. Which requests decide whether
        it fails, and where, is known beforehand. */
    method React(regs: Regs) returns (ok: bool)
      requires OnePatch() && p.state.Stopped? && regs == p.cpu.regs && p.requests > 0
      requires Observable(p.program, entry) ==> AtBreakpoint()
      modifies this, p`requests, p`misused, p`text, p`cpu, p`readings
      ensures p.requests >= old(p.requests) && p.misused == old(p.misused)
      ensures |results| <= |old(results)| + 1
      ensures ok ==> OnePatch()
      ensures ok && Observable(p.program, entry) ==> InStep()
      ensures !ok ==> AfterFailure()
      ensures !ok && Observable(p.program, entry) ==>
                && Failed()
                && p.text == WithPatch(p.program.text, PatchAtThrow(Given(), old(Here()).(threw := Some(threw))))
      ensures Observable(p.program, entry) ==>
                (if ok then None else Some(threw)) == if old(waiting) then ReturnThrow(p.fates, old(p.requests))
                else EntryThrow(p.fates, old(p.requests), ReturnAddress(p.program, p.pos).Some?)
      ensures ok && Observable(p.program, entry) ==>
                Here() == TraceHandled(Given(), old(Here()).(asked := old(p.requests) - 1))
    {
      hide Observable, Record, WindowInText, LastReturn, PeekWord, Leftover, ReturnAddress, Planted;
      hide ReturnPatchableIfReadable, Saved, Hit, Replay, BehindBreakpoint, OneBehind;
      ghost var prog, nodes, log, before := p.program, results, p.readings, p.cpu;
      if Observable(prog, entry) {
        BehindIsFound(prog, Awaited(), p.pos, p.cpu);
        if waiting {
          AwaitedIsText();
        } else {
          WhyEntryFails(p.pos, p.cpu);
        }
      }
      var hit := Wrap(regs.pc - 1);
      if !waiting && hit == entry {
        ok := OnEntry(regs);
        if Observable(prog, entry) {
          if ok {
            EntryInStep(log, nodes, entryTs, p.pos, before, ret, p.cpu);
          } else {
            EntryLeaves(log, nodes, Reading(p.pos, entryTs), p.text);
          }
        }
      } else if waiting && hit == ret {
        ok := OnReturn(regs);
        if Observable(prog, entry) {
          if ok {
            ReturnInStep(log, nodes, p.readings[|log|].time, p.pos, before, ret, p.cpu);
          } else {
            ReturnLeaves(log, nodes, p.readings[|log|], ret, p.text);
          }
        }
      } else {
        ok := true;
      }
    }

    // The breakpoint that is there may be left behind.
    lemma AwaitedLeaves()
      requires OnePatch() && Recorded()
      ensures Leftover(p.program, entry, p.readings, p.text)
    {
      hide Record, Saved, Planted;
      RecordAlsoSays(p.program, name, entry, waiting, Awaited(), p.readings, results, p.pos);
    }

    // PTRACE_CONT where it is due.
    method Resume(needCont: bool)
      requires OnePatch() && needCont == p.state.Stopped? && InHand(p.state)
      requires Observable(p.program, entry) ==> InStep() && !SignalPending(p.state)
      modifies p`cpu, p`pos, p`state, p`misused, p`requests
      ensures OnePatch() && p.misused == old(p.misused) && p.requests >= old(p.requests)
      ensures p.state.Running? || p.state.Exited?
      ensures Observable(p.program, entry) ==> InStep()
      ensures Observable(p.program, entry) ==> Here() == Continued(Given(), old(Here()))
      ensures old(p.state).Stopped? ==>
                p.requests == old(p.requests) + 1 && (!p.fates(old(p.requests)) ==> p.state.Running?)
    {
      hide Observable, Record, PatchTarget, Replay;
      Patched();
      Stepping.Resume(p, entry, Awaited(), needCont);
    }

    /** What to do about a reported stop. needCont: the target has not been continued; ok is false
        where the original throws. */
    method OnStop(sig: nat) returns (ok: bool, needCont: bool)
      requires OnePatch() && p.state.Stopped? && p.state.reaped && sig == StopSignal(p.state.stop)
      requires Observable(p.program, entry) ==>
                 (sig == SIGTRAP <==> p.state.stop.AtTrap?) && p.state.stop != AtAttach
      requires Observable(p.program, entry) ==> if TrapPending(p.state) then AtBreakpoint() else InStep()
      modifies this, p`requests, p`misused, p`text, p`cpu, p`readings, p`pos, p`state
      ensures p.requests >= old(p.requests) && p.misused == old(p.misused)
      ensures |results| <= |old(results)| + if sig == SIGTRAP then 1 else 0
      ensures if needCont then p.state == old(p.state) else p.state.Running? || p.state.Exited?
      ensures sig == SIGTRAP ==> needCont
      ensures ok ==> OnePatch()
      ensures ok && Observable(p.program, entry) ==> InStep() && !SignalPending(p.state)
      ensures !ok ==> AfterFailure() && p.state == old(p.state)
      ensures !ok && Observable(p.program, entry) ==> Failed() && sig == SIGTRAP
      ensures Observable(p.program, entry) ==> Reaches(Handled(Given(), old(Here())), ok)
    {
      hide Observable, Record, LastReturn, Saved, Planted, Replay, Leftover, TraceHandled, ReturnAddress;
      needCont := true;
      if sig != SIGTRAP {
        Forward(sig);
        return true, false;
      }
      if Observable(p.program, entry) {
        BehindIsFound(p.program, Awaited(), p.pos, p.cpu);
        AwaitedLeaves();
      }
      var regs := p.GetRegs();
      threw := Throw(GettingRegs, p.requests - 1);
      if regs.None? {
        return false, true;
      }
      ok := React(regs.value);
    }

    /** One round, from the head of the loop: whether it leads back there, or out of the loop by
        exception (ok is false) or otherwise. */
    method Round(turn: Turn, cont: bool) returns (ok: bool, goOn: bool, needCont: bool)
      requires OnePatch() && cont == p.state.Stopped? && InHand(p.state) && |results| < count
      requires Observable(p.program, entry) ==> InStep() && !SignalPending(p.state)
      modifies this, p`requests, p`misused, p`text, p`cpu, p`readings, p`pos, p`state, p`reports
      ensures p.requests >= old(p.requests) && p.misused == old(p.misused) && |results| <= count
      ensures goOn ==>
                && ok && OnePatch() && !turn.lateToWait && p.reports == old(p.reports) + 1
                && needCont == p.state.Stopped? && InHand(p.state)
                && (p.state.Stopped? ==> p.state.reaped) && (|results| == count ==> p.state.Stopped?)
                && (Observable(p.program, entry) ==> InStep() && !SignalPending(p.state))
      ensures ok && !goOn ==>
                && OnePatch() && InHand(p.state) && p.reports == old(p.reports) && |results| < count
                && (turn.lateToWait || !(p.state.Stopped? && p.state.reaped))
                && !(p.state.Stopped? && p.state.reaped)
                && (Observable(p.program, entry) ==> Settled())
      ensures !ok ==> !goOn && AfterFailure() && p.state.Stopped? && !turn.lateToWait
      ensures !ok && Observable(p.program, entry) ==>
                Failed() && TrapPending(p.state)
      ensures Observable(p.program, entry) ==>
                var r := Schedule.Round(Given(), old(Here()), turn); goOn == r.GoOn? && Reaches(r.c, ok)
      ensures p.reports <= old(p.reports) + if turn.lateToWait || !turn.inTime then 0 else 1
      ensures old(p.state).Stopped? && turn.lateToWait ==>
                && p.requests > old(p.requests) && waiting == old(waiting)
                && (!p.fates(old(p.requests)) ==> ok && p.state.Running?)
    {
      hide Observable, Record, LeftAt, Saved, Planted, BehindBreakpoint, Replay, Hit, Leftover, LastReturn;
      hide Waited, Handled, Continued, Failed;
      ok, goOn, needCont := true, false, false;
      Resume(cont);
      if turn.lateToWait {
        return;
      }
      var status := AwaitStop(turn);
      if !status.StoppedBy? {
        return;
      }
      ok, needCont := OnStop(status.sig);
      goOn := ok;
    }

    /** The loop. False where the original leaves it by exception. The deadline has passed when
        the turns are used up. */
    method Loop(turns: seq<Turn>) returns (ok: bool)
      requires OnePatch() && !waiting && results == [] && p.state == Stopped(AtAttach, true)
      requires Observable(p.program, entry) ==> InStep()
      modifies this, p`requests, p`misused, p`text, p`cpu, p`readings, p`pos, p`state, p`reports
      ensures p.requests >= old(p.requests) && p.misused == old(p.misused)
      ensures |results| <= count
      ensures ok ==> |results| == count || Excused(turns, p.reports - old(p.reports))
                     || !(p.state.Stopped? && p.state.reaped)
      ensures ok && |results| == count ==> p.state.Stopped? && p.state.reaped
      ensures ReportsWithin(turns, p.reports - old(p.reports))
      ensures OverAtOnce(turns, count) ==>
                && ok && results == [] && !waiting && p.state == old(p.state) && p.requests == old(p.requests)
                && p.pos == old(p.pos) && p.cpu == old(p.cpu) && p.text == old(p.text)
      ensures !ok ==> AfterFailure() && p.state.Stopped?
      ensures !ok && Observable(p.program, entry) ==>
                Failed() && TrapPending(p.state)
      ensures Observable(p.program, entry) ==> Reaches(Rounds(Given(), turns, 0, old(Here())), ok)
      ensures LateOnceContinued(turns) && count > 0 ==>
                && p.requests > old(p.requests)
                && (!p.fates(old(p.requests)) ==> ok && p.state.Running? && !waiting)
      ensures ok ==> OnePatch() && InHand(p.state)
      ensures ok && Observable(p.program, entry) ==> Settled()
    {
      hide Observable, Record, LeftAt, Saved, Planted, BehindBreakpoint, Replay, Hit, Leftover, LastReturn;
      hide Rounds, Schedule.Round;
      ghost var start := Here();
      var needCont := true;
      var i := 0;
      while |results| < count
        invariant 0 <= i <= |turns| && |results| <= count && p.reports == old(p.reports) + i
        invariant OnePatch() && p.misused == old(p.misused) && p.requests >= old(p.requests)
        invariant needCont == p.state.Stopped?
        invariant InHand(p.state) && (p.state.Stopped? ==> p.state.reaped) && (|results| == count ==> p.state.Stopped?)
        invariant i == 0 ==> !waiting && results == [] && p.state == old(p.state) && p.requests == old(p.requests)
        invariant i > 0 ==> !LateOnceContinued(turns) && !OverAtOnce(turns, count)
        invariant i == 0 ==> p.pos == old(p.pos) && p.cpu == old(p.cpu) && p.text == old(p.text)
        invariant forall k :: 0 <= k < i ==> !ReportsNone(turns[k])
        invariant Observable(p.program, entry) ==> InStep() && !SignalPending(p.state)
        invariant Observable(p.program, entry) ==>
                    Rounds(Given(), turns, i, Here()) == Rounds(Given(), turns, 0, start)
        decreases |turns| - i
      {
        RoundsNext(Given(), turns, i, Here());
        if i == |turns| || turns[i].stop || turns[i].late {
          break;
        }
        var goOn;
        ok, goOn, needCont := Round(turns[i], needCont);
        if !goOn {
          return;
        }
        i := i + 1;
      }
      RoundsNext(Given(), turns, i, Here());
      ok := true;
    }

    /** The guard, on the way out by exception: true if its write took effect. The only breakpoint, if
        any, is at `left`. */
    method Guard(ghost left: int) returns (ok: bool)
      requires p.Valid() && Saved(p.program.text, entry, guardWord) && p.state.Stopped?
      requires p.text == p.program.text || p.text == Planted(p.program.text, left)
      modifies p`requests, p`misused, p`text, p`cpu, p`state
      ensures p.Valid() && p.misused == old(p.misused) && p.requests == old(p.requests) + 2
      ensures p.text == if ok && InWindow(entry, left) then p.program.text else old(p.text)
      ensures WindowInText(p.program.text, entry) ==> ok == !p.fates(old(p.requests)) && p.cpu == old(p.cpu)
      ensures p.cpu.regs == old(p.cpu).regs && p.pos == old(p.pos)
      ensures p.state == LetGo(p.fates(p.requests - 1), old(p.state))
    {
      hide Saved, Planted, WindowInText;
      ok := RestoreWord(p, entry, guardWord, left);
      p.Detach();
    }

    // On the way out of the loop by exception: true if the guard's write took effect.
    method Abandon(ghost at: Option<int>) returns (ok: bool)
      requires AfterFailure() && p.state.Stopped?
      requires !p.misused && (Observable(p.program, entry) ==> Failed() && TrapPending(p.state))
      requires Observable(p.program, entry) ==> p.text == WithPatch(p.program.text, at)
      modifies p`requests, p`misused, p`text, p`cpu, p`state
      ensures p.requests > old(p.requests) && p.pos == old(p.pos) && !p.state.Arriving?
      ensures Kept(p, name, entry, count, Threw(InLoop(ok)), old(p.state), threw)
      ensures Observable(p.program, entry) ==> 
                && LeftAt(p.program, p.pos, p.cpu, threw)
                && ok == !p.fates(threw.number + 1) && p.requests == threw.number + 3
                && p.text == if ok && at.Some? && InWindow(entry, at.value) then p.program.text else old(p.text)
    {
      hide Observable, Saved, WindowInText, LastReturn, LeftAt;
      ghost var left: int := entry;
      if Observable(p.program, entry) {
        PatchTargetIsText(p.program, entry, entry);
        left := if at.Some? then at.value else entry;
      } else if p.text != p.program.text && p.text != Planted(p.program.text, entry) {
        left := ret;
      }
      assert InWindow(entry, entry);
      ok := Guard(left);
    }

    // The target goes on by itself between the loop and the clean-up.
    method Linger(moves: nat)
      requires OnePatch() && InHand(p.state) && (Observable(p.program, entry) ==> Settled())
      modifies p`cpu, p`pos, p`state
      ensures p.misused == old(p.misused)
      ensures moves == 0 ==> p.state == old(p.state)
      ensures old(p.state).Stopped? || (p.state.Stopped? && p.state.reaped) ==> p.state == old(p.state)
      ensures old(p.state).Stopped? ==> p.pos == old(p.pos) && p.cpu == old(p.cpu)
      ensures OnePatch() && InHand(p.state) && (Observable(p.program, entry) ==> Settled())
      ensures Observable(p.program, entry) && SignalPending(p.state) ==> p.state.stop.sig != 0
      ensures p.requests == old(p.requests)
      ensures Observable(p.program, entry) ==> Here() == Drifted(Given(), old(Here()), moves)
    {
      hide Observable, Record, PatchTarget, Ahead, Replay;
      ghost var was, runs := p.pos, p.state.Running?;
      Patched();
      Drift(p, entry, Awaited(), moves);
      if Observable(p.program, entry) && runs {
        RecordLater(p.program, name, entry, waiting, Awaited(), p.readings, results, was, p.pos);
      }
    }

    // The clean-up after the loop, with the guard off: false where the original throws.
    method CleanUp() returns (ok: bool)
      requires OnePatch()
      modifies p`requests, p`misused, p`text, p`cpu
      ensures p.Valid() && p.requests >= old(p.requests) && p.cpu.regs == old(p.cpu).regs
      ensures p.misused == (old(p.misused) || (!p.state.Stopped? && !p.state.Exited?))
      ensures ok ==> p.state.Stopped? && (p.text == p.program.text || p.text == Planted(p.program.text, 0))
      ensures !p.state.Stopped? ==> !ok && p.text == old(p.text)
      ensures WindowInText(p.program.text, entry) && WindowInText(p.program.text, Awaited()) ==>
                && p.cpu == old(p.cpu)
                && (ok <==> && p.state.Stopped? && !p.fates(old(p.requests))
                            && (waiting && ret != 0 ==> !p.fates(old(p.requests) + 1)))
                && (ok ==> p.requests == old(p.requests) + if waiting && ret != 0 then 2 else 1)
                && (Awaited() != 0 ==>
                      && ok == !CleanUpFails(Given(), old(Here()))
                      && p.text == (if ok then p.program.text
                                    else WithPatch(p.program.text, PatchUncleaned(Given(), old(Here()))))
                      && (ok ==> p.requests == old(p.requests) + Pokes(Given(), old(Here()))))
    {
      hide Saved, WindowInText;
      if waiting && ret != 0 {
        ok := RestoreWord(p, ret, origRet, ret);
        if !ok {
          return;
        }
      }
      ok := RestoreWord(p, entry, origEntry, Awaited());
    }

    lemma AwaitedIsText()
      requires Observable(p.program, entry) && Recorded()
      ensures WindowInText(p.program.text, entry) && WindowInText(p.program.text, Awaited())
      ensures Awaited() in p.program.text && Awaited() != 0
    {
      hide Observable, Record;
      assert InWindow(Awaited(), Awaited());
      PatchTargetIsText(p.program, entry, entry);
      RecordSays(p.program, name, entry, waiting, Awaited(), p.readings, results, p.pos);
      PatchTargetIsText(p.program, entry, Awaited());
    }

    // The registers and the memory of a target behind the loop.
    lemma SettledSays()
      requires p.Valid() && Settled()
      requires Observable(p.program, entry) && SignalPending(p.state) ==> p.state.stop.sig != 0
      ensures p.cpu == CpuFound(Given(), Here())
      ensures Observable(p.program, entry) && p.state.Stopped? ==>
                (p.cpu == Replay(p.program, p.pos) && LostBy(p.state) == 0 <==> p.state.reaped)
    {
      hide Observable, Record, Hit, BehindBreakpoint, Replay, OneBehind;
      if TrapPending(p.state) && !p.state.reaped {
        BehindIsFound(p.program, Awaited(), p.pos, p.cpu);
      }
      if Observable(p.program, entry) && p.state.Stopped? {
        LetGoInStep(p.program, Awaited(), p.pos, p.cpu, p.state);
      }
    }

    // What follows the loop.
    method Finish(moves: nat) returns (ok: bool, ghost left: RunState)
      requires OnePatch() && InHand(p.state) && !p.misused
      requires Observable(p.program, entry) ==> Settled()
      modifies p`cpu, p`pos, p`state, p`requests, p`misused, p`text
      ensures p.Valid() && InHand(left)
      ensures old(p.state).Stopped? || (left.Stopped? && left.reaped) ==> left == old(p.state)
      ensures !ok ==> p.state == left
      ensures p.requests >= old(p.requests)
      ensures old(p.state).Stopped? && !waiting && WindowInText(p.program.text, entry) ==>
                && ok == !p.fates(old(p.requests)) && left == old(p.state)
                && p.pos == old(p.pos) && p.cpu == old(p.cpu)
                && (ok ==> p.requests == old(p.requests) + 2)
      ensures p.misused == left.Running?
      ensures ok ==> left.Stopped? && p.requests > 0 && p.state == LetGo(p.fates(p.requests - 1), left)
      ensures old(p.state).Running? && moves == 0 ==> left.Running?
      ensures ok ==> p.text == p.program.text || p.text == Planted(p.program.text, 0)
      ensures !left.Stopped? ==> !ok && p.text == Planted(p.program.text, Awaited())
      ensures Observable(p.program, entry) ==>
                var e := Drifted(Given(), old(Here()), moves);
                && left == e.run && p.pos == e.pos && p.cpu == CpuFound(Given(), e) && ok == !CleanUpFails(Given(), e)
                && p.text == (if ok then p.program.text else WithPatch(p.program.text, PatchUncleaned(Given(), e)))
                && (ok ==> p.requests == e.asked + Pokes(Given(), e) + 1)
      ensures Observable(p.program, entry) && !left.Stopped? ==> StillPatched(p, entry)
      ensures ok && Observable(p.program, entry) ==> Faithful(p, name, entry, results, left)
    {
      hide Observable, Record, Saved, WindowInText, Selects, NodesMatch, NoneMissed, PatchTarget, Drifted;
      hide CleanUpFails, Pokes, PatchUncleaned, CpuFound, Hit, BehindBreakpoint, Replay, Planted;
      Linger(moves);
      left := p.state;
      if Observable(p.program, entry) {
        AwaitedIsText();
        RecordSays(p.program, name, entry, waiting, Awaited(), p.readings, results, p.pos);
        RecordAlsoSays(p.program, name, entry, waiting, Awaited(), p.readings, results, p.pos);
        SettledSays();
      }
      ok := CleanUp();
      if ok {
        p.Detach();
      }
    }

    // The same, with the outcome of the command.
    method Conclude(moves: nat) returns (r: Outcome<seq<TraceNode>>, ghost left: RunState)
      requires OnePatch() && InHand(p.state) && !p.misused && |results| <= count
      requires Observable(p.program, entry) ==> Settled()
      requires |results| == count ==> p.state.Stopped? && p.state.reaped
      modifies p`cpu, p`pos, p`state, p`requests, p`misused, p`text
      ensures Kept(p, name, entry, count, r, left, threw) && !p.state.Arriving?
      ensures p.requests >= old(p.requests)
      ensures r == Returned(results) || r == Threw(CleaningUp)
      ensures old(p.state).Stopped? && !waiting && WindowInText(p.program.text, entry) ==>
                && r.Returned? == !p.fates(old(p.requests)) && left == old(p.state)
                && p.pos == old(p.pos) && p.cpu == old(p.cpu)
                && (r.Returned? ==> p.requests == old(p.requests) + 2)
      ensures r.Returned? ==> left.Stopped?
      ensures left.Stopped? && left.reaped ==> left == old(p.state)
      ensures old(p.state).Running? && moves == 0 ==>
                r == Threw(CleaningUp) && p.text == Planted(p.program.text, Awaited())
      ensures Observable(p.program, entry) ==>
                var e := Drifted(Given(), old(Here()), moves);
                && left == e.run && p.pos == e.pos && p.cpu == CpuFound(Given(), e)
                && r.Returned? == !CleanUpFails(Given(), e)
                && p.text == (if r.Returned? then p.program.text
                              else WithPatch(p.program.text, PatchUncleaned(Given(), e)))
                && (r.Returned? ==> p.requests == e.asked + Pokes(Given(), e) + 1)
    {
      hide Observable, Record, Saved, Faithful, StillPatched, Drifted, Planted, Settled, LeftBy;
      var ok;
      ok, left := Finish(moves);
      r := if ok then Returned(results) else Threw(CleaningUp);
      if 0 !in p.program.text {
        PlantedOutside(p.program.text, 0);
      }
    }

    // The loop and what follows it.
    method Run(turns: seq<Turn>, slack: nat) returns (r: Outcome<seq<TraceNode>>, ghost left: RunState)
      requires OnePatch() && !waiting && results == [] && p.state == Stopped(AtAttach, true) && !p.misused
      requires Observable(p.program, entry) ==> InStep()
      modifies this, p`cpu, p`pos, p`state, p`requests, p`misused, p`text, p`readings, p`reports
      ensures p.requests >= old(p.requests)
      ensures Kept(p, name, entry, count, r, left, threw) && !p.state.Arriving?
      ensures r.Threw? ==> r.site.InLoop? || r.site.CleaningUp?
      ensures r.Returned? ==> |r.value| == count || Excused(turns, p.reports - old(p.reports)) || !left.reaped
      ensures Observable(p.program, entry) ==>
                Ends(p, Given(), Drifted(Given(), Rounds(Given(), turns, 0, old(Here())), slack), r, left, threw)
      ensures ReportsWithin(turns, p.reports - old(p.reports))
      ensures OverAtOnce(turns, count) && WindowInText(p.program.text, entry) ==>
                && r == (if p.fates(old(p.requests)) then Threw(CleaningUp) else Returned([]))
                && left == old(p.state) && p.pos == old(p.pos) && p.cpu == old(p.cpu)
                && (r.Returned? ==> p.requests == old(p.requests) + 2)
      ensures LateOnceContinued(turns) && count > 0 ==>
                && p.requests > old(p.requests)
                && (slack == 0 && !p.fates(old(p.requests)) ==>
                      r == Threw(CleaningUp) && p.text == Planted(p.program.text, entry))
    {
      hide Observable, Record, LeftAt, Saved, Faithful, StillPatched;
      hide Rounds, Drifted, Leftover, LastReturn, Planted, LeftBy, Excused, InWindow, Settled, InStep, Failed;
      hide DueAddress, CleanUpFails, Pokes, PatchUncleaned, PatchAtThrow;
      hide Kept;
      ghost var start := Here();
      var ok := Loop(turns);
      if ok {
        r, left := Conclude(slack);
      } else {
        left := p.state;
        ghost var at := None;
        if Observable(p.program, entry) {
          at := PatchAtThrow(Given(), Rounds(Given(), turns, 0, start));
        }
        ok := Abandon(at);
        r := Threw(InLoop(ok));
      }
    }
  }

  /** The command from the attach on; `slack` moves happen between the end of the loop and the clean-up. The
      untraced run, the schedule and the fates of the requests decide how it ends and in which state it leaves
      the target. threw: the request that an exception out of the loop is about. */
  method Trace(p: Tracee, name: string, entry: U64, count: int, attachMoves: nat, stopsInTime: bool,
               turns: seq<Turn>, slack: nat)
    returns (r: Outcome<seq<TraceNode>>, ghost left: RunState, ghost threw: Throw)
    requires p.Valid() && p.state == Released(0) && p.pos == 0 && p.readings == [] && !p.misused
    requires p.text == p.program.text && p.cpu == p.program.start
    modifies p
    ensures Kept(p, name, entry, count, r, left, threw)
    // The way in.
    ensures var barred := Barred(p.fates, old(p.requests), count, attachMoves, stopsInTime);
            && (r == Threw(Attaching) <==> barred == Some(Attaching))
            && (r == Threw(Reserving) <==> barred == Some(Reserving))
            && (WindowInText(p.program.text, entry) ==> (r == Threw(Arming) <==> barred == Some(Arming)))
    ensures r.Threw? && r.site in {Attaching, Reserving, Arming} ==>
              p.state == BarredState(p.fates, old(p.requests), attachMoves, r.site)
    ensures p.state.Arriving? <==> attachMoves == 0 && !p.fates(old(p.requests))
    // The way out.
    ensures r.Returned? ==> |r.value| == count || Excused(turns, p.reports - old(p.reports) - 1) || !left.reaped
    ensures && Observable(p.program, entry)
            && Barred(p.fates, old(p.requests), count, attachMoves, stopsInTime).None? ==>
              var plan := TracePlan(p, entry, count);
              var e := Ending(plan, turns, slack, old(p.requests) + 3);
              && Ends(p, plan, e, r, left, threw)
              && (e.threw.Some? && !p.fates(threw.number) ==> ReturnUnreadable(p.program, entry))
    // Nothing is begun once there is a reason not to.
    ensures ReportsWithin(turns, p.reports - old(p.reports) - 1)
    ensures var k := old(p.requests);
            && OverAtOnce(turns, count) && count >= 0 && attachMoves > 0 && stopsInTime
            && !p.fates(k) && !p.fates(k + 1) && !p.fates(k + 2) && WindowInText(p.program.text, entry) ==>
              && r == (if p.fates(k + 3) then Threw(CleaningUp) else Returned([]))
              && left == Stopped(AtAttach, true) && p.pos == 0 && p.cpu == p.program.start
              && (r.Returned? ==> p.requests == k + 5)
    ensures LateOnceContinued(turns) && slack == 0 && count > 0 && attachMoves > 0 && stopsInTime
            && p.Untroubled(old(p.requests)) && WindowInText(p.program.text, entry) ==>
              r == Threw(CleaningUp) && p.text == Planted(p.program.text, entry)
  {
    hide Observable, Record, LeftAt, Saved, WindowInText, ReturnUnreadable, Faithful, StillPatched;
    hide Rounds, Drifted, PatchTarget, Leftover, LastReturn, LeftBy, RoundThrow, CleanUpFails, Pokes;
    hide Kept, LastHead, LetGo, Excused, Planted;
    threw := Throw(GettingRegs, 0);
    if Observable(p.program, entry) {
      PatchTargetIsText(p.program, entry, entry);
    }
    var armed := Arm(p, entry, count, attachMoves, stopsInTime);
    if armed.Threw? {
      BarredKept(p, name, entry, count, armed.site, threw);
      return Threw(armed.site), p.state, threw;
    }
    var s := new TraceSession(p, name, entry, count, armed.value);
    ghost var plan := TracePlan(p, entry, count);
    assert s.Here() == Outset(plan, p.requests);
    ThrowsExactly(plan, turns, 0, Outset(plan, p.requests));
    r, left := s.Run(turns, slack);
    threw := s.threw;
  }
}
