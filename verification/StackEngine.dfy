/** The stack command: sampling the call stack at the entry of a function. */
module StackEngine {
  import opened Words
  import opened Machine
  import opened Ptrace
  import opened Breakpoints
  import opened Schedule
  import opened Selection
  import opened Stepping
  import opened Frames

  import Dies
  import Symbols

  datatype StackEvent = StackEvent(timestamp: U64, funcName: string, frames: seq<string>)

  // What the numbered requests for words of a stopped target return.
  function ReaderOf(fates: nat -> bool, text: Memory, data: Memory): Reader {
    (k: nat, a: U64) => if fates(k) then None else PeekWord(text, data, a)
  }

  lemma ReaderAt(fates: nat -> bool, text: Memory, data: Memory, k: nat, a: U64)
    ensures ReaderOf(fates, text, data)(k, a) == if fates(k) then None else PeekWord(text, data, a)
  {
  }

  // The reader of a target stopped at position r.pos.
  function ReaderAtStop(p: Program, fates: nat -> bool, r: Reading): Reader
    requires r.pos <= |p.tape|
  {
    ReaderOf(fates, p.text, Replay(p, r.pos).data)
  }

  // The first request behind a sample whose first request is number k.
  function BehindSample(p: Program, fates: nat -> bool, r: Reading, k: nat): nat
    requires r.pos <= |p.tape|
  {
    var regs := Replay(p, r.pos).regs;
    k + SampleCost(ReaderAtStop(p, fates, r), k, regs.sp, regs.fp)
  }

  /** The number of the first request behind a sample that the requests from number k on take at position pos. */
  function WalkEnd(p: Program, fates: nat -> bool): (nat, nat) -> nat {
    (pos: nat, k: nat) => if pos <= |p.tape| then BehindSample(p, fates, Reading(pos, 0), k) else k
  }

  // What decides the course of the command besides the schedule.
  function StackPlan(p: Tracee, entry: int, count: nat): Plan {
    Plan(p.program, p.fates, WalkEnd(p.program, p.fates), Sampling, entry, count)
  }

  /** A sample, taken by the requests from number k on, shows the stack that the untraced run has at an
      arrival at the entry. */
  ghost predicate SampleMatches(p: Program, fates: nat -> bool, name: string, z: Symbolizer, entry: int,
                                r: Reading, sample: StackEvent, k: nat)
    requires forall s :: s in z.index ==> s.at < |z.cache|
  {
    && Hit(p, entry, r.pos)
    && sample.timestamp == r.time && sample.funcName == name
    && var regs := Replay(p, r.pos).regs;
       sample.frames == SampleFrames(name, z, ReaderAtStop(p, fates, r), k, regs.sp, regs.fp)
  }

  /** End to end: a sample whose own requests succeed, taken on a well-formed frame chain, lists the
      function, its caller and the callers' callers by name, in call order. */
  lemma SampleShowsCallChain(p: Program, fates: nat -> bool, name: string, z: Symbolizer, entry: int,
                             r: Reading, sample: StackEvent, k: nat, ra: U64, chain: seq<Link>, callers: seq<nat>)
    requires z.Ready() && z.Unambiguous()
    requires SampleMatches(p, fates, name, z, entry, r, sample, k)
    requires forall j :: k <= j < BehindSample(p, fates, r, k) ==> !fates(j)
    requires ReturnAddress(p, r.pos) == Some(ra)
    requires IsChain((a: U64) => PeekWord(p.text, Replay(p, r.pos).data, a), Replay(p, r.pos).regs.fp, chain)
    requires |callers| == |chain| + 1 && z.Inside(callers[0], ra)
    requires forall i :: 0 <= i < |chain| ==> z.Inside(callers[i + 1], chain[i].ret)
    ensures ShowsCallers(z, name, callers, sample.frames)
  {
    hide IsChain, SampleFrames, PeekWord, ShowsCallers, SampleCost;
    var cpu := Replay(p, r.pos);
    var memory := (a: U64) => PeekWord(p.text, cpu.data, a);
    var read := ReaderOf(fates, p.text, cpu.data);
    assert Steady(read, memory, k, k + SampleCost(read, k, cpu.regs.sp, cpu.regs.fp));
    SampleIsCallChain(name, z, read, memory, k, cpu.regs.sp, cpu.regs.fp, ra, chain, callers);
  }

  /** What names the frames is the finder of the program: its table and index, once built, with the
      distance between run-time and link-time addresses. */
  lemma FinderNames(finder: Dies.SymbolFinder, slide: U64)
    requires finder.Valid() && finder.built
    ensures Symbolizer(finder.cache, finder.idxByAddr, slide).Ready()
  {
    hide Symbols.Indexes, Dies.NamesFirst;
    Symbols.EntriesInRange(finder.cache, finder.idxByAddr);
  }

  // The entries among the stops of the log are where the samples were taken.
  ghost predicate EntriesOf(log: seq<Reading>, readings: seq<Reading>) {
    && |readings| == (|log| + 1) / 2
    && forall k :: 0 <= k < |readings| ==> log[2 * k].pos == readings[k].pos
  }

  // The samples are the calls selected like those of the trace command, none missed before pos.
  ghost predicate SamplesSelected(p: Program, entry: int, readings: seq<Reading>, pos: nat) {
    exists log: seq<Reading> :: Selects(p, entry, log) && EntriesOf(log, readings) && NoneMissed(p, entry, log, pos)
  }

  // The request for the return address behind a sample failed, or there was none to be read.
  ghost predicate BlindBehind(p: Program, fates: nat -> bool, r: Reading, k: nat) {
    r.pos <= |p.tape| && (fates(BehindSample(p, fates, r, k)) || ReturnAddress(p, r.pos).None?)
  }

  // That happened behind some sample that was not the last one wanted.
  ghost predicate Trouble(p: Program, fates: nat -> bool, count: nat, readings: seq<Reading>, starts: seq<nat>) {
    exists i :: 0 <= i < |readings| && i < |starts| && i + 1 < count && BlindBehind(p, fates, readings[i], starts[i])
  }

  // The sample made its requests after number `first` and before number `asked`.
  ghost predicate SampledWithin(p: Program, fates: nat -> bool, r: Reading, k: nat, first: nat, asked: nat) {
    r.pos <= |p.tape| && first <= k && BehindSample(p, fates, r, k) <= asked
  }

  /** Sample i was taken at readings[i] by the requests from number starts[i] on. */
  ghost predicate Samples(p: Program, fates: nat -> bool, name: string, z: Symbolizer, entry: int,
                          first: nat, asked: nat, readings: seq<Reading>, results: seq<StackEvent>, starts: seq<nat>)
    requires forall s :: s in z.index ==> s.at < |z.cache|
  {
    && |readings| == |results| == |starts|
    && forall i :: 0 <= i < |results| ==>
         && SampleMatches(p, fates, name, z, entry, readings[i], results[i], starts[i])
         && SampledWithin(p, fates, readings[i], starts[i], first, asked)
  }

  lemma SampleIsReal(p: Program, fates: nat -> bool, name: string, z: Symbolizer, entry: U64, r: Reading,
                     before: Cpu, sample: StackEvent, k: nat)
    requires forall s :: s in z.index ==> s.at < |z.cache|
    requires Hit(p, entry, r.pos) && before == BehindBreakpoint(p, entry, r.pos)
    requires sample.timestamp == r.time && sample.funcName == name
    requires sample.frames
               == SampleFrames(name, z, ReaderOf(fates, p.text, before.data), k, before.regs.sp, before.regs.fp)
    ensures SampleMatches(p, fates, name, z, entry, r, sample, k)
    ensures BehindSample(p, fates, r, k)
              == k + SampleCost(ReaderOf(fates, p.text, before.data), k, before.regs.sp, before.regs.fp)
    ensures ReturnAddress(p, r.pos) == PeekWord(p.text, before.data, before.regs.sp)
  {
    hide SampleFrames, ReaderOf, SampleCost;
    BehindIsFound(p, entry, r.pos, before);
  }

  lemma SampleEnds(p: Program, fates: nat -> bool, entry: U64, pos: nat, before: Cpu, k: nat)
    requires Hit(p, entry, pos) && before == BehindBreakpoint(p, entry, pos)
    ensures WalkEnd(p, fates)(pos, k)
              == k + SampleCost(ReaderOf(fates, p.text, before.data), k, before.regs.sp, before.regs.fp)
    ensures PeekWord(p.text, before.data, before.regs.sp) == ReturnAddress(p, pos)
  {
    hide ReaderOf, SampleCost;
    BehindIsFound(p, entry, pos, before);
  }

  lemma TroubleGrows(p: Program, fates: nat -> bool, count: nat, readings: seq<Reading>, starts: seq<nat>,
                     r: Reading, k: nat)
    requires Trouble(p, fates, count, readings, starts) && |starts| == |readings|
    ensures Trouble(p, fates, count, readings + [r], starts + [k])
  {
    hide BlindBehind;
    var i :| 0 <= i < |readings| && i + 1 < count && BlindBehind(p, fates, readings[i], starts[i]);
    assert (readings + [r])[i] == readings[i] && (starts + [k])[i] == starts[i];
  }

  lemma TroubleNow(p: Program, fates: nat -> bool, count: nat, readings: seq<Reading>, starts: seq<nat>,
                   r: Reading, k: nat)
    requires |starts| == |readings| && |readings| + 1 < count && BlindBehind(p, fates, r, k)
    ensures Trouble(p, fates, count, readings + [r], starts + [k])
  {
    hide BlindBehind;
    assert (readings + [r])[|readings|] == r && (starts + [k])[|readings|] == k;
  }

  lemma OneMoreSample(p: Program, fates: nat -> bool, name: string, z: Symbolizer, entry: int, first: nat, asked: nat,
                      readings: seq<Reading>, results: seq<StackEvent>, starts: seq<nat>,
                      r: Reading, sample: StackEvent, k: nat, later: nat)
    requires forall s :: s in z.index ==> s.at < |z.cache|
    requires Samples(p, fates, name, z, entry, first, asked, readings, results, starts) && asked <= later
    requires SampleMatches(p, fates, name, z, entry, r, sample, k) && SampledWithin(p, fates, r, k, first, later)
    ensures Samples(p, fates, name, z, entry, first, later, readings + [r], results + [sample], starts + [k])
  {
    hide SampleMatches, BehindSample;
  }

  lemma SamplesCount(p: Program, fates: nat -> bool, name: string, z: Symbolizer, entry: int, first: nat, asked: nat,
                     readings: seq<Reading>, results: seq<StackEvent>, starts: seq<nat>)
    requires forall s :: s in z.index ==> s.at < |z.cache|
    requires Samples(p, fates, name, z, entry, first, asked, readings, results, starts)
    ensures |readings| == |results| == |starts|
  {
  }

  // The bounds on the requests may be relaxed.
  lemma SamplesLater(p: Program, fates: nat -> bool, name: string, z: Symbolizer, entry: int, first: nat, asked: nat,
                     readings: seq<Reading>, results: seq<StackEvent>, starts: seq<nat>, later: nat)
    requires forall s :: s in z.index ==> s.at < |z.cache|
    requires Samples(p, fates, name, z, entry, first, asked, readings, results, starts) && asked <= later
    ensures Samples(p, fates, name, z, entry, first, later, readings, results, starts)
  {
    hide SampleMatches, BehindSample;
  }

  lemma BlindHere(p: Program, fates: nat -> bool, r: Reading, k: nat)
    requires r.pos <= |p.tape| && (fates(BehindSample(p, fates, r, k)) || ReturnAddress(p, r.pos).None?)
    ensures BlindBehind(p, fates, r, k)
  {
  }

  /** The log so far, unless some return address could not be read: the next stop is due at
      `awaited`, or none is any more. */
  ghost predicate Chosen(p: Program, entry: int, awaited: Option<int>, waiting: bool,
                         log: seq<Reading>, readings: seq<Reading>, pos: nat) {
    && EntriesOf(log, readings)
    && Selects(p, entry, log)
    && (awaited.Some? ==> Due(p, entry, awaited.value, log, pos) && |log| % 2 == if waiting then 1 else 0)
    && (awaited.None? ==> |log| % 2 == 1)
  }

  lemma ChosenSays(p: Program, entry: int, awaited: Option<int>, waiting: bool,
                   log: seq<Reading>, readings: seq<Reading>, pos: nat)
    requires Chosen(p, entry, awaited, waiting, log, readings, pos)
    ensures SamplesSelected(p, entry, readings, pos)
  {
    hide Selects, EntriesOf, NoneMissed;
    DueMissesNone(p, entry, log, pos);
  }

  lemma ChosenLater(p: Program, entry: int, awaited: int, waiting: bool, log: seq<Reading>, readings: seq<Reading>,
                    pos: nat, later: nat)
    requires Chosen(p, entry, Some(awaited), waiting, log, readings, pos)
    requires pos <= later <= |p.tape| && NoHit(p, awaited, pos, later)
    ensures Chosen(p, entry, Some(awaited), waiting, log, readings, later)
  {
    hide Selects, EntriesOf;
    DueLater(p, entry, awaited, log, pos, later);
  }

  // An arrival at the entry: followed by the return address, or the last one wanted.
  lemma ChosenEntry(p: Program, entry: int, log: seq<Reading>, readings: seq<Reading>, r: Reading, next: Option<int>)
    requires Chosen(p, entry, Some(entry), false, log, readings, r.pos) && Hit(p, entry, r.pos)
    requires next.Some? ==> ReturnAddress(p, r.pos) == next
    ensures Chosen(p, entry, next, next.Some?, log + [r], readings + [r], r.pos)
  {
    hide Selects;
    SelectsOneMore(p, entry, log, r);
    if next.Some? {
      DueAfterStop(p, entry, entry, log, r, next.value);
    }
  }

  lemma ChosenReturn(p: Program, entry: int, ret: int, log: seq<Reading>, readings: seq<Reading>, r: Reading)
    requires Chosen(p, entry, Some(ret), true, log, readings, r.pos) && Hit(p, ret, r.pos)
    ensures Chosen(p, entry, Some(entry), false, log + [r], readings, r.pos)
  {
    hide Selects, Replay, ReturnAddress;
    SelectsOneMore(p, entry, log, r);
    DueAfterStop(p, entry, ret, log, r, entry);
  }

  /** The samples show the untraced run, at the calls selected like those of trace unless the return
      address behind one of them could not be read; the target goes on as if it had never been stopped
      exactly when its last stop was waited for. */
  ghost predicate Faithful(p: Tracee, name: string, entry: int, z: Symbolizer, count: nat, first: nat,
                           samples: seq<StackEvent>, starts: seq<nat>, left: RunState)
    requires forall s :: s in z.index ==> s.at < |z.cache|
    reads p
  {
    && p.pos <= |p.program.tape|
    && Samples(p.program, p.fates, name, z, entry, first, p.requests, p.readings, samples, starts)
    && (!Trouble(p.program, p.fates, count, p.readings, starts) ==>
          SamplesSelected(p.program, entry, p.readings, p.pos))
    && left.Stopped?
    && (p.cpu == Replay(p.program, p.pos) && LostBy(left) == 0 <==> left.reaped)
  }

  // A breakpoint is still there, at an address that the command patches.
  ghost predicate StillPatched(p: Tracee, entry: int)
    reads p
  {
    exists a :: PatchTarget(p.program, entry, a) && a in p.program.text && p.text == Planted(p.program.text, a)
  }

  /** What an exception out of the loop leaves: the request that threw was refused; the whole state is the
      untraced one, or one byte behind it exactly when the target had not been set back; no signal is
      lost; and a breakpoint stays only if a write of the guard failed. */
  ghost predicate LeftBy(p: Tracee, entry: int, threw: Throw, guardOk: bool)
    reads p
  {
    && LeftAt(p.program, p.pos, p.cpu, threw)
    && threw.number < p.requests && p.fates(threw.number)
    && p.state in {Released(0), Exited}
    && (p.text == p.program.text || (!guardOk && StillPatched(p, entry)))
  }

  /** What every outcome of the command keeps. `left` is the run state in which the loop, or the
      clean-up, finds the target; `first` the number of its first request; `threw` is for an exception out
      of the loop. */
  ghost predicate Kept(p: Tracee, name: string, entry: int, z: Symbolizer, count: int, first: nat,
                       r: Outcome<seq<StackEvent>>, starts: seq<nat>, left: RunState, threw: Throw)
    requires forall s :: s in z.index ==> s.at < |z.cache|
    reads p
  {
    && p.Valid()
    // Restoration.
    && (r.Returned? && 0 !in p.program.text ==> p.text == p.program.text)
    && (r.Threw? && r.site in {Attaching, Reserving, Arming} ==> p.text == p.program.text)
    && (r == Threw(InLoop(true)) && 0 !in p.program.text ==> p.text == p.program.text)
    // What an exception leaves.
    && (Observable(p.program, entry) ==>
          && (r == Threw(CleaningUp) && !left.Stopped? ==> StillPatched(p, entry))
          && (r.Threw? && r.site.InLoop? ==> LeftBy(p, entry, threw, r.site.guardOk)))
    // Letting go: not by an exception from outside the loop once the target has stopped for the attach.
    && (r == Threw(Attaching) ==> p.state in {Released(0), Arriving, Exited})
    && (r == Threw(Reserving) ==> count < 0)
    && (r.Threw? && r.site in {Reserving, Arming} ==> p.state == Stopped(AtAttach, true))
    && (r == Threw(CleaningUp) ==> p.state == left && !left.Released?)
    && (r.Threw? && r.site.InLoop? ==>
          left.Stopped? && p.requests > 0 && p.state == LetGo(p.fates(p.requests - 1), left))
    // Protocol: a wrong run state is met by the clean-up, when the target still runs, and by the
    // detach from a target that has not stopped for the attach.
    && (p.misused ==> left.Running? || p.state.Arriving?)
    && (Observable(p.program, entry) ==>
          (p.misused <==> (r == Threw(CleaningUp) && left.Running?) || p.state.Arriving?))
    // Normal return.
    && (r.Returned? ==>
          && |r.value| <= count
          && p.requests > 0 && p.state == LetGo(p.fates(p.requests - 1), left))
    && (r.Returned? && |r.value| == count ==> left.Stopped? && left.reaped)
    && (r.Returned? && Observable(p.program, entry) ==>
          0 <= count && Faithful(p, name, entry, z, count, first, r.value, starts, left))
  }

  lemma StillPatchedLater(p: Tracee, entry: int, a: int)
    requires PatchTarget(p.program, entry, a) && a in p.program.text && p.text == Planted(p.program.text, a)
    ensures StillPatched(p, entry)
  {
  }

  lemma BarredKept(p: Tracee, name: string, entry: int, z: Symbolizer, count: int, first: nat, site: Site,
                   threw: Throw)
    requires forall s :: s in z.index ==> s.at < |z.cache|
    requires p.Valid() && p.text == p.program.text && site in {Attaching, Reserving, Arming}
    requires p.misused == p.state.Arriving? && (site != Attaching ==> p.state == Stopped(AtAttach, true))
    requires site == Attaching ==> p.state in {Released(0), Arriving, Exited}
    requires site == Reserving ==> count < 0
    ensures Kept(p, name, entry, z, count, first, Threw(site), [], p.state, threw)
  {
  }

  /** The local variables of the command, which its guard shares. */
  class StackSession {
    const p: Tracee
    const name: string
    const entry: U64
    const z: Symbolizer
    const count: nat
    ghost const first: nat  // request of the session
    var origEntry: U64
    var armed: bool         // at the entry
    var waiting: bool       // for the return of a call
    var ret: U64
    var origRet: U64
    var results: seq<StackEvent>
    ghost var log: seq<Reading>   // all stops at breakpoints
    ghost var starts: seq<nat>    // the first request of each sample
    ghost var asked: nat          // requests made when the last sample was complete
    ghost var blind: bool         // some return address could not be read
    ghost var threw: Throw        // for an exception out of the loop

    // Where the command is in its course.
    ghost function Here(): Course
      reads this, p
    {
      Course(p.pos, p.state, waiting, Awaited(), |results|, p.requests, None)
    }

    ghost function Given(): Plan {
      StackPlan(p, entry, count)
    }

    /** The course has come to c, where the request that throws, if one does, is `threw` and the guard knows
        what to write. */
    ghost predicate Reaches(c: Course, ok: bool)
      reads this, p
    {
      && p.Valid() && c.threw == (if ok then None else Some(threw)) && c.pos == p.pos && c.run == p.state
      && if ok then c == Here()
         else
           && (armed || waiting) == GuardWrites(Given(), c)
           && p.text == WithPatch(p.program.text, PatchAtThrow(Given(), c))
    }

    // Where the breakpoint is.
    function Awaited(): U64
      reads this
    {
      if waiting then ret else entry
    }

    // What the guard relies on: there is a patch only where the flags say that there may be one.
    ghost predicate Intact()
      reads this, p
    {
      && p.Valid() && (forall s :: s in z.index ==> s.at < |z.cache|)
      && Saved(p.program.text, entry, origEntry)
      && (waiting ==> !armed && Saved(p.program.text, ret, origRet))
      && (p.text == p.program.text || ((armed || waiting) && p.text == Planted(p.program.text, Awaited())))
    }

    /** One patch at a time: text is the original one but for the breakpoint byte. */
    ghost predicate OnePatch()
      reads this, p
    {
      Intact() && (armed || waiting) && p.text == Planted(p.program.text, Awaited())
    }

    // The target is where the untraced run is.
    ghost predicate InStep()
      reads this, p
    {
      && Recorded() && PatchTarget(p.program, entry, Awaited())
      && p.cpu == Replay(p.program, p.pos)
    }

    // The samples and how they were chosen.
    ghost predicate Recorded()
      reads this, p
    {
      && p.Valid() && (forall s :: s in z.index ==> s.at < |z.cache|)
      && Samples(p.program, p.fates, name, z, entry, first, asked, p.readings, results, starts)
      && first <= asked <= p.requests
      && (if blind then Trouble(p.program, p.fates, count, p.readings, starts)
          else Chosen(p.program, entry, if armed || waiting then Some(Awaited() as int) else None, waiting,
                      log, p.readings, p.pos))
    }

    // Where the loop leaves the target: in step, unless it has stopped unnoticed.
    ghost predicate Settled()
      reads this, p
    {
      && (if TrapPending(p.state) && !p.state.reaped then AtBreakpoint() else InStep())
      && (SignalPending(p.state) ==> !p.state.reaped)
      && p.state != Stopped(AtAttach, false)
    }

    // The target has run into the breakpoint and not been set back yet.
    ghost predicate AtBreakpoint()
      reads this, p
    {
      && Recorded() && PatchTarget(p.program, entry, Awaited())
      && Hit(p.program, Awaited(), p.pos)
      && p.cpu == BehindBreakpoint(p.program, Awaited(), p.pos)
    }

    // Where an exception out of the loop finds the target.
    ghost predicate Failed()
      reads this, p
    {
      && LeftAt(p.program, p.pos, p.cpu, threw)
      && p.fates(threw.number) && threw.number + 1 == p.requests
      && PatchTarget(p.program, entry, Awaited())
    }

    constructor (p: Tracee, name: string, entry: U64, z: Symbolizer, count: nat, origEntry: U64, ghost first: nat)
      requires first <= p.requests
      requires p.Valid() && p.readings == [] && p.pos == 0 && forall s :: s in z.index ==> s.at < |z.cache|
      requires Saved(p.program.text, entry, origEntry) && p.text == Planted(p.program.text, entry)
      ensures this.p == p && this.name == name && this.entry == entry && this.z == z && this.count == count
      ensures this.first == first
      ensures OnePatch() && armed && !waiting && results == [] && Recorded()
      ensures PatchTarget(p.program, entry, Awaited())
    {
      this.p, this.name, this.entry, this.z, this.count, this.origEntry := p, name, entry, z, count, origEntry;
      this.first, asked, starts := first, p.requests, [];
      armed, waiting, ret, origRet, results := true, false, 0, 0, [];
      log, blind, threw := [], false, Throw(GettingRegs, 0);
    }

    // The loop over saved frame pointers.
    method WalkChain(start: U64) returns (addrs: seq<U64>)
      requires p.Valid() && p.state.Stopped?
      modifies p`requests, p`misused
      ensures p.Valid() && p.misused == old(p.misused) && p.requests >= old(p.requests)
      ensures addrs == Walk(ReaderOf(p.fates, p.text, p.cpu.data), old(p.requests), start, MAX_WALK)
      ensures p.requests == old(p.requests)
                            + WalkCost(ReaderOf(p.fates, p.text, p.cpu.data), old(p.requests), start, MAX_WALK)
    {
      hide PeekWord, ReaderOf, Walk, WalkCost, Wrap;
      ghost var read := ReaderOf(p.fates, p.text, p.cpu.data);
      ghost var all := Walk(read, p.requests, start, MAX_WALK);
      ghost var end := p.requests + WalkCost(read, p.requests, start, MAX_WALK);
      addrs := [];
      var rbp := start;
      var i := 0;
      while i < MAX_WALK && rbp != 0 && rbp % 8 == 0
        invariant 0 <= i <= MAX_WALK && p.Valid() && p.misused == old(p.misused) && p.requests >= old(p.requests)
        invariant all == addrs + Walk(read, p.requests, rbp, MAX_WALK - i)
        invariant end == p.requests + WalkCost(read, p.requests, rbp, MAX_WALK - i)
        decreases MAX_WALK - i
      {
        ghost var k := p.requests;
        WalkStep(read, k, rbp, MAX_WALK - i);
        var above := Wrap(rbp as int + 8);
        ReaderAt(p.fates, p.text, p.cpu.data, k, rbp);
        ReaderAt(p.fates, p.text, p.cpu.data, k + 1, above);
        var saved := p.Peek(rbp);
        var back := p.Peek(above);
        if back.None? || back.value == 0 {
          assert all == addrs;
          return;
        }
        addrs := addrs + [back.value];
        if saved.None? || saved.value == 0 || saved.value <= rbp {
          assert all == addrs;
          return;
        }
        rbp := saved.value;
        i := i + 1;
      }
      WalkStep(read, p.requests, rbp, MAX_WALK - i);
    }

    // The frame walk: the prologue has not run yet, so the return address is on top of the stack
    // and the frame pointer is still the caller's.
    method WalkStack(rsp: U64, rbp: U64) returns (frames: seq<string>)
      requires p.Valid() && p.state.Stopped? && forall s :: s in z.index ==> s.at < |z.cache|
      modifies p`requests, p`misused
      ensures p.Valid() && p.misused == old(p.misused) && p.requests >= old(p.requests)
      ensures frames == SampleFrames(name, z, ReaderOf(p.fates, p.text, p.cpu.data), old(p.requests), rsp, rbp)
      ensures p.requests == old(p.requests)
                            + SampleCost(ReaderOf(p.fates, p.text, p.cpu.data), old(p.requests), rsp, rbp)
    {
      hide PeekWord, Walk, ReaderOf, WalkCost;
      frames := [name];
      ReaderAt(p.fates, p.text, p.cpu.data, p.requests, rsp);
      var ra := p.Peek(rsp);
      if ra.Some? {
        var addrs := WalkChain(rbp);
        frames := frames + Named(z, [ra.value] + addrs);
      }
    }

    // Take the breakpoint out of the entry and set the target back.
    method Disarm(regs: Regs) returns (ok: bool)
      requires OnePatch() && armed && !waiting && p.state.Stopped? && regs == p.cpu.regs
      modifies this`armed, this`threw, p`requests, p`misused, p`text, p`cpu
      ensures p.requests >= old(p.requests) && p.misused == old(p.misused)
      ensures Intact()
      ensures if ok then !armed && p.text == p.program.text && p.requests == old(p.requests) + 2
              else
                && threw.number + 1 == p.requests
                && armed == threw.request.Restoring? && threw.request in {Restoring, SettingRegs}
                && p.text == if armed then old(p.text) else p.program.text
      ensures WindowInText(p.program.text, entry) ==>
                var k := old(p.requests);
                && (ok <==> !p.fates(k) && !p.fates(k + 1))
                && p.cpu == (if ok then old(p.cpu).(regs := regs.(pc := entry)) else old(p.cpu))
                && (!ok ==> threw == if p.fates(k) then Throw(Restoring, k) else Throw(SettingRegs, k + 1))
    {
      hide Saved, WindowInText, Planted, InWindow;
      ok := RestoreWord(p, entry, origEntry, entry);
      threw := Throw(Restoring, p.requests - 1);
      if ok {
        armed := false;
        ok := p.SetRegs(regs.(pc := entry));
        threw := Throw(SettingRegs, p.requests - 1);
      }
    }

    // First half of the entry branch: disarm, set the target back and take a sample.
    method TakeSample(regs: Regs) returns (ok: bool)
      requires OnePatch() && armed && !waiting && p.state.Stopped? && regs == p.cpu.regs
      modifies this`armed, this`results, this`threw, p`requests, p`misused, p`text, p`cpu, p`readings
      ensures p.requests >= old(p.requests) && p.misused == old(p.misused)
      ensures Intact()
      ensures ok ==> !armed && p.text == p.program.text
      ensures ok ==> |results| == |old(results)| + 1 && results[..|old(results)|] == old(results)
      ensures ok ==> var ev := results[|old(results)|];
                     ev.funcName == name && p.readings == old(p.readings) + [Reading(p.pos, ev.timestamp)]
      ensures ok && WindowInText(p.program.text, entry) ==>
                && p.cpu == old(p.cpu).(regs := regs.(pc := entry))
                && var k, read := old(p.requests) + 2, ReaderOf(p.fates, p.program.text, old(p.cpu).data);
                   && results[|old(results)|].frames == SampleFrames(name, z, read, k, regs.sp, regs.fp)
                   && p.requests == k + SampleCost(read, k, regs.sp, regs.fp)
      ensures !ok ==> results == old(results) && threw.number + 1 == p.requests
      ensures !ok ==>
                && armed == threw.request.Restoring? && threw.request in {Restoring, SettingRegs}
                && p.text == if armed then old(p.text) else p.program.text
      ensures WindowInText(p.program.text, entry) ==>
                var k := old(p.requests);
                && (ok <==> !p.fates(k) && !p.fates(k + 1))
                && (!ok ==>
                      && p.cpu == old(p.cpu)
                      && threw == if p.fates(k) then Throw(Restoring, k) else Throw(SettingRegs, k + 1))
    {
      hide Saved, WindowInText, SampleFrames, SampleCost, ReaderOf, Planted, InWindow;
      ok := Disarm(regs);
      if ok {
        var t := p.Now();
        var frames := WalkStack(regs.sp, regs.fp);
        results := results + [StackEvent(t, name, frames)];
      }
    }

    // Second half: patch the return address or, if that cannot be read, the entry again.
    method Rearm(sp: U64) returns (ok: bool)
      requires Intact() && !armed && !waiting && p.state.Stopped? && p.text == p.program.text
      modifies this`armed, this`waiting, this`ret, this`origRet, this`origEntry, this`threw
      modifies p`requests, p`misused, p`text, p`cpu
      ensures p.requests >= old(p.requests) && p.misused == old(p.misused)
      ensures Intact() && (ok ==> OnePatch())
      ensures !ok ==>
                && !waiting && !armed && p.text == p.program.text
                && threw.number + 1 == p.requests && threw.request.Rearming?
      ensures ok && waiting ==> PeekWord(p.program.text, old(p.cpu).data, sp) == Some(ret)
      ensures ok ==>
                && waiting == (!p.fates(old(p.requests)) && PeekWord(p.program.text, old(p.cpu).data, sp).Some?)
                && p.requests == old(p.requests) + 3
      ensures WindowInText(p.program.text, Awaited()) ==> p.cpu == old(p.cpu)
      ensures WindowInText(p.program.text, entry)
              && ReturnPatchableIfReadable(p.program.text, old(p.cpu).data, sp) ==>
                PatchThrow(p.fates, old(p.requests) + 1) == if ok then None else Some(threw)
    {
      hide Saved, WindowInText, PeekWord, Planted, InWindow;
      var word := p.Peek(sp);
      if word.Some? {
        ret := word.value;
        var orig := InsertBreakpoint(p, ret);
        ok := orig.Some?;
        threw := Throw(Rearming, p.requests - 1);
        if ok {
          origRet, waiting := orig.value, true;
        }
      } else {
        ok := PatchEntry();
      }
    }

    // Patch the entry again.
    method PatchEntry() returns (ok: bool)
      requires Intact() && !armed && !waiting && p.state.Stopped? && p.text == p.program.text
      modifies this`armed, this`origEntry, this`threw, p`requests, p`misused, p`text, p`cpu
      ensures p.requests >= old(p.requests) && p.misused == old(p.misused)
      ensures Intact()
      ensures if ok then OnePatch() && armed && p.requests == old(p.requests) + 2
              else !armed && threw.number + 1 == p.requests && threw.request.Rearming?
      ensures WindowInText(p.program.text, entry) ==>
                && p.cpu == old(p.cpu)
                && PatchThrow(p.fates, old(p.requests)) == if ok then None else Some(threw)
    {
      hide Saved, WindowInText, Planted;
      var orig := InsertBreakpoint(p, entry);
      ok := orig.Some?;
      threw := Throw(Rearming, p.requests - 1);
      if ok {
        origEntry, armed := orig.value, true;
      }
    }

    // The return breakpoint has been hit.
    method OnReturn(regs: Regs) returns (ok: bool)
      requires OnePatch() && waiting && p.state.Stopped? && regs == p.cpu.regs
      modifies this`armed, this`waiting, this`origEntry, this`threw, p`requests, p`misused, p`text, p`cpu
      ensures p.requests >= old(p.requests) && p.misused == old(p.misused)
      ensures ok ==> OnePatch() && !waiting && p.requests == old(p.requests) + 4
      ensures !ok ==>
                && Intact() && threw.number + 1 == p.requests && !armed && waiting == !threw.request.Rearming?
                && p.text == if threw.request.Restoring? then old(p.text) else p.program.text
      ensures Awaited() in {old(Awaited()), entry}
      ensures ok && WindowInText(p.program.text, entry) && WindowInText(p.program.text, ret) ==>
                p.cpu == old(p.cpu).(regs := regs.(pc := ret))
      ensures WindowInText(p.program.text, entry) && WindowInText(p.program.text, ret) ==>
                && ReturnThrow(p.fates, old(p.requests)) == (if ok then None else Some(threw))
                && (!ok ==> p.cpu == if threw.request.Rearming? then old(p.cpu).(regs := regs.(pc := ret))
                                     else old(p.cpu))
    {
      hide Saved, WindowInText, Planted, InWindow;
      ok := RestoreWord(p, ret, origRet, ret);
      threw := Throw(Restoring, p.requests - 1);
      if ok {
        ok := p.SetRegs(regs.(pc := ret));
        threw := Throw(SettingRegs, p.requests - 1);
        if ok {
          waiting := false;
          ok := PatchEntry();
        }
      }
    }

    // The entry branch keeps the target in step and the record true.
    lemma EntryInStep(pos: nat, before: Cpu, after: Cpu, ra: U64)
      requires Observable(p.program, entry)
      requires Hit(p.program, entry, pos) && before == BehindBreakpoint(p.program, entry, pos)
      requires PeekWord(p.program.text, before.data, before.regs.sp) == Some(ra)
      requires WindowInText(p.program.text, ra) ==> after == before.(regs := before.regs.(pc := entry))
      ensures ReturnAddress(p.program, pos) == Some(ra) && PatchTarget(p.program, entry, ra)
      ensures after == Replay(p.program, pos)
    {
      hide Observable;
      BehindIsFound(p.program, entry, pos, before);
      PatchTargetIsText(p.program, entry, ra);
    }

    // A return address that can be read can be patched.
    lemma ReturnIsText(pos: nat, before: Cpu)
      requires Observable(p.program, entry)
      requires Hit(p.program, entry, pos) && before == BehindBreakpoint(p.program, entry, pos)
      ensures WindowInText(p.program.text, entry) && PatchTarget(p.program, entry, entry)
      ensures ReturnPatchableIfReadable(p.program.text, before.data, before.regs.sp)
      ensures before == OneBehind(Replay(p.program, pos))
      ensures before.(regs := before.regs.(pc := entry)) == Replay(p.program, pos)
    {
      hide Observable, WindowInText;
      BehindIsFound(p.program, entry, pos, before);
      PatchTargetIsText(p.program, entry, entry);
      var ra := ReturnAddress(p.program, pos);
      if ra.Some? {
        PatchTargetIsText(p.program, entry, ra.value);
      }
    }

    /** Sampled by the requests from number k on, up to number m, at an arrival at the entry: the record does not
        hold it yet. */
    ghost predicate Sampled(readings: seq<Reading>, samples: seq<StackEvent>, before: Cpu, k: nat, m: nat)
      reads this, p
    {
      && p.Valid() && (forall s :: s in z.index ==> s.at < |z.cache|)
      && Hit(p.program, entry, p.pos) && before == BehindBreakpoint(p.program, entry, p.pos)
      && Samples(p.program, p.fates, name, z, entry, first, asked, readings, samples, starts)
      && first <= asked <= k <= m <= p.requests
      && |results| == |samples| + 1 && results[..|samples|] == samples
      && (var sample, read := results[|samples|], ReaderOf(p.fates, p.program.text, before.data);
          && sample.funcName == name && p.readings == readings + [Reading(p.pos, sample.timestamp)]
          && sample.frames == SampleFrames(name, z, read, k, before.regs.sp, before.regs.fp)
          && m == k + SampleCost(read, k, before.regs.sp, before.regs.fp))
      && (if blind then Trouble(p.program, p.fates, count, readings, starts)
          else Chosen(p.program, entry, Some(entry), false, log, readings, p.pos))
    }

    /** Bring the record up to date with the sample. gap: the entry has been patched again for want of a return
        address. */
    ghost method RecordSample(readings: seq<Reading>, samples: seq<StackEvent>, before: Cpu, k: nat, m: nat, gap: bool)
      requires Intact() && Sampled(readings, samples, before, k, m)
      requires gap ==>
                 && |samples| + 1 < count
                 && (p.fates(m) || PeekWord(p.program.text, before.data, before.regs.sp).None?)
      requires waiting ==> ReturnAddress(p.program, p.pos) == Some(ret)
      requires armed && !waiting ==> gap
      modifies this`log, this`starts, this`asked, this`blind
      ensures Intact() && (old(OnePatch()) ==> OnePatch())
      ensures Recorded()
    {
      hide Samples, SampleMatches, Chosen, Trouble, SampleFrames, ReaderOf, SampleCost, BehindSample, BlindBehind;
      hide PeekWord, Hit, BehindBreakpoint, ReturnAddress, Replay, Saved, Planted;
      ghost var r := Reading(p.pos, results[|samples|].timestamp);
      SampleIsReal(p.program, p.fates, name, z, entry, r, before, results[|samples|], k);
      SamplesCount(p.program, p.fates, name, z, entry, first, asked, readings, samples, starts);
      OneMoreSample(p.program, p.fates, name, z, entry, first, asked, readings, samples, starts,
                    r, results[|samples|], k, m);
      assert results == samples + [results[|samples|]];
      if blind {
        TroubleGrows(p.program, p.fates, count, readings, starts, r, k);
      } else if gap {
        BlindHere(p.program, p.fates, r, k);
        TroubleNow(p.program, p.fates, count, readings, starts, r, k);
      } else {
        ChosenEntry(p.program, entry, log, readings, r, if waiting then Some(ret as int) else None);
      }
      log, starts, asked, blind := log + [r], starts + [k], m, blind || gap;
    }

    /** What follows a sample: done if no more are wanted, and otherwise the next breakpoint. `before` is the
        state of the target at the stop. */
    method FollowCall(sp: U64, ghost readings: seq<Reading>, ghost samples: seq<StackEvent>, ghost before: Cpu,
                      ghost k: nat)
      returns (ok: bool, done: bool)
      requires Intact() && !armed && !waiting && p.state.Stopped? && p.text == p.program.text
      requires 0 < |results| <= count && sp == before.regs.sp
      requires Observable(p.program, entry) ==>
                 && Sampled(readings, samples, before, k, p.requests)
                 && p.cpu == before.(regs := before.regs.(pc := entry))
      modifies this, p`requests, p`misused, p`text, p`cpu
      ensures p.requests >= old(p.requests) && p.misused == old(p.misused) && results == old(results)
      ensures ok && done ==> Intact() && !armed && !waiting && |results| == count
      ensures ok && !done ==> OnePatch() && |results| < count
      ensures ok && Observable(p.program, entry) ==> InStep()
      ensures !ok ==> Intact()
      ensures !ok && Observable(p.program, entry) ==> Failed()
      ensures !ok ==> !armed && !waiting && threw.request.Rearming? && p.text == p.program.text
      ensures Observable(p.program, entry) ==>
                (if |results| >= count then None else PatchThrow(p.fates, old(p.requests) + 1))
                  == if ok then None else Some(threw)
      ensures ok && Observable(p.program, entry) ==>
                var ra := ReturnAddress(p.program, p.pos);
                && waiting == (!done && ra.Some? && !p.fates(old(p.requests)))
                && Awaited() == (if waiting then ra.value else entry)
                && p.requests == old(p.requests) + if done then 0 else 3
    {
      hide Observable, Samples, SampleMatches, Chosen, Trouble, Saved, PatchTarget, ReturnPatchableIfReadable;
      hide SampleFrames, ReaderOf, SampleCost, Replay, Planted, BehindBreakpoint, PeekWord, WindowInText, Hit;
      hide OnePatch, Intact, LetGo;
      ghost var m := p.requests;
      if Observable(p.program, entry) {
        ReturnIsText(p.pos, before);
      }
      ok, done := true, |results| >= count;
      if !done {
        ok := Rearm(sp);
      }
      if ok && Observable(p.program, entry) {
        if waiting {
          EntryInStep(p.pos, before, p.cpu, ret);
        }
        RecordSample(readings, samples, before, k, m, !waiting && !done);
      }
    }

    // The entry breakpoint has been hit. done: no more samples are wanted.
    method OnEntry(regs: Regs) returns (ok: bool, done: bool)
      requires OnePatch() && armed && !waiting && p.state.Stopped? && regs == p.cpu.regs
      requires |results| < count && p.requests > 0
      requires Observable(p.program, entry) ==> AtBreakpoint()
      modifies this, p`requests, p`misused, p`text, p`cpu, p`readings
      ensures p.requests >= old(p.requests) && p.misused == old(p.misused)
      ensures |results| <= count
      ensures ok && done ==> Intact() && !armed && !waiting && |results| == count
      ensures ok && !done ==> OnePatch() && |results| < count
      ensures ok && Observable(p.program, entry) ==> InStep()
      ensures !ok ==> Intact()
      ensures !ok && Observable(p.program, entry) ==> Failed()
      ensures !ok ==> !waiting && armed == threw.request.Restoring?
      ensures !ok ==>
                && threw.request in {Restoring, SettingRegs, Rearming}
                && p.text == if threw.request.Restoring? then old(p.text) else p.program.text
      ensures Observable(p.program, entry) ==>
                var k := old(p.requests);
                SampleThrow(p.fates, k, |old(results)| + 1 >= count, WalkEnd(p.program, p.fates)(p.pos, k + 2))
                  == if ok then None else Some(threw)
      ensures ok && Observable(p.program, entry) ==>
                Here() == StackHandled(Given(), old(Here()).(asked := old(p.requests) - 1))
    {
      hide Observable, Samples, SampleMatches, Chosen, Trouble, Saved, PatchTarget, ReturnPatchableIfReadable;
      hide SampleFrames, ReaderOf, SampleCost, Replay, Planted, BehindBreakpoint, PeekWord, WindowInText, Hit;
      hide Wrap, OnePatch, Intact, ReturnAddress, OneBehind, WalkEnd, PatchThrow;
      ghost var before, readings, samples := p.cpu, p.readings, results;
      if Observable(p.program, entry) {
        ReturnIsText(p.pos, p.cpu);
        SampleEnds(p.program, p.fates, entry, p.pos, p.cpu, p.requests + 2);
      }
      done := false;
      ghost var k := p.requests + 2;
      ok := TakeSample(regs);
      if ok {
        ok, done := FollowCall(regs.sp, readings, samples, before, k);
      }
    }

    // Bring the record up to date with the return to `back`, behind which the entry has been patched again.
    ghost method RecordReturn(back: U64)
      requires OnePatch() && !waiting && PatchTarget(p.program, entry, entry) && p.cpu == Replay(p.program, p.pos)
      requires Samples(p.program, p.fates, name, z, entry, first, asked, p.readings, results, starts)
      requires first <= asked <= p.requests && Hit(p.program, back, p.pos)
      requires if blind then Trouble(p.program, p.fates, count, p.readings, starts)
               else Chosen(p.program, entry, Some(back), true, log, p.readings, p.pos)
      modifies this`log
      ensures OnePatch() && InStep()
    {
      hide Samples, Chosen, Trouble, Saved, Planted, Replay, PatchTarget, Hit;
      if !blind {
        ghost var r := Reading(p.pos, 0);
        ChosenReturn(p.program, entry, back, log, p.readings, r);
        log := log + [r];
      }
    }

    // The target stays in step through the return branch.
    method OnReturnInStep(regs: Regs) returns (ok: bool)
      requires OnePatch() && waiting && p.state.Stopped? && regs == p.cpu.regs
      requires Observable(p.program, entry) ==> AtBreakpoint()
      modifies this`armed, this`waiting, this`origEntry, this`log, this`threw, p`requests, p`misused, p`text, p`cpu
      ensures p.requests >= old(p.requests) && p.misused == old(p.misused)
      ensures ok ==> OnePatch() && !waiting
      ensures ok && Observable(p.program, entry) ==> InStep()
      ensures ok ==> p.requests == old(p.requests) + 4
      ensures !ok ==>
                && Intact() && !armed && waiting == !threw.request.Rearming?
                && p.text == if threw.request.Restoring? then old(p.text) else p.program.text
      ensures !ok && Observable(p.program, entry) ==> Failed()
      ensures Observable(p.program, entry) ==>
                ReturnThrow(p.fates, old(p.requests)) == if ok then None else Some(threw)
    {
      hide Observable, Samples, Chosen, Trouble, Saved, Planted, Replay, WindowInText, Hit, BehindBreakpoint, OneBehind;
      hide ReturnThrow, OnePatch;
      ghost var back := ret;
      if Observable(p.program, entry) {
        BehindIsFound(p.program, ret, p.pos, p.cpu);
        PatchTargetIsText(p.program, entry, entry);
        PatchTargetIsText(p.program, entry, ret);
      }
      SetBackUnlessRefused(p.fates, p.requests, true, 0);
      ok := OnReturn(regs);
      if ok && Observable(p.program, entry) {
        RecordReturn(back);
      }
    }

    // What a SIGTRAP stop calls for; a trap of unknown origin is ignored.
    method React(regs: Regs) returns (ok: bool, done: bool)
      requires OnePatch() && p.state.Stopped? && regs == p.cpu.regs && |results| < count && p.requests > 0
      requires Observable(p.program, entry) ==> AtBreakpoint()
      modifies this, p`requests, p`misused, p`text, p`cpu, p`readings
      ensures p.requests >= old(p.requests) && p.misused == old(p.misused)
      ensures |results| <= count
      ensures ok && done ==> Intact() && !armed && !waiting && |results| == count
      ensures ok && !done ==> OnePatch() && |results| < count
      ensures ok && Observable(p.program, entry) ==> InStep()
      ensures !ok ==> Intact()
      ensures !ok && Observable(p.program, entry) ==> Failed()
      ensures !ok && Observable(p.program, entry) ==>
                && threw.request in {Restoring, SettingRegs, Rearming}
                && (armed || waiting) ==
                     (if threw.request.SettingRegs? then old(waiting) else threw.request.Restoring?)
                && p.text == if threw.request.Restoring? then old(p.text) else p.program.text
      ensures Observable(p.program, entry) ==>
                var k := old(p.requests);
                (if old(waiting) then ReturnThrow(p.fates, k)
                 else SampleThrow(p.fates, k, |old(results)| + 1 >= count, WalkEnd(p.program, p.fates)(p.pos, k + 2)))
                  == if ok then None else Some(threw)
      ensures ok && Observable(p.program, entry) ==>
                Here() == StackHandled(Given(), old(Here()).(asked := old(p.requests) - 1))
    {
      hide Observable, Samples, Chosen, Trouble, Saved, Planted, Replay, LeftAt, PatchTarget;
      hide Hit, BehindBreakpoint, OneBehind, ReturnAddress, Wrap, Intact, WalkEnd, SampleThrow;
      if Observable(p.program, entry) {
        BehindIsFound(p.program, Awaited(), p.pos, p.cpu);
      }
      var hit := Wrap(regs.pc - 1);
      ok, done := true, false;
      if !waiting && hit == entry {
        ok, done := OnEntry(regs);
      } else if waiting && hit == ret {
        ok := OnReturnInStep(regs);
      }
    }

    /** Let the target run until it stops. A stop at a signal or at the breakpoint leaves it where
        the untraced run is, but for the program counter behind the breakpoint. */
    method AwaitStop(turn: Turn) returns (status: WaitStatus)
      requires OnePatch() && (p.state.Running? || p.state.Exited?)
      requires Observable(p.program, entry) ==> InStep()
      modifies p`cpu, p`pos, p`state, p`reports, p`misused
      ensures OnePatch() && p.misused == old(p.misused)
      ensures p.reports == old(p.reports) + if status.StoppedBy? then 1 else 0
      ensures status.StoppedBy? ==>
                turn.inTime && p.state.Stopped? && p.state.reaped && status.sig == StopSignal(p.state.stop)
      ensures !status.StoppedBy? ==> !(p.state.Stopped? && p.state.reaped)
      ensures Observable(p.program, entry) ==> if TrapPending(p.state) then AtBreakpoint() else InStep()
      ensures Observable(p.program, entry) && status.StoppedBy? ==> (status.sig == SIGTRAP <==> p.state.stop.AtTrap?)
      ensures p.state.Stopped? ==> p.state.stop != AtAttach
      ensures InHand(p.state)
      ensures Observable(p.program, entry) ==> Here() == Waited(Given(), old(Here()), turn)
    {
      hide Observable, Samples, Chosen, Trouble, Saved, PatchTarget, Ahead, Replay;
      ghost var was := p.pos;
      status := Await(p, entry, Awaited(), turn);
      if Observable(p.program, entry) && !blind {
        ChosenLater(p.program, entry, Awaited(), waiting, log, p.readings, was, p.pos);
      }
    }

    // Deliver the signal at which the target has stopped.
    method Forward(sig: nat)
      requires OnePatch() && p.state.Stopped? && sig == StopSignal(p.state.stop)
      requires Observable(p.program, entry) ==> InStep() && p.state.stop.AtSignal?
      modifies p`cpu, p`pos, p`state, p`misused, p`requests
      ensures OnePatch() && p.misused == old(p.misused) && p.requests >= old(p.requests)
      ensures p.state.Running? || p.state.Exited?
      ensures Observable(p.program, entry) ==> InStep()
      ensures Observable(p.program, entry) && p.state.Running? ==>
                old(p.pos) < |p.program.tape| && p.program.tape[old(p.pos)] == Signal(sig) && p.pos == old(p.pos) + 1
      ensures Observable(p.program, entry) ==> Here() == Handled(Given(), old(Here()))
    {
      hide Observable, Samples, Chosen, Trouble, Saved, PatchTarget, Replay;
      ghost var was := p.pos;
      Stepping.Forward(p, entry, Awaited(), sig);
      if Observable(p.program, entry) && !blind {
        ChosenLater(p.program, entry, Awaited(), waiting, log, p.readings, was, p.pos);
      }
    }

    /** What to do about a reported stop. needCont: the target has not been continued; ok is false
        where the original throws. */
    method OnStop(sig: nat) returns (ok: bool, needCont: bool, done: bool)
      requires OnePatch() && p.state.Stopped? && p.state.reaped && sig == StopSignal(p.state.stop) && |results| < count
      requires Observable(p.program, entry) ==>
                 (sig == SIGTRAP <==> p.state.stop.AtTrap?) && p.state.stop != AtAttach
      requires Observable(p.program, entry) ==> if TrapPending(p.state) then AtBreakpoint() else InStep()
      modifies this, p`requests, p`misused, p`text, p`cpu, p`readings, p`pos, p`state
      ensures p.requests >= old(p.requests) && p.misused == old(p.misused)
      ensures |results| <= count
      ensures if needCont then p.state == old(p.state) else p.state.Running? || p.state.Exited?
      ensures ok && done ==> Intact() && !armed && !waiting && |results| == count && p.state == old(p.state)
      ensures ok && !done ==> OnePatch() && |results| < count
      ensures ok && Observable(p.program, entry) ==> InStep() && !SignalPending(p.state)
      ensures !ok ==> Intact() && p.state == old(p.state)
      ensures !ok && Observable(p.program, entry) ==> Failed() && sig == SIGTRAP
      ensures Observable(p.program, entry) ==> Reaches(Handled(Given(), old(Here())), ok)
    {
      hide Observable, Samples, Chosen, Trouble, Saved, Planted, Replay, StackHandled, SampleThrow;
      hide WalkEnd, ReturnThrow;
      hide Hit, BehindBreakpoint, OneBehind, Wrap, PatchTarget, StopSignal;
      needCont, done := true, false;
      if sig != SIGTRAP {
        Forward(sig);
        return true, false, false;
      }
      if Observable(p.program, entry) {
        BehindIsFound(p.program, Awaited(), p.pos, p.cpu);
      }
      var regs := p.GetRegs();
      threw := Throw(GettingRegs, p.requests - 1);
      if regs.None? {
        return false, true, false;
      }
      ok, done := React(regs.value);
    }

    // PTRACE_CONT where it is due.
    method Resume(needCont: bool)
      requires OnePatch() && needCont == p.state.Stopped? && InHand(p.state)
      requires Observable(p.program, entry) ==> InStep() && !SignalPending(p.state)
      modifies p`cpu, p`pos, p`state, p`misused, p`requests
      ensures OnePatch() && p.misused == old(p.misused) && p.requests >= old(p.requests)
      ensures p.state.Running? || p.state.Exited?
      ensures Observable(p.program, entry) ==> InStep()
      ensures Observable(p.program, entry) ==> Here() == Continued(Given(), old(Here()))
      ensures old(p.state).Stopped? ==>
                p.requests == old(p.requests) + 1 && (!p.fates(old(p.requests)) ==> p.state.Running?)
    {
      hide Observable, Samples, Chosen, Trouble, Saved, PatchTarget, Replay;
      Stepping.Resume(p, entry, Awaited(), needCont);
    }

    /** One round, from the head of the loop: whether it leads on (goOn), for the last time if done, or
        out of the loop by exception (ok is false) or otherwise. */
    method Round(turn: Turn, cont: bool) returns (ok: bool, goOn: bool, needCont: bool, done: bool)
      requires OnePatch() && cont == p.state.Stopped? && InHand(p.state) && |results| < count
      requires Observable(p.program, entry) ==> InStep() && !SignalPending(p.state)
      modifies this, p`requests, p`misused, p`text, p`cpu, p`readings, p`pos, p`state, p`reports
      ensures p.requests >= old(p.requests) && p.misused == old(p.misused) && |results| <= count && Intact()
      ensures goOn ==>
                && ok && !turn.lateToWait && p.reports == old(p.reports) + 1
                && needCont == p.state.Stopped? && InHand(p.state)
                && (p.state.Stopped? ==> p.state.reaped)
                && (if done then !armed && !waiting && |results| == count && p.state.Stopped?
                    else OnePatch() && |results| < count)
                && (Observable(p.program, entry) ==> InStep() && !SignalPending(p.state))
      ensures ok && !goOn ==>
                && OnePatch() && InHand(p.state) && p.reports == old(p.reports) && |results| < count
                && !(p.state.Stopped? && p.state.reaped)
                && (Observable(p.program, entry) ==> Settled())
      ensures !ok ==> !goOn && p.state.Stopped? && !turn.lateToWait
      ensures !ok && Observable(p.program, entry) ==> Failed() && TrapPending(p.state)
      ensures Observable(p.program, entry) ==>
                var r := Schedule.Round(Given(), old(Here()), turn); goOn == r.GoOn? && Reaches(r.c, ok)
      ensures p.reports <= old(p.reports) + if turn.lateToWait || !turn.inTime then 0 else 1
      ensures old(p.state).Stopped? && turn.lateToWait ==>
                && p.requests > old(p.requests) && waiting == old(waiting) && armed == old(armed)
                && (!p.fates(old(p.requests)) ==> ok && p.state.Running?)
    {
      hide Observable, Samples, Chosen, Trouble, LeftAt, Saved, Planted, BehindBreakpoint, Replay, Hit;
      hide Waited, Handled, Continued, PatchTarget;
      ok, goOn, needCont, done := true, false, false, false;
      Resume(cont);
      if turn.lateToWait {
        return;
      }
      var status := AwaitStop(turn);
      if !status.StoppedBy? {
        return;
      }
      ok, needCont, done := OnStop(status.sig);
      goOn := ok;
    }

    /** The loop. ok is false where the original leaves it by exception. The deadline has passed
        when the turns are used up. */
    method Loop(turns: seq<Turn>) returns (ok: bool)
      requires OnePatch() && armed && !waiting && results == [] && p.state == Stopped(AtAttach, true)
      requires Observable(p.program, entry) ==> InStep()
      modifies this, p`requests, p`misused, p`text, p`cpu, p`readings, p`pos, p`state, p`reports
      ensures p.requests >= old(p.requests) && p.misused == old(p.misused)
      ensures |results| <= count
      ensures ok ==> |results| == count || Excused(turns, p.reports - old(p.reports))
                     || !(p.state.Stopped? && p.state.reaped)
      ensures ok && |results| == count ==> p.state.Stopped? && p.state.reaped
      ensures ReportsWithin(turns, p.reports - old(p.reports))
      ensures OverAtOnce(turns, count) ==>
                && ok && results == [] && !waiting && p.state == old(p.state) && p.requests == old(p.requests)
                && p.pos == old(p.pos) && p.cpu == old(p.cpu) && p.text == old(p.text) && armed
      ensures Intact()
      ensures !ok ==> p.state.Stopped?
      ensures !ok && Observable(p.program, entry) ==> Failed() && TrapPending(p.state)
      ensures Observable(p.program, entry) ==> Reaches(Rounds(Given(), turns, 0, old(Here())), ok)
      ensures LateOnceContinued(turns) && count > 0 ==>
                && p.requests > old(p.requests)
                && (!p.fates(old(p.requests)) ==> ok && p.state.Running? && armed && !waiting)
      ensures ok ==> OnePatch() || (!armed && !waiting && p.state.Stopped? && p.state.reaped)
      ensures ok ==> (armed || waiting) == !(0 < count <= |results|)
      ensures ok ==> InHand(p.state)
      ensures ok && Observable(p.program, entry) ==> Settled()
    {
      hide Observable, Samples, Chosen, Trouble, LeftAt, Saved, Planted, BehindBreakpoint, Replay, Hit;
      hide PatchTarget, Rounds, Schedule.Round;
      ghost var start := Here();
      var needCont := true;
      var i := 0;
      while |results| < count
        invariant 0 <= i <= |turns| && |results| <= count && p.reports == old(p.reports) + i
        invariant OnePatch() && p.misused == old(p.misused) && p.requests >= old(p.requests)
        invariant needCont == p.state.Stopped? && (|results| < count || count == 0)
        invariant InHand(p.state) && (p.state.Stopped? ==> p.state.reaped) && (|results| == count ==> p.state.Stopped?)
        invariant i == 0 ==> armed && !waiting && results == []
        invariant i == 0 ==> p.state == old(p.state) && p.requests == old(p.requests)
        invariant i > 0 ==> !LateOnceContinued(turns) && !OverAtOnce(turns, count)
        invariant i == 0 ==> p.pos == old(p.pos) && p.cpu == old(p.cpu) && p.text == old(p.text)
        invariant forall k :: 0 <= k < i ==> !ReportsNone(turns[k])
        invariant Observable(p.program, entry) ==> InStep() && !SignalPending(p.state)
        invariant Observable(p.program, entry) ==>
                    Rounds(Given(), turns, i, Here()) == Rounds(Given(), turns, 0, start)
        decreases |turns| - i
      {
        RoundsNext(Given(), turns, i, Here());
        if i == |turns| || turns[i].stop || turns[i].late {
          break;
        }
        var goOn, done;
        ok, goOn, needCont, done := Round(turns[i], needCont);
        if !goOn {
          return;
        }
        i := i + 1;
        if done {
          break;
        }
      }
      RoundsNext(Given(), turns, i, Here());
      ok := true;
    }

    // The guard, on the way out by exception: true if all its writes took effect.
    method Guard() returns (ok: bool)
      requires Intact() && p.state.Stopped?
      modifies p`requests, p`misused, p`text, p`cpu, p`state
      ensures p.Valid() && p.misused == old(p.misused) && p.requests > old(p.requests)
      ensures ok ==> p.text == p.program.text || (waiting && ret == 0)
      ensures p.text == p.program.text || p.text == old(p.text)
      ensures !ok ==> p.text == old(p.text)
      ensures p.cpu.regs == old(p.cpu).regs && p.pos == old(p.pos)
      ensures p.state == LetGo(p.fates(p.requests - 1), old(p.state))
      ensures WindowInText(p.program.text, Awaited()) ==>
                && p.cpu == old(p.cpu)
                && ok == (!(armed || (waiting && ret != 0)) || !p.fates(old(p.requests)))
                && p.requests == old(p.requests) + if armed || (waiting && ret != 0) then 2 else 1
    {
      hide Saved, WindowInText, Planted;
      ok := true;
      if waiting && ret != 0 {
        ok := RestoreWord(p, ret, origRet, ret);
      }
      if armed {
        var done := RestoreWord(p, entry, origEntry, entry);
        ok := ok && done;
      }
      p.Detach();
    }

    // The target goes on by itself between the loop and the clean-up.
    method Linger(moves: nat)
      requires OnePatch() || (Intact() && p.state.Stopped?)
      requires InHand(p.state) && (Observable(p.program, entry) ==> Settled())
      modifies p`cpu, p`pos, p`state
      ensures Intact() && (old(OnePatch()) ==> OnePatch()) && p.misused == old(p.misused)
      ensures old(p.state).Stopped? || (p.state.Stopped? && p.state.reaped) || moves == 0 ==> p.state == old(p.state)
      ensures old(p.state).Stopped? ==> p.pos == old(p.pos) && p.cpu == old(p.cpu)
      ensures InHand(p.state) && (Observable(p.program, entry) ==> Settled())
      ensures Observable(p.program, entry) && SignalPending(p.state) ==> p.state.stop.sig != 0
      ensures p.requests == old(p.requests)
      ensures Observable(p.program, entry) ==> Here() == Drifted(Given(), old(Here()), moves)
    {
      hide Observable, Samples, Chosen, Trouble, Saved, PatchTarget, Ahead, Replay;
      ghost var was, runs := p.pos, p.state.Running?;
      Drift(p, entry, Awaited(), moves);
      if Observable(p.program, entry) && runs && !blind {
        ChosenLater(p.program, entry, Awaited(), waiting, log, p.readings, was, p.pos);
      }
    }

    // The clean-up after the loop, with the guard off: false where the original throws.
    method CleanUp() returns (ok: bool)
      requires Intact()
      modifies p`requests, p`misused, p`text, p`cpu
      ensures p.Valid() && p.requests >= old(p.requests) && p.cpu.regs == old(p.cpu).regs
      ensures p.misused == (old(p.misused)
                            || ((armed || (waiting && ret != 0)) && !p.state.Stopped? && !p.state.Exited?))
      ensures ok ==> p.text == p.program.text || (waiting && p.text == Planted(p.program.text, 0))
      ensures !p.state.Stopped? ==> p.text == old(p.text) && ok == (!armed && (!waiting || ret == 0))
      ensures WindowInText(p.program.text, Awaited()) ==>
                && p.cpu == old(p.cpu)
                && (p.state.Stopped? ==>
                      var pokes := if armed || (waiting && ret != 0) then 1 else 0;
                      && ok == (pokes == 0 || !p.fates(old(p.requests)))
                      && (ok ==> p.requests == old(p.requests) + pokes))
                && (&& Awaited() != 0 && (old(OnePatch()) || (p.state.Stopped? && !armed && !waiting))
                    && (armed || waiting) == !(0 < count <= |results|) ==>
                      && ok == !CleanUpFails(Given(), old(Here()))
                      && p.text == (if ok then p.program.text
                                    else WithPatch(p.program.text, PatchUncleaned(Given(), old(Here()))))
                      && (ok ==> p.requests == old(p.requests) + Pokes(Given(), old(Here()))))
    {
      hide Saved, WindowInText;
      ok := true;
      if waiting && ret != 0 {
        ok := RestoreWord(p, ret, origRet, ret);
        if !ok {
          return;
        }
      }
      if armed {
        ok := RestoreWord(p, entry, origEntry, entry);
      }
    }

    // What the record says in the end.
    lemma RecordSays()
      requires Recorded()
      ensures Samples(p.program, p.fates, name, z, entry, first, p.requests, p.readings, results, starts)
      ensures !Trouble(p.program, p.fates, count, p.readings, starts) ==>
                SamplesSelected(p.program, entry, p.readings, p.pos)
    {
      hide Trouble, Chosen, SampleMatches, SamplesSelected;
      if !blind {
        ChosenSays(p.program, entry, if armed || waiting then Some(Awaited() as int) else None, waiting,
                   log, p.readings, p.pos);
      }
    }

    // The breakpoint that is there is a patch target of the text.
    lemma AwaitedPatched()
      requires Observable(p.program, entry) && PatchTarget(p.program, entry, Awaited())
      requires p.text == Planted(p.program.text, Awaited())
      ensures StillPatched(p, entry) && WindowInText(p.program.text, Awaited()) && Awaited() != 0
      ensures Awaited() in p.program.text
    {
      hide Observable, PatchTarget;
      PatchTargetIsText(p.program, entry, Awaited());
      assert InWindow(Awaited(), Awaited());
    }

    // The registers and the memory of a target behind the loop.
    lemma SettledSays()
      requires p.Valid() && Settled()
      requires Observable(p.program, entry) && SignalPending(p.state) ==> p.state.stop.sig != 0
      ensures p.cpu == CpuFound(Given(), Here())
      ensures Observable(p.program, entry) && p.state.Stopped? ==>
                (p.cpu == Replay(p.program, p.pos) && LostBy(p.state) == 0 <==> p.state.reaped)
    {
      hide Observable, Samples, Chosen, Trouble, Hit, BehindBreakpoint, Replay, OneBehind;
      if TrapPending(p.state) && !p.state.reaped {
        BehindIsFound(p.program, Awaited(), p.pos, p.cpu);
      }
      if Observable(p.program, entry) && p.state.Stopped? {
        LetGoInStep(p.program, Awaited(), p.pos, p.cpu, p.state);
      }
    }

    // What follows the loop.
    method Finish(moves: nat) returns (ok: bool, ghost left: RunState)
      requires OnePatch() || (Intact() && !armed && !waiting && p.state.Stopped? && p.state.reaped)
      requires (armed || waiting) == !(0 < count <= |results|)
      requires InHand(p.state) && !p.misused && first <= p.requests
      requires Observable(p.program, entry) ==> Settled()
      modifies p`cpu, p`pos, p`state, p`requests, p`misused, p`text
      ensures p.Valid() && InHand(left)
      ensures old(p.state).Stopped? || (left.Stopped? && left.reaped) ==> left == old(p.state)
      ensures !ok ==> p.state == left
      ensures p.requests >= old(p.requests)
      ensures old(p.state).Stopped? && !waiting && armed && WindowInText(p.program.text, entry) ==>
                && ok == !p.fates(old(p.requests)) && left == old(p.state)
                && p.pos == old(p.pos) && p.cpu == old(p.cpu)
                && (ok ==> p.requests == old(p.requests) + 2)
      ensures old(p.state).Running? && moves == 0 ==> left.Running? && (old(armed) ==> !ok)
      ensures p.misused ==> left.Running?
      ensures ok ==> p.text == p.program.text || p.text == Planted(p.program.text, 0)
      ensures ok ==> p.requests > 0 && p.state == LetGo(p.fates(p.requests - 1), left)
      ensures !left.Stopped? ==> p.text == Planted(p.program.text, Awaited())
      ensures Observable(p.program, entry) && !left.Stopped? ==>
                !ok && (left.Running? ==> p.misused) && StillPatched(p, entry)
      ensures Observable(p.program, entry) ==>
                var e := Drifted(Given(), old(Here()), moves);
                && left == e.run && p.pos == e.pos && p.cpu == CpuFound(Given(), e) && ok == !CleanUpFails(Given(), e)
                && p.text == (if ok then p.program.text else WithPatch(p.program.text, PatchUncleaned(Given(), e)))
                && (ok ==> p.requests == e.asked + Pokes(Given(), e) + 1)
      ensures ok && Observable(p.program, entry) ==> Faithful(p, name, entry, z, count, first, results, starts, left)
    {
      hide Observable, Samples, Chosen, Trouble, Saved, WindowInText, SamplesSelected;
      hide PatchTarget, Drifted, StillPatched, Hit, BehindBreakpoint, Replay, Planted;
      hide CleanUpFails, Pokes, PatchUncleaned, CpuFound;
      Linger(moves);
      left := p.state;
      ghost var asked := p.requests;
      if Observable(p.program, entry) {
        PatchTargetIsText(p.program, entry, Awaited());
        RecordSays();
        SettledSays();
        if !p.state.Stopped? {
          AwaitedPatched();
        }
      }
      ok := CleanUp();
      if ok {
        p.Detach();
      }
      if Observable(p.program, entry) {
        SamplesLater(p.program, p.fates, name, z, entry, first, asked, p.readings, results, starts, p.requests);
        if !left.Stopped? {
          StillPatchedLater(p, entry, Awaited());
        }
      }
    }

    // On the way out of the loop by exception: true if every write of the guard took effect.
    method Abandon() returns (ok: bool)
      requires Intact() && p.state.Stopped?
      requires !p.misused && (Observable(p.program, entry) ==> Failed() && TrapPending(p.state))
      modifies p`requests, p`misused, p`text, p`cpu, p`state
      ensures p.requests > old(p.requests) && p.pos == old(p.pos) && !p.state.Arriving?
      ensures Kept(p, name, entry, z, count, first, Threw(InLoop(ok)), starts, old(p.state), threw)
      ensures Observable(p.program, entry) ==>
                && LeftAt(p.program, p.pos, p.cpu, threw)
                && p.text == (if ok then p.program.text else old(p.text))
                && ok == (armed || waiting ==> !p.fates(threw.number + 1))
                && p.requests == threw.number + if armed || waiting then 3 else 2
    {
      hide Observable, Saved, WindowInText, LeftAt, PatchTarget, StillPatched;
      ghost var was := p.text;
      if Observable(p.program, entry) {
        PatchTargetIsText(p.program, entry, Awaited());
        if p.text != p.program.text {
          AwaitedPatched();
        }
      }
      ok := Guard();
      if Observable(p.program, entry) && p.text == was != p.program.text {
        StillPatchedLater(p, entry, Awaited());
      }
      if 0 !in p.program.text {
        PlantedOutside(p.program.text, 0);
      }
    }

    // What follows the loop, with the outcome of the command.
    method Conclude(moves: nat) returns (r: Outcome<seq<StackEvent>>, ghost left: RunState)
      requires OnePatch() || (Intact() && !armed && !waiting && p.state.Stopped? && p.state.reaped)
      requires (armed || waiting) == !(0 < count <= |results|)
      requires InHand(p.state) && !p.misused && first <= p.requests && |results| <= count
      requires Observable(p.program, entry) ==> Settled()
      requires |results| == count ==> p.state.Stopped? && p.state.reaped
      modifies p`cpu, p`pos, p`state, p`requests, p`misused, p`text
      ensures Kept(p, name, entry, z, count, first, r, starts, left, threw) && !p.state.Arriving?
      ensures p.requests >= old(p.requests)
      ensures r == Returned(results) || r == Threw(CleaningUp)
      ensures old(p.state).Stopped? && !waiting && armed && WindowInText(p.program.text, entry) ==>
                && r.Returned? == !p.fates(old(p.requests)) && left == old(p.state)
                && p.pos == old(p.pos) && p.cpu == old(p.cpu)
                && (r.Returned? ==> p.requests == old(p.requests) + 2)
      ensures left.Stopped? && left.reaped ==> left == old(p.state)
      ensures old(p.state).Running? && armed && moves == 0 ==>
                r == Threw(CleaningUp) && p.text == Planted(p.program.text, Awaited())
      ensures Observable(p.program, entry) ==>
                var e := Drifted(Given(), old(Here()), moves);
                && left == e.run && p.pos == e.pos && p.cpu == CpuFound(Given(), e)
                && r.Returned? == !CleanUpFails(Given(), e)
                && p.text == (if r.Returned? then p.program.text
                              else WithPatch(p.program.text, PatchUncleaned(Given(), e)))
                && (r.Returned? ==> p.requests == e.asked + Pokes(Given(), e) + 1)
    {
      hide Observable, Samples, Chosen, Trouble, Saved, Faithful, StillPatched, Drifted, Planted, PatchTarget, Settled;
      hide LeftBy;
      var ok;
      ok, left := Finish(moves);
      r := if ok then Returned(results) else Threw(CleaningUp);
      if 0 !in p.program.text {
        PlantedOutside(p.program.text, 0);
      }
    }

    // The loop and what follows it.
    method Run(turns: seq<Turn>, slack: nat) returns (r: Outcome<seq<StackEvent>>, ghost left: RunState)
      requires OnePatch() && armed && !waiting && results == [] && p.state == Stopped(AtAttach, true) && !p.misused
      requires first <= p.requests && (Observable(p.program, entry) ==> InStep())
      modifies this, p`cpu, p`pos, p`state, p`requests, p`misused, p`text, p`readings, p`reports
      ensures p.requests >= old(p.requests)
      ensures Kept(p, name, entry, z, count, first, r, starts, left, threw) && !p.state.Arriving?
      ensures r.Threw? ==> r.site.InLoop? || r.site.CleaningUp?
      ensures r.Returned? ==> |r.value| == count || Excused(turns, p.reports - old(p.reports))
                              || !(left.Stopped? && left.reaped)
      ensures Observable(p.program, entry) ==>
                Ends(p, Given(), Drifted(Given(), Rounds(Given(), turns, 0, old(Here())), slack), r, left, threw)
      ensures ReportsWithin(turns, p.reports - old(p.reports))
      ensures OverAtOnce(turns, count) && WindowInText(p.program.text, entry) ==>
                && r == (if p.fates(old(p.requests)) then Threw(CleaningUp) else Returned([]))
                && left == old(p.state) && p.pos == old(p.pos) && p.cpu == old(p.cpu)
                && (r.Returned? ==> p.requests == old(p.requests) + 2)
      ensures LateOnceContinued(turns) && count > 0 ==>
                && p.requests > old(p.requests)
                && (slack == 0 && !p.fates(old(p.requests)) ==>
                      r == Threw(CleaningUp) && p.text == Planted(p.program.text, entry))
    {
      hide Observable, Samples, Chosen, Trouble, LeftAt, Saved, Faithful, StillPatched, Rounds, Drifted, Planted;
      hide PatchTarget, Settled, WindowInText, LeftBy, CleanUpFails, Pokes, GuardWrites;
      hide Kept;
      var ok := Loop(turns);
      if ok {
        r, left := Conclude(slack);
      } else {
        left := p.state;
        ok := Abandon();
        r := Threw(InLoop(ok));
      }
    }
  }

  /** The command from the attach on; `slack` moves happen between the end of the loop and the clean-up. The
      untraced run, the schedule and the fates of the requests decide how it ends and in which state it leaves
      the target. starts: the first request of each sample; threw: the request that an exception out of the loop
      is about. */
  method Stack(p: Tracee, name: string, entry: U64, z: Symbolizer, count: int, attachMoves: nat, stopsInTime: bool,
               turns: seq<Turn>, slack: nat)
    returns (r: Outcome<seq<StackEvent>>, ghost left: RunState, ghost starts: seq<nat>, ghost threw: Throw)
    requires p.Valid() && p.state == Released(0) && p.pos == 0 && p.readings == [] && !p.misused
    requires p.text == p.program.text && p.cpu == p.program.start
    requires forall s :: s in z.index ==> s.at < |z.cache|
    modifies p
    ensures Kept(p, name, entry, z, count, old(p.requests), r, starts, left, threw)
    // The way in.
    ensures var barred := Barred(p.fates, old(p.requests), count, attachMoves, stopsInTime);
            && (r == Threw(Attaching) <==> barred == Some(Attaching))
            && (r == Threw(Reserving) <==> barred == Some(Reserving))
            && (WindowInText(p.program.text, entry) ==> (r == Threw(Arming) <==> barred == Some(Arming)))
    ensures r.Threw? && r.site in {Attaching, Reserving, Arming} ==>
              p.state == BarredState(p.fates, old(p.requests), attachMoves, r.site)
    ensures p.state.Arriving? <==> attachMoves == 0 && !p.fates(old(p.requests))
    // The way out.
    ensures r.Returned? ==> |r.value| == count || Excused(turns, p.reports - old(p.reports) - 1)
                            || !(left.Stopped? && left.reaped)
    ensures && Observable(p.program, entry)
            && Barred(p.fates, old(p.requests), count, attachMoves, stopsInTime).None? ==>
              var plan := StackPlan(p, entry, count);
              Ends(p, plan, Ending(plan, turns, slack, old(p.requests) + 3), r, left, threw)
    // Nothing is begun once there is a reason not to.
    ensures ReportsWithin(turns, p.reports - old(p.reports) - 1)
    ensures var k := old(p.requests);
            && OverAtOnce(turns, count) && count >= 0 && attachMoves > 0 && stopsInTime
            && !p.fates(k) && !p.fates(k + 1) && !p.fates(k + 2) && WindowInText(p.program.text, entry) ==>
              && r == (if p.fates(k + 3) then Threw(CleaningUp) else Returned([]))
              && left == Stopped(AtAttach, true) && p.pos == 0 && p.cpu == p.program.start
              && (r.Returned? ==> p.requests == k + 5)
    ensures LateOnceContinued(turns) && slack == 0 && count > 0 && attachMoves > 0 && stopsInTime
            && p.Untroubled(old(p.requests)) && WindowInText(p.program.text, entry) ==>
              r == Threw(CleaningUp) && p.text == Planted(p.program.text, entry)
  {
    hide Observable, Samples, Chosen, Trouble, LeftAt, Saved, SamplesSelected, WindowInText, StillPatched;
    hide Rounds, Drifted, PatchTarget, Faithful, LeftBy, Kept, Ends;
    threw := Throw(GettingRegs, 0);
    if Observable(p.program, entry) {
      PatchTargetIsText(p.program, entry, entry);
    }
    var armed := Arm(p, entry, count, attachMoves, stopsInTime);
    if armed.Threw? {
      BarredKept(p, name, entry, z, count, old(p.requests), armed.site, threw);
      return Threw(armed.site), p.state, [], threw;
    }
    var s := new StackSession(p, name, entry, z, count, armed.value, old(p.requests));
    assert s.Here() == Outset(StackPlan(p, entry, count), p.requests);
    r, left := s.Run(turns, slack);
    starts, threw := s.starts, s.threw;
  }
}
