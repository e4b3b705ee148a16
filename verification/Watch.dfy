/**
 The watch pipeline: probes in the kernel, a ring buffer that may drop events, and the join of
 exits with cached entries in user space.
 */
module Watch {
  import opened BpfMaps
  import opened Words

  // The integer argument registers, in order.
  type Args = a: seq<U64> | |a| == 6 witness [0, 0, 0, 0, 0, 0]

  datatype RawEvent = RawEvent(timestamp: U64, duration: U64, args: Args, retVal: U64, funcAddr: U64,
                               tid: U32, isExit: bool)

  function EntryEvent(tid: U32, ts: U64, ip: U64, args: Args): RawEvent {
    RawEvent(ts, 0, args, 0, ip, tid, false)
  }

  function ExitEvent(times: map<U32, U64>, tid: U32, now: U64, ip: U64, ret: U64): RawEvent {
    RawEvent(now, if tid in times then Wrap(now - times[tid]) else 0, [0, 0, 0, 0, 0, 0], ret, ip, tid, true)
  }

  // ----- runs: calls and returns of watched functions, interleaved -----

  datatype Step = Enter(tid: U32, func: U64, args: Args, ts: U64, room: bool)
                | Leave(tid: U32, now: U64, ret: U64, room: bool)

  /** An open call. born: the step that entered it; stamped: its time stamp was stored; nested: a
      watched function has been entered inside it; slot: the position of its entry event in the
      ring, if it has one. */
  datatype Call = Call(func: U64, args: Args, entered: U64, born: nat, stamped: bool, nested: bool,
                       slot: Option<nat>)

  /** stacks: the open calls of each thread, innermost last. cause: the call each event of the
      ring is about, as it was when the event was written. */
  datatype World = World(stacks: map<U32, seq<Call>>, entryTimes: map<U32, U64>, ring: seq<RawEvent>,
                         cause: seq<Call>)

  function StackOf(w: World, tid: U32): seq<Call> {
    if tid in w.stacks then w.stacks[tid] else []
  }

  function MarkTop(stack: seq<Call>): seq<Call> {
    if stack == [] then [] else stack[|stack| - 1 := stack[|stack| - 1].(nested := true)]
  }

  function DoEnter(w: World, n: nat, tid: U32, func: U64, args: Args, ts: U64, room: bool): World {
    var times := MapUpdate(w.entryTimes, tid, ts);
    var call := Call(func, args, ts, n, tid in times, false, if room then Some(|w.ring|) else None);
    World(w.stacks[tid := MarkTop(StackOf(w, tid)) + [call]], times,
          w.ring + (if room then [EntryEvent(tid, ts, func, args)] else []),
          w.cause + (if room then [call] else []))
  }

  function DoLeave(w: World, tid: U32, now: U64, ret: U64, room: bool): World
    requires StackOf(w, tid) != []
  {
    var stack := StackOf(w, tid);
    var call := stack[|stack| - 1];
    World(w.stacks[tid := stack[..|stack| - 1]], w.entryTimes - {tid},
          w.ring + (if room then [ExitEvent(w.entryTimes, tid, now, call.func, ret)] else []),
          w.cause + (if room then [call] else []))
  }

  // A thread without an open watched call has nothing to return from.
  function Do(w: World, n: nat, step: Step): World {
    match step
    case Enter(tid, func, args, ts, room) => DoEnter(w, n, tid, func, args, ts, room)
    case Leave(tid, now, ret, room) =>
      if StackOf(w, tid) == [] then w else DoLeave(w, tid, now, ret, room)
  }

  function Run(steps: seq<Step>): World {
    if steps == [] then World(map[], map[], [], [])
    else Do(Run(steps[..|steps| - 1]), |steps| - 1, steps[|steps| - 1])
  }

  // ----- the probes -----

  /** The maps of the probe program and the run that has led to them; None once a return probe has fired
      that is not that of the innermost open call of its thread. `room`: the ring buffer had room for
      the event. */
  class Probes {
    var entryTimes: map<U32, U64>
    var ring: seq<RawEvent>
    ghost var run: Option<seq<Step>>

    ghost predicate Valid()
      reads this
    {
      run.Some? ==> entryTimes == Run(run.value).entryTimes && ring == Run(run.value).ring
    }

    constructor ()
      ensures Valid() && run == Some([])
      ensures entryTimes == map[] && ring == []
    {
      entryTimes, ring, run := map[], [], Some([]);
    }

    // uprobe_entry
    method UprobeEntry(tid: U32, ts: U64, ip: U64, args: Args, room: bool)
      requires Valid()
      modifies this
      ensures Valid() && run == Then(old(run), Enter(tid, ip, args, ts, room))
      ensures entryTimes == MapUpdate(old(entryTimes), tid, ts)
      ensures ring == old(ring) + if room then [EntryEvent(tid, ts, ip, args)] else []
    {
      hide Run, MapUpdate;
      if run.Some? {
        RunOneMore(run.value, Enter(tid, ip, args, ts, room));
      }
      run := Then(run, Enter(tid, ip, args, ts, room));
      entryTimes := MapUpdate(entryTimes, tid, ts);
      if !room {
        return;
      }
      ring := ring + [RawEvent(ts, 0, args, 0, ip, tid, false)];
    }

    // uprobe_exit
    method UprobeExit(tid: U32, now: U64, ip: U64, ret: U64, room: bool)
      requires Valid()
      modifies this
      ensures Valid()
      ensures run == if old(run).Some? && Returns(old(run).value, tid, ip)
                     then Then(old(run), Leave(tid, now, ret, room)) else None
      ensures entryTimes == old(entryTimes) - {tid}
      ensures ring == old(ring) + if room then [ExitEvent(old(entryTimes), tid, now, ip, ret)] else []
    {
      hide Run;
      if run.Some? && Returns(run.value, tid, ip) {
        RunOneMore(run.value, Leave(tid, now, ret, room));
        run := Then(run, Leave(tid, now, ret, room));
      } else {
        run := None;
      }
      if !room {
        entryTimes := entryTimes - {tid};
        return;
      }
      var duration := if tid in entryTimes then Wrap(now - entryTimes[tid]) else 0;
      ring := ring + [RawEvent(now, duration, [0, 0, 0, 0, 0, 0], ret, ip, tid, true)];
      entryTimes := entryTimes - {tid};
    }
  }

  ghost function Then(run: Option<seq<Step>>, step: Step): Option<seq<Step>> {
    if run.Some? then Some(run.value + [step]) else None
  }

  // The innermost open call of the thread is one of the function at ip.
  ghost predicate Returns(steps: seq<Step>, tid: U32, ip: U64) {
    var stack := StackOf(Run(steps), tid);
    stack != [] && stack[|stack| - 1].func == ip
  }

  lemma RunOneMore(steps: seq<Step>, step: Step)
    ensures Run(steps + [step]) == Do(Run(steps), |steps|, step)
  {
    hide Do;
    assert (steps + [step])[..|steps|] == steps;
  }

  // ----- time stamps -----

  /** The one time-stamp slot of a thread, if filled, belongs to its innermost open call. */
  ghost predicate SlotIsTop(w: World, tid: U32) {
    var stack := StackOf(w, tid);
    if stack != [] && stack[|stack| - 1].stamped && !stack[|stack| - 1].nested
    then tid in w.entryTimes && w.entryTimes[tid] == stack[|stack| - 1].entered
    else tid !in w.entryTimes
  }

  ghost predicate SlotsAreTops(w: World) {
    forall tid: U32 :: SlotIsTop(w, tid)
  }

  // All open calls of a thread but the innermost one contain another one.
  ghost predicate InnerNestedOf(stack: seq<Call>) {
    forall i :: 0 <= i < |stack| - 1 ==> stack[i].nested
  }

  ghost predicate InnerNested(w: World) {
    forall tid: U32 :: InnerNestedOf(StackOf(w, tid))
  }

  // The duration of an event is that of its call, or 0.
  ghost predicate Timed(e: RawEvent, call: Call) {
    && e.funcAddr == call.func
    && (!e.isExit ==> e.timestamp == call.entered && e.args == call.args && e.duration == 0 && e.retVal == 0)
    && (e.isExit ==> e.args == [0, 0, 0, 0, 0, 0])
    && (e.isExit ==> e.duration == if call.stamped && !call.nested then Wrap(e.timestamp - call.entered) else 0)
  }

  ghost predicate AllTimed(w: World) {
    |w.cause| == |w.ring| && forall k :: 0 <= k < |w.ring| ==> Timed(w.ring[k], w.cause[k])
  }

  lemma StacksStep(w: World, n: nat, step: Step, tid: U32)
    ensures tid != step.tid ==> StackOf(Do(w, n, step), tid) == StackOf(w, tid)
    ensures tid != step.tid ==> (tid in Do(w, n, step).entryTimes <==> tid in w.entryTimes)
    ensures tid != step.tid && tid in w.entryTimes ==> Do(w, n, step).entryTimes[tid] == w.entryTimes[tid]
  {
  }

  lemma InnerNestedStep(w: World, n: nat, step: Step, tid: U32)
    requires InnerNestedOf(StackOf(w, tid))
    ensures InnerNestedOf(StackOf(Do(w, n, step), tid))
  {
  }

  lemma SlotStep(w: World, n: nat, step: Step, tid: U32)
    requires SlotIsTop(w, tid) && InnerNestedOf(StackOf(w, tid))
    ensures SlotIsTop(Do(w, n, step), tid)
  {
    if tid != step.tid {
      StacksStep(w, n, step, tid);
    }
  }

  lemma SlotsStep(w: World, n: nat, step: Step)
    requires SlotsAreTops(w) && InnerNested(w)
    ensures SlotsAreTops(Do(w, n, step)) && InnerNested(Do(w, n, step))
  {
    hide Do, SlotIsTop, InnerNestedOf;
    forall tid: U32
      ensures SlotIsTop(Do(w, n, step), tid) && InnerNestedOf(StackOf(Do(w, n, step), tid))
    {
      SlotStep(w, n, step, tid);
      InnerNestedStep(w, n, step, tid);
    }
  }

  lemma TimedStep(w: World, n: nat, step: Step)
    requires SlotsAreTops(w) && AllTimed(w)
    ensures AllTimed(Do(w, n, step))
  {
    assert SlotIsTop(w, step.tid);
  }

  /** Durations are those of the call itself or 0, whatever is dropped and however full the map;
      they are exact when the stamp was stored and nothing watched was entered inside. */
  lemma {:induction false} DurationsAreOwn(steps: seq<Step>)
    ensures var w := Run(steps); SlotsAreTops(w) && InnerNested(w) && AllTimed(w)
  {
    if steps != [] {
      hide SlotsAreTops, InnerNested, AllTimed, Do;
      var w, n, step := Run(steps[..|steps| - 1]), |steps| - 1, steps[|steps| - 1];
      DurationsAreOwn(steps[..|steps| - 1]);
      SlotsStep(w, n, step);
      TimedStep(w, n, step);
    } else {
      hide Do;
    }
  }

  // ----- when time stamps are stored -----

  function ThreadsInside(w: World): set<U32> {
    set tid | tid in w.stacks && w.stacks[tid] != []
  }

  // The threads whose innermost open call has its time stamp stored.
  function ThreadsStamped(w: World): set<U32> {
    set tid | tid in w.stacks && w.stacks[tid] != []
              && var top := w.stacks[tid][|w.stacks[tid]| - 1]; top.stamped && !top.nested
  }

  lemma StampsHeld(w: World)
    requires SlotsAreTops(w)
    ensures w.entryTimes.Keys == ThreadsStamped(w) <= ThreadsInside(w)
  {
    forall tid: U32 ensures tid in w.entryTimes <==> tid in ThreadsStamped(w) {
      assert SlotIsTop(w, tid);
    }
  }

  /** The time stamp of a call is stored exactly if the thread holds one already or fewer than 4096 do. */
  lemma StampedExactly(steps: seq<Step>)
    requires steps != [] && steps[|steps| - 1].Enter?
    ensures var tid, held := steps[|steps| - 1].tid, ThreadsStamped(Run(steps[..|steps| - 1]));
            var stack := StackOf(Run(steps), tid);
            stack != [] && (stack[|stack| - 1].stamped <==> tid in held || |held| < 4096)
  {
    hide SlotsAreTops;
    var before := steps[..|steps| - 1];
    DurationsAreOwn(before);
    StampsHeld(Run(before));
  }

  // There are never more threads inside watched functions than the map has entries.
  ghost predicate FewInside(steps: seq<Step>) {
    forall n :: 0 <= n <= |steps| ==> |ThreadsInside(Run(steps[..n]))| <= 4096
  }

  ghost predicate AllStamped(w: World) {
    && (forall tid: U32, i :: 0 <= i < |StackOf(w, tid)| ==> StackOf(w, tid)[i].stamped)
    && forall k :: 0 <= k < |w.cause| ==> w.cause[k].stamped
  }

  lemma StampedStep(w: World, n: nat, step: Step)
    requires SlotsAreTops(w) && AllStamped(w) && |ThreadsInside(Do(w, n, step))| <= MAX_ENTRIES
    ensures AllStamped(Do(w, n, step))
  {
    hide SlotsAreTops, ThreadsInside;
    if step.Enter? {
      RoomToStamp(w, n, step);
    }
    var w' := Do(w, n, step);
    forall tid: U32, i | 0 <= i < |StackOf(w', tid)| ensures StackOf(w', tid)[i].stamped {
      if i < |StackOf(w, tid)| {
        assert StackOf(w, tid)[i].stamped;
      }
    }
    forall k | 0 <= k < |w'.cause| ensures w'.cause[k].stamped {
      if k < |w.cause| {
        assert w.cause[k].stamped;
      } else if step.Leave? {
        assert StackOf(w, step.tid)[|StackOf(w, step.tid)| - 1].stamped;
      }
    }
  }

  lemma RoomToStamp(w: World, n: nat, step: Step)
    requires SlotsAreTops(w) && step.Enter? && |ThreadsInside(Do(w, n, step))| <= MAX_ENTRIES
    ensures step.tid in MapUpdate(w.entryTimes, step.tid, step.ts)
  {
    hide SlotsAreTops;
    StampsHeld(w);
    if step.tid !in w.entryTimes {
      SubsetSize(w.entryTimes.Keys + {step.tid}, ThreadsInside(Do(w, n, step)));
    }
  }

  /** While there is room for every thread inside, every call is stamped, and the duration of every call in
      which no other watched one is entered is exact. */
  lemma {:induction false} StampedWhileFewInside(steps: seq<Step>)
    requires FewInside(steps)
    ensures AllStamped(Run(steps))
    ensures var w := Run(steps);
            && |w.cause| == |w.ring|
            && forall k :: 0 <= k < |w.ring| && w.ring[k].isExit ==>
                 w.ring[k].duration == if w.cause[k].nested then 0
                                       else Wrap(w.ring[k].timestamp - w.cause[k].entered)
  {
    hide Do, SlotsAreTops, ThreadsInside, InnerNested;
    assert steps[..|steps|] == steps;
    if steps != [] {
      var before, n := steps[..|steps| - 1], |steps| - 1;
      forall m | 0 <= m <= n ensures |ThreadsInside(Run(before[..m]))| <= MAX_ENTRIES {
        assert before[..m] == steps[..m];
      }
      StampedWhileFewInside(before);
      DurationsAreOwn(before);
      StampedStep(Run(before), n, steps[n]);
    }
    DurationsAreOwn(steps);
    assert forall k :: 0 <= k < |Run(steps).ring| ==> Timed(Run(steps).ring[k], Run(steps).cause[k]);
  }

  // ----- what the events are about -----

  // Thread tid enters some watched function strictly between the two steps.
  ghost predicate EntersBetween(steps: seq<Step>, tid: U32, from: nat, upTo: nat) {
    exists m: nat :: from < m < upTo && m < |steps| && steps[m].Enter? && steps[m].tid == tid
  }

  // Where the step that enters a call writes its entry event.
  function SlotOf(steps: seq<Step>, born: nat): Option<nat>
    requires born < |steps|
  {
    if steps[born].room then Some(|Run(steps[..born]).ring|) else None
  }

  // What a call of tid, open after the given steps, remembers of them.
  ghost predicate IsOpenCall(steps: seq<Step>, tid: U32, call: Call) {
    && call.born < |steps| && steps[call.born].Enter? && steps[call.born].tid == tid
    && steps[call.born].func == call.func && steps[call.born].args == call.args && steps[call.born].ts == call.entered
    && call.slot == SlotOf(steps, call.born)
    && (call.nested <==> EntersBetween(steps, tid, call.born, |steps|))
  }

  ghost predicate OpenCallsOf(steps: seq<Step>, tid: U32, stack: seq<Call>) {
    forall i :: 0 <= i < |stack| ==> IsOpenCall(steps, tid, stack[i])
  }

  lemma OpenCallLater(steps: seq<Step>, more: seq<Step>, tid: U32, call: Call)
    requires more != [] && steps == more[..|more| - 1] && IsOpenCall(steps, tid, call)
    ensures IsOpenCall(more, tid, call.(nested := call.nested || (more[|steps|].Enter? && more[|steps|].tid == tid)))
  {
    hide Run;
    var enters := more[|steps|].Enter? && more[|steps|].tid == tid;
    assert more[..call.born] == steps[..call.born];
    assert forall m: nat :: m < |steps| ==> more[m] == steps[m];
    if EntersBetween(steps, tid, call.born, |steps|) {
      var m: nat :| call.born < m < |steps| && steps[m].Enter? && steps[m].tid == tid;
      assert more[m] == steps[m];
    }
    if enters {
      assert call.born < |steps| < |more|;
    }
  }

  lemma OpenCallsStep(steps: seq<Step>, tid: U32)
    requires steps != []
    requires var before := steps[..|steps| - 1]; OpenCallsOf(before, tid, StackOf(Run(before), tid))
    requires InnerNestedOf(StackOf(Run(steps[..|steps| - 1]), tid))
    ensures OpenCallsOf(steps, tid, StackOf(Run(steps), tid))
  {
    hide IsOpenCall, Run;
    var before, n := steps[..|steps| - 1], |steps| - 1;
    var w, step := Run(before), steps[n];
    RunStep(steps);
    var stack, stack' := StackOf(w, tid), StackOf(Run(steps), tid);
    forall i | 0 <= i < |stack'| ensures IsOpenCall(steps, tid, stack'[i]) {
      if i < |stack| {
        OpenCallLater(before, steps, tid, stack[i]);
        assert stack'[i] == stack[i].(nested := stack[i].nested || (step.Enter? && step.tid == tid));
      } else {
        NewCallIsOpen(steps, tid, stack'[i]);
      }
    }
  }

  lemma RunStep(steps: seq<Step>)
    requires steps != []
    ensures Run(steps) == Do(Run(steps[..|steps| - 1]), |steps| - 1, steps[|steps| - 1])
  {
  }

  lemma NewCallIsOpen(steps: seq<Step>, tid: U32, call: Call)
    requires steps != [] && steps[|steps| - 1].Enter? && call.born == |steps| - 1
    requires var s := steps[|steps| - 1];
             s.tid == tid && call.func == s.func && call.args == s.args && call.entered == s.ts && !call.nested
             && call.slot == SlotOf(steps, call.born)
    ensures IsOpenCall(steps, tid, call)
  {
  }

  lemma {:induction false} OpenCallsAreReal(steps: seq<Step>, tid: U32)
    ensures OpenCallsOf(steps, tid, StackOf(Run(steps), tid))
  {
    if steps != [] {
      OpenCallsAreReal(steps[..|steps| - 1], tid);
      DurationsAreOwn(steps[..|steps| - 1]);
      OpenCallsStep(steps, tid);
    }
  }

  /** Step n wrote the event: it entered the call, or it returned from the call, which was the
      innermost open one of its thread and remembers the run so far. */
  ghost predicate WrittenAt(steps: seq<Step>, e: RawEvent, call: Call, n: nat) {
    && n < |steps| && e.tid == steps[n].tid
    && (if e.isExit then
          && steps[n].Leave? && e.timestamp == steps[n].now && e.retVal == steps[n].ret
          && (var stack := StackOf(Run(steps[..n]), e.tid); stack != [] && stack[|stack| - 1] == call)
          && IsOpenCall(steps[..n], e.tid, call)
        else
          steps[n].Enter? && call.born == n && call.func == steps[n].func && e.args == steps[n].args)
  }

  // The step writes an event.
  ghost predicate Writes(steps: seq<Step>, n: nat)
    requires n < |steps|
  {
    steps[n].room && (steps[n].Leave? ==> StackOf(Run(steps[..n]), steps[n].tid) != [])
  }

  // How many events the first n steps write.
  function WrittenBefore(steps: seq<Step>, n: nat): nat
    requires n <= |steps|
  {
    |Run(steps[..n]).ring|
  }

  // The step that writes event k.
  function WriterOf(steps: seq<Step>, k: nat): (n: nat)
    requires k < |Run(steps).ring|
    ensures n < |steps|
    decreases |steps|
  {
    var before := steps[..|steps| - 1];
    if k < |Run(before).ring| then WriterOf(before, k) else |steps| - 1
  }

  lemma DoWrites(w: World, n: nat, step: Step)
    ensures var w' := Do(w, n, step);
            && w.ring <= w'.ring && |w'.ring| <= |w.ring| + 1
            && (|w'.ring| > |w.ring| <==> step.room && (step.Leave? ==> StackOf(w, step.tid) != []))
            && (|w.cause| == |w.ring| ==> w.cause <= w'.cause && |w'.cause| == |w'.ring|)
  {
  }

  lemma {:induction false} RingGrows(steps: seq<Step>, n: nat)
    requires n <= |steps|
    ensures Run(steps[..n]).ring <= Run(steps).ring
  {
    if n == |steps| {
      assert steps[..n] == steps;
    } else {
      var before := steps[..|steps| - 1];
      RingGrows(before, n);
      assert before[..n] == steps[..n];
      RunStep(steps);
      DoWrites(Run(before), |steps| - 1, steps[|steps| - 1]);
    }
  }

  lemma WritesOne(steps: seq<Step>, n: nat)
    requires n < |steps|
    ensures WrittenBefore(steps, n + 1) == WrittenBefore(steps, n) + if Writes(steps, n) then 1 else 0
  {
    hide Run, Do;
    assert steps[..n + 1][..n] == steps[..n];
    RunStep(steps[..n + 1]);
    DoWrites(Run(steps[..n]), n, steps[n]);
  }

  lemma WrittenInOrder(steps: seq<Step>, m: nat, n: nat)
    requires m <= n <= |steps|
    ensures WrittenBefore(steps, m) <= WrittenBefore(steps, n) <= |Run(steps).ring|
  {
    hide Run;
    RingGrows(steps[..n], m);
    RingGrows(steps, n);
    assert steps[..n][..m] == steps[..m];
  }

  lemma WrittenLater(steps: seq<Step>, e: RawEvent, call: Call, n: nat)
    requires steps != [] && WrittenAt(steps[..|steps| - 1], e, call, n)
    ensures WrittenAt(steps, e, call, n)
  {
    hide Run, IsOpenCall;
    assert steps[..|steps| - 1][..n] == steps[..n];
  }

  // The event the last step writes, if any.
  lemma WrittenNow(steps: seq<Step>)
    requires steps != []
    ensures var w, w' := Run(steps[..|steps| - 1]), Run(steps);
            && |w.ring| <= |w'.ring| <= |w.ring| + 1 && w'.ring[..|w.ring|] == w.ring
            && (|w.cause| == |w.ring| ==>
                  && |w'.cause| == |w'.ring| && w'.cause[..|w.cause|] == w.cause
                  && (|w'.ring| > |w.ring| ==>
                        WrittenAt(steps, w'.ring[|w.ring|], w'.cause[|w.ring|], |steps| - 1)))
  {
    hide IsOpenCall, Run;
    RunStep(steps);
    OpenCallsAreReal(steps[..|steps| - 1], steps[|steps| - 1].tid);
  }

  /** Every event of the ring is about a call of the run: the call an entry event opens, or the
      innermost open call its thread returns from. */
  lemma {:induction false} EventsAreAboutCalls(steps: seq<Step>, k: nat)
    requires k < |Run(steps).ring|
    ensures |Run(steps).cause| == |Run(steps).ring|
    ensures WrittenAt(steps, Run(steps).ring[k], Run(steps).cause[k], WriterOf(steps, k))
  {
    hide WrittenAt, Do;
    if steps != [] {
      WrittenNow(steps);
      var w, w' := Run(steps[..|steps| - 1]), Run(steps);
      DurationsAreOwn(steps[..|steps| - 1]);
      if k < |w.ring| {
        EventsAreAboutCalls(steps[..|steps| - 1], k);
        WrittenLater(steps, w.ring[k], w.cause[k], WriterOf(steps, k));
        assert w'.ring[k] == w'.ring[..|w.ring|][k] && w'.cause[k] == w'.cause[..|w.cause|][k];
      }
    }
  }

  // The writer of event k is the one step that writes behind the first k events.
  lemma {:induction false} WriterWrites(steps: seq<Step>, k: nat)
    requires k < |Run(steps).ring|
    ensures Writes(steps, WriterOf(steps, k)) && WrittenBefore(steps, WriterOf(steps, k)) == k
    decreases |steps|
  {
    hide Do;
    var before, n := steps[..|steps| - 1], WriterOf(steps, k);
    if k < |Run(before).ring| {
      WriterWrites(before, k);
      assert before[..n] == steps[..n];
    } else {
      RunStep(steps);
      DoWrites(Run(before), |steps| - 1, steps[|steps| - 1]);
    }
  }

  lemma WriterIsUnique(steps: seq<Step>, n: nat)
    requires n < |steps| && Writes(steps, n)
    ensures WrittenBefore(steps, n) < |Run(steps).ring| && WriterOf(steps, WrittenBefore(steps, n)) == n
  {
    hide Run, WriterOf, Writes;
    var k := WrittenBefore(steps, n);
    WritesOne(steps, n);
    WrittenInOrder(steps, n + 1, |steps|);
    assert steps[..|steps|] == steps;
    WriterWrites(steps, k);
    var m := WriterOf(steps, k);
    WritesOne(steps, m);
    if m < n {
      WrittenInOrder(steps, m + 1, n);
    } else if n < m {
      WrittenInOrder(steps, n + 1, m);
    }
  }

  lemma EventsInOrder(steps: seq<Step>, m: nat, n: nat)
    requires m < n < |steps| && Writes(steps, m)
    ensures WrittenBefore(steps, m) < WrittenBefore(steps, n)
  {
    hide Run, Writes;
    WritesOne(steps, m);
    WrittenInOrder(steps, m + 1, n);
  }

  lemma WritersInOrder(steps: seq<Step>, j: nat, k: nat)
    requires j < k < |Run(steps).ring|
    ensures WriterOf(steps, j) < WriterOf(steps, k)
  {
    hide Run, WriterOf, Writes;
    WriterWrites(steps, j);
    WriterWrites(steps, k);
    if WriterOf(steps, k) <= WriterOf(steps, j) {
      WrittenInOrder(steps, WriterOf(steps, k), WriterOf(steps, j));
    }
  }

  // ----- the life of a call -----

  // How many calls of the thread are open after the first n steps.
  function OpenAt(steps: seq<Step>, tid: U32, n: nat): nat
    requires n <= |steps|
  {
    |StackOf(Run(steps[..n]), tid)|
  }

  lemma OpenAtOfPrefix(steps: seq<Step>, tid: U32, n: nat, m: nat)
    requires m <= n <= |steps|
    ensures OpenAt(steps[..n], tid, m) == OpenAt(steps, tid, m)
  {
    hide Run;
    assert steps[..n][..m] == steps[..m];
  }

  // The call entered at step born was the i-th open one, and there have been more than i ever since.
  ghost predicate Held(steps: seq<Step>, tid: U32, born: nat, i: nat) {
    && born < |steps| && OpenAt(steps, tid, born) == i
    && forall m :: born < m <= |steps| ==> OpenAt(steps, tid, m) > i
  }

  lemma {:induction false} CallIsHeld(steps: seq<Step>, tid: U32, i: nat)
    requires i < |StackOf(Run(steps), tid)|
    ensures Held(steps, tid, StackOf(Run(steps), tid)[i].born, i)
  {
    hide Run, Do;
    if steps != [] {
      RunStep(steps);
      var before, n := steps[..|steps| - 1], |steps| - 1;
      StackStep(Run(before), n, steps[n], tid);
      var born := StackOf(Run(steps), tid)[i].born;
      if i < |StackOf(Run(before), tid)| {
        CallIsHeld(before, tid, i);
        HeldLater(steps, tid, born, i);
      } else {
        assert steps[..|steps|] == steps;
      }
    } else {
      NothingOpen(tid);
    }
  }

  lemma NothingOpen(tid: U32)
    ensures StackOf(Run([]), tid) == []
  {
  }

  lemma HeldLater(steps: seq<Step>, tid: U32, born: nat, i: nat)
    requires steps != [] && Held(steps[..|steps| - 1], tid, born, i) && |StackOf(Run(steps), tid)| > i
    ensures Held(steps, tid, born, i)
  {
    hide Run;
    var n := |steps| - 1;
    OpenAtOfPrefix(steps, tid, n, born);
    forall m | born < m <= |steps| ensures OpenAt(steps, tid, m) > i {
      if m <= n {
        OpenAtOfPrefix(steps, tid, n, m);
      } else {
        assert steps[..m] == steps;
      }
    }
  }

  lemma StackStep(w: World, n: nat, step: Step, tid: U32)
    ensures var stack, stack' := StackOf(w, tid), StackOf(Do(w, n, step), tid);
            && (step.tid != tid ==> stack' == stack)
            && (forall i :: 0 <= i < |stack| && i < |stack'| ==> stack'[i].born == stack[i].born)
            && (step.tid == tid && step.Enter? ==> |stack'| == |stack| + 1 && stack'[|stack|].born == n)
            && (step.tid == tid && step.Leave? ==> |stack'| == if stack == [] then 0 else |stack| - 1)
  {
  }

  lemma OpenAtStep(steps: seq<Step>, tid: U32, n: nat)
    requires n < |steps|
    ensures var open, step := OpenAt(steps, tid, n), steps[n];
            OpenAt(steps, tid, n + 1) ==
            if step.tid != tid then open
            else if step.Enter? then open + 1
            else if open == 0 then 0 else open - 1
  {
    hide Run, Do;
    assert steps[..n + 1][..n] == steps[..n];
    RunStep(steps[..n + 1]);
    StackStep(Run(steps[..n]), n, steps[n], tid);
  }

  // Without an entry in between no more calls are open.
  lemma {:induction false} OpenAtFalls(steps: seq<Step>, tid: U32, from: nat, n: nat)
    requires from < n <= |steps| && !EntersBetween(steps, tid, from, n)
    ensures OpenAt(steps, tid, n) <= OpenAt(steps, tid, from + 1)
    decreases n
  {
    hide OpenAt;
    if n > from + 1 {
      var m := n - 1;
      assert !(steps[m].Enter? && steps[m].tid == tid);
      OpenAtFalls(steps, tid, from, m);
      OpenAtStep(steps, tid, m);
    }
  }

  /** A call inside which no other is entered is the next of its thread to return. */
  lemma NextIsReturn(steps: seq<Step>, tid: U32, born: nat, i: nat, m: nat)
    requires Held(steps, tid, born, i) && steps[born].Enter? && steps[born].tid == tid
    requires !EntersBetween(steps, tid, born, |steps|) && born < m < |steps|
    ensures steps[m].tid != tid
  {
    hide OpenAt;
    OpenAtStep(steps, tid, born);
    assert !(steps[m].Enter? && steps[m].tid == tid);
    assert !EntersBetween(steps, tid, born, m);
    OpenAtFalls(steps, tid, born, m);
    OpenAtStep(steps, tid, m);
    assert OpenAt(steps, tid, m + 1) > i && OpenAt(steps, tid, m) > i;
  }

  // A return from a call of the function.
  ghost predicate LeavesFunc(steps: seq<Step>, tid: U32, func: U64, m: nat) {
    && m < |steps| && steps[m].Leave? && steps[m].tid == tid
    && var stack := StackOf(Run(steps[..m]), tid); stack != [] && stack[|stack| - 1].func == func
  }

  // A call that was entered at step e is open, or has been returned from.
  lemma {:induction false} OpenOrReturned(steps: seq<Step>, tid: U32, e: nat)
    requires e < |steps| && steps[e].Enter? && steps[e].tid == tid
    ensures || (exists i :: 0 <= i < |StackOf(Run(steps), tid)| && StackOf(Run(steps), tid)[i].born == e)
            || (exists m: nat :: e < m && LeavesFunc(steps, tid, steps[e].func, m))
  {
    hide Run, Do, IsOpenCall;
    var before, n := steps[..|steps| - 1], |steps| - 1;
    RunStep(steps);
    StackStep(Run(before), n, steps[n], tid);
    var stack, stack' := StackOf(Run(before), tid), StackOf(Run(steps), tid);
    if e == n {
      assert stack'[|stack|].born == e;
    } else {
      OpenOrReturned(before, tid, e);
      if i :| 0 <= i < |stack| && stack[i].born == e {
        if i < |stack'| {
          assert stack'[i].born == e;
        } else {
          OpenCallsAreReal(before, tid);
          FuncOfCall(before, tid, stack[i]);
          assert LeavesFunc(steps, tid, steps[e].func, n);
        }
      } else {
        var m: nat :| e < m && LeavesFunc(before, tid, before[e].func, m);
        assert before[..m] == steps[..m];
        assert LeavesFunc(steps, tid, steps[e].func, m);
      }
    }
  }

  lemma FuncOfCall(steps: seq<Step>, tid: U32, call: Call)
    requires IsOpenCall(steps, tid, call)
    ensures call.born < |steps| && steps[call.born].func == call.func
  {
  }

  /** Where a call of the thread says its entry event is, the entry event is. */
  ghost predicate SlotIsEntry(w: World, tid: U32, call: Call) {
    call.slot.Some? ==>
      call.slot.value < |w.ring| && w.ring[call.slot.value] == EntryEvent(tid, call.entered, call.func, call.args)
  }

  ghost predicate SlotsAreEntries(w: World) {
    && (forall tid: U32, i :: 0 <= i < |StackOf(w, tid)| ==> SlotIsEntry(w, tid, StackOf(w, tid)[i]))
    && |w.cause| == |w.ring| && forall k :: 0 <= k < |w.ring| ==> SlotIsEntry(w, w.ring[k].tid, w.cause[k])
  }

  lemma EntriesStep(w: World, n: nat, step: Step)
    requires SlotsAreEntries(w)
    ensures SlotsAreEntries(Do(w, n, step))
  {
    var w' := Do(w, n, step);
    assert w.ring <= w'.ring && w.cause <= w'.cause;
    forall tid: U32, i | 0 <= i < |StackOf(w', tid)| ensures SlotIsEntry(w', tid, StackOf(w', tid)[i]) {
      if i < |StackOf(w, tid)| {
        assert SlotIsEntry(w, tid, StackOf(w, tid)[i]);
      }
    }
    forall k | 0 <= k < |w'.ring| ensures SlotIsEntry(w', w'.ring[k].tid, w'.cause[k]) {
      if k < |w.ring| {
        assert SlotIsEntry(w, w.ring[k].tid, w.cause[k]);
      } else if step.Leave? {
        var top := |StackOf(w, step.tid)| - 1;
        assert SlotIsEntry(w, step.tid, StackOf(w, step.tid)[top]);
      }
    }
  }

  lemma {:induction false} EntriesInRing(steps: seq<Step>)
    ensures SlotsAreEntries(Run(steps))
  {
    if steps != [] {
      hide SlotsAreEntries, Do;
      EntriesInRing(steps[..|steps| - 1]);
      EntriesStep(Run(steps[..|steps| - 1]), |steps| - 1, steps[|steps| - 1]);
    }
  }

  /** What a reader of the ring has seen at any time is the whole ring of an earlier moment. */
  lemma {:induction false} SeenIsEarlier(steps: seq<Step>, upTo: nat) returns (n: nat)
    requires upTo <= |Run(steps).ring|
    ensures n <= |steps| && Run(steps[..n]).ring == Run(steps).ring[..upTo]
  {
    hide Do;
    n := |steps|;
    assert steps[..n] == steps;
    if upTo < |Run(steps).ring| {
      var before := steps[..|steps| - 1];
      WrittenNow(steps);
      n := SeenIsEarlier(before, upTo);
      assert before[..n] == steps[..n];
    }
  }
}
