/** The depth counter of the call-tree probes: every event carries the nesting level of its call. */
module Depth {
  import opened BpfMaps
  import opened Words

  datatype TraceEvent = TraceEvent(timestamp: U64, duration: U64, tid: U32, depth: U32, isExit: bool)

  const TWO_TO_THE_32: nat := 0x1_0000_0000

  function EntryDepth(depths: map<U32, U32>, tid: U32): U32 {
    if tid in depths then (depths[tid] + 1) % TWO_TO_THE_32 else 0
  }

  function ExitDepth(depths: map<U32, U32>, tid: U32): U32 {
    if tid in depths then depths[tid] else 0
  }

  function AfterExit(depths: map<U32, U32>, tid: U32): map<U32, U32> {
    if tid in depths && depths[tid] > 0 then MapUpdate(depths, tid, depths[tid] - 1) else depths - {tid}
  }

  function Elapsed(times: map<U32, U64>, tid: U32, now: U64): U64 {
    if tid in times then Wrap(now - times[tid]) else 0
  }

  // ----- runs: calls and returns of the traced function, interleaved -----

  datatype Step = Enter(tid: U32, time: U64, room: bool) | Leave(tid: U32, time: U64, room: bool)

  /** stacks: the steps that entered the open calls of each thread, innermost last. cause: the step
      that entered the call each event of the ring is about. */
  datatype World = World(stacks: map<U32, seq<nat>>, depths: map<U32, U32>, times: map<U32, U64>,
                         ring: seq<TraceEvent>, cause: seq<nat>)

  function StackOf(w: World, tid: U32): seq<nat> {
    if tid in w.stacks then w.stacks[tid] else []
  }

  function DoEnter(w: World, n: nat, tid: U32, ts: U64, room: bool): World {
    World(w.stacks[tid := StackOf(w, tid) + [n]], MapUpdate(w.depths, tid, EntryDepth(w.depths, tid)),
          MapUpdate(w.times, tid, ts),
          w.ring + (if room then [TraceEvent(ts, 0, tid, EntryDepth(w.depths, tid), false)] else []),
          w.cause + (if room then [n] else []))
  }

  function DoLeave(w: World, tid: U32, now: U64, room: bool): World
    requires StackOf(w, tid) != []
  {
    var stack := StackOf(w, tid);
    World(w.stacks[tid := stack[..|stack| - 1]], AfterExit(w.depths, tid), w.times - {tid},
          w.ring + (if room then [TraceEvent(now, Elapsed(w.times, tid, now), tid, ExitDepth(w.depths, tid), true)]
                    else []),
          w.cause + (if room then [stack[|stack| - 1]] else []))
  }

  // A thread without an open call has nothing to return from.
  function Do(w: World, n: nat, step: Step): World {
    if step.Enter? then DoEnter(w, n, step.tid, step.time, step.room)
    else if StackOf(w, step.tid) == [] then w
    else DoLeave(w, step.tid, step.time, step.room)
  }

  function Run(steps: seq<Step>): World {
    if steps == [] then World(map[], map[], map[], [], [])
    else Do(Run(steps[..|steps| - 1]), |steps| - 1, steps[|steps| - 1])
  }

  // ----- the probes -----

  /** The maps of the probe program and the run that has led to them; None once a return probe has fired
      without an open call of its thread. `room`: the ring buffer had room for the event. */
  class Probes {
    var callDepth: map<U32, U32>
    var entryTimes: map<U32, U64>
    var ring: seq<TraceEvent>
    ghost var run: Option<seq<Step>>

    ghost predicate Valid()
      reads this
    {
      run.Some? ==>
        var w := Run(run.value); callDepth == w.depths && entryTimes == w.times && ring == w.ring
    }

    constructor ()
      ensures Valid() && run == Some([])
      ensures callDepth == map[] && entryTimes == map[] && ring == []
    {
      callDepth, entryTimes, ring, run := map[], map[], [], Some([]);
    }

    // trace_entry
    method TraceEntry(tid: U32, ts: U64, room: bool)
      requires Valid()
      modifies this
      ensures Valid() && run == Then(old(run), Enter(tid, ts, room))
      ensures callDepth == MapUpdate(old(callDepth), tid, EntryDepth(old(callDepth), tid))
      ensures entryTimes == MapUpdate(old(entryTimes), tid, ts)
      ensures ring == old(ring) + if room then [TraceEvent(ts, 0, tid, EntryDepth(old(callDepth), tid), false)] else []
    {
      hide Run, MapUpdate;
      if run.Some? {
        RunOneMore(run.value, Enter(tid, ts, room));
      }
      run := Then(run, Enter(tid, ts, room));
      var depth: U32 := if tid in callDepth then (callDepth[tid] + 1) % TWO_TO_THE_32 else 0;
      callDepth := MapUpdate(callDepth, tid, depth);
      entryTimes := MapUpdate(entryTimes, tid, ts);
      if !room {
        return;
      }
      ring := ring + [TraceEvent(ts, 0, tid, depth, false)];
    }

    // trace_exit
    method TraceExit(tid: U32, now: U64, room: bool)
      requires Valid()
      modifies this
      ensures Valid()
      ensures run == if old(run).Some? && StackOf(Run(old(run).value), tid) != []
                     then Then(old(run), Leave(tid, now, room)) else None
      ensures callDepth == AfterExit(old(callDepth), tid)
      ensures entryTimes == old(entryTimes) - {tid}
      ensures ring == old(ring) + if room then [TraceEvent(now, Elapsed(old(entryTimes), tid, now), tid,
                                                           ExitDepth(old(callDepth), tid), true)] else []
    {
      hide Run, MapUpdate;
      if run.Some? && StackOf(Run(run.value), tid) != [] {
        RunOneMore(run.value, Leave(tid, now, room));
        run := Then(run, Leave(tid, now, room));
      } else {
        run := None;
      }
      var depth := if tid in callDepth then callDepth[tid] else 0;
      if tid in callDepth && callDepth[tid] > 0 {
        callDepth := MapUpdate(callDepth, tid, callDepth[tid] - 1);
      } else {
        callDepth := callDepth - {tid};
      }
      if !room {
        entryTimes := entryTimes - {tid};
        return;
      }
      var duration := if tid in entryTimes then Wrap(now - entryTimes[tid]) else 0;
      ring := ring + [TraceEvent(now, duration, tid, depth, true)];
      entryTimes := entryTimes - {tid};
    }
  }

  ghost function Then(run: Option<seq<Step>>, step: Step): Option<seq<Step>> {
    if run.Some? then Some(run.value + [step]) else None
  }

  lemma RunOneMore(steps: seq<Step>, step: Step)
    ensures Run(steps + [step]) == Do(Run(steps), |steps|, step)
  {
    hide Do;
    assert (steps + [step])[..|steps|] == steps;
  }

  // ----- the counter -----

  ghost predicate CountsOf(w: World, tid: U32) {
    if StackOf(w, tid) == [] then tid !in w.depths
    else tid in w.depths && w.depths[tid] == |StackOf(w, tid)| - 1
  }

  /** The counter of each thread is the number of its open calls less one, and absent without any. */
  ghost predicate Counts(w: World) {
    forall tid: U32 :: CountsOf(w, tid)
  }

  function OpenThreads(w: World): set<U32> {
    set tid | tid in w.stacks && w.stacks[tid] != []
  }

  /** No more threads inside the function than the map has entries, and no deeper than its values. */
  ghost predicate Fits(w: World) {
    && |OpenThreads(w)| <= 4096
    && forall tid: U32 :: |StackOf(w, tid)| <= 0x1_0000_0000
  }

  ghost predicate BoundedOf(w: World, tid: U32) {
    && (tid in w.depths ==> w.depths[tid] < |StackOf(w, tid)|)
    && (tid in w.times ==> StackOf(w, tid) != [])
  }

  // Whatever happens, no counter exceeds the number of open calls.
  ghost predicate Bounded(w: World) {
    && (forall tid: U32 :: BoundedOf(w, tid))
    && |w.depths| <= 4096 && |w.times| <= 4096
  }

  lemma BoundedStep(w: World, n: nat, step: Step)
    requires Bounded(w)
    ensures Bounded(Do(w, n, step))
  {
    hide BoundedOf, Do;
    forall tid: U32 ensures BoundedOf(Do(w, n, step), tid) {
      BoundedOfStep(w, n, step, tid);
    }
    SizesStep(w, n, step);
  }

  lemma BoundedOfStep(w: World, n: nat, step: Step, tid: U32)
    requires BoundedOf(w, tid)
    ensures BoundedOf(Do(w, n, step), tid)
  {
  }

  lemma SizesStep(w: World, n: nat, step: Step)
    requires |w.depths| <= MAX_ENTRIES && |w.times| <= MAX_ENTRIES
    ensures |Do(w, n, step).depths| <= MAX_ENTRIES && |Do(w, n, step).times| <= MAX_ENTRIES
  {
    UpdateSize(w.depths, step.tid, EntryDepth(w.depths, step.tid));
    UpdateSize(w.times, step.tid, step.time);
    if step.tid in w.depths && w.depths[step.tid] > 0 {
      UpdateSize(w.depths, step.tid, w.depths[step.tid] - 1);
    }
    RemoveSize(w.depths, step.tid);
    RemoveSize(w.times, step.tid);
  }

  lemma UpdateSize<V>(m: map<U32, V>, key: U32, value: V)
    ensures |MapUpdate(m, key, value)| <= |m| || |MapUpdate(m, key, value)| <= MAX_ENTRIES
  {
    assert m[key := value].Keys == m.Keys + {key};
  }

  lemma RemoveSize<V>(m: map<U32, V>, key: U32)
    ensures |m - {key}| <= |m|
  {
    assert (m - {key}).Keys == m.Keys - {key};
  }

  lemma {:induction false} RunBounded(steps: seq<Step>)
    ensures Bounded(Run(steps))
  {
    if steps != [] {
      hide Bounded, Do;
      RunBounded(steps[..|steps| - 1]);
      BoundedStep(Run(steps[..|steps| - 1]), |steps| - 1, steps[|steps| - 1]);
    }
  }

  // A thread that enters finds room in a map that holds no more than the threads inside.
  lemma RoomToEnter<V>(w: World, n: nat, step: Step, m: map<U32, V>)
    requires step.Enter? && Fits(Do(w, n, step)) && m.Keys <= OpenThreads(w)
    ensures step.tid in m || |m| < MAX_ENTRIES
  {
    if step.tid !in m {
      SubsetSize(m.Keys + {step.tid}, OpenThreads(Do(w, n, step)));
    }
  }

  lemma BoundedKeys(w: World)
    requires Bounded(w)
    ensures w.depths.Keys <= OpenThreads(w) && w.times.Keys <= OpenThreads(w)
  {
    forall tid: U32 ensures tid in w.depths || tid in w.times ==> tid in OpenThreads(w) {
      assert BoundedOf(w, tid);
    }
  }

  lemma CountsFit(w: World)
    requires Counts(w) && |w.depths| <= MAX_ENTRIES
    ensures Fits(w)
  {
    forall tid: U32
      ensures |StackOf(w, tid)| <= TWO_TO_THE_32 && (tid in OpenThreads(w) ==> tid in w.depths)
    {
      assert CountsOf(w, tid);
    }
    SubsetSize(OpenThreads(w), w.depths.Keys);
  }

  lemma CountsOfStep(w: World, n: nat, step: Step, tid: U32)
    requires CountsOf(w, tid) && |StackOf(w, tid)| <= TWO_TO_THE_32
    requires step.Enter? && step.tid == tid ==>
               |StackOf(w, tid)| < TWO_TO_THE_32 && (tid in w.depths || |w.depths| < MAX_ENTRIES)
    ensures CountsOf(Do(w, n, step), tid)
  {
  }

  lemma EnterDeepens(w: World, n: nat, step: Step)
    requires step.Enter? && Fits(Do(w, n, step))
    ensures |StackOf(w, step.tid)| < TWO_TO_THE_32
  {
    assert |StackOf(Do(w, n, step), step.tid)| <= TWO_TO_THE_32;
  }

  lemma CountsStep(w: World, n: nat, step: Step)
    requires Counts(w) && Bounded(w) && Fits(Do(w, n, step))
    ensures Counts(Do(w, n, step))
  {
    hide CountsOf, Do, BoundedOf;
    BoundedKeys(w);
    if step.Enter? {
      RoomToEnter(w, n, step, w.depths);
      EnterDeepens(w, n, step);
    }
    CountsFit(w);
    forall tid: U32 ensures CountsOf(Do(w, n, step), tid) {
      CountsOfStep(w, n, step, tid);
    }
  }

  ghost predicate AlwaysFits(steps: seq<Step>) {
    forall n :: 0 <= n <= |steps| ==> Fits(Run(steps[..n]))
  }

  lemma AlwaysFitsBefore(steps: seq<Step>)
    requires AlwaysFits(steps) && steps != []
    ensures AlwaysFits(steps[..|steps| - 1]) && Fits(Run(steps))
  {
    hide Run, Fits;
    var before := steps[..|steps| - 1];
    assert steps[..|steps|] == steps;
    forall n | 0 <= n <= |before| ensures Fits(Run(before[..n])) {
      assert before[..n] == steps[..n];
    }
  }

  lemma {:induction false} CountsWhileFits(steps: seq<Step>)
    requires AlwaysFits(steps)
    ensures Counts(Run(steps))
  {
    if steps != [] {
      hide Counts, Bounded, Fits, Do, AlwaysFits;
      AlwaysFitsBefore(steps);
      CountsWhileFits(steps[..|steps| - 1]);
      RunBounded(steps[..|steps| - 1]);
      CountsStep(Run(steps[..|steps| - 1]), |steps| - 1, steps[|steps| - 1]);
    } else {
      hide Fits, Do;
    }
  }

  /** The counter is right throughout a run exactly when no more threads than the map holds are ever
      inside the function at once and none nests deeper than the counter counts. Dropped events and
      the interleaving do not matter. */
  lemma CountsExactlyWhileFits(steps: seq<Step>)
    ensures (forall n :: 0 <= n <= |steps| ==> Counts(Run(steps[..n]))) <==> AlwaysFits(steps)
  {
    hide Counts, Fits, Run;
    if AlwaysFits(steps) {
      forall n | 0 <= n <= |steps| ensures Counts(Run(steps[..n])) {
        forall m | 0 <= m <= n ensures Fits(Run(steps[..n][..m])) {
          assert steps[..n][..m] == steps[..m];
        }
        CountsWhileFits(steps[..n]);
      }
    }
    if forall n :: 0 <= n <= |steps| ==> Counts(Run(steps[..n])) {
      forall n | 0 <= n <= |steps| ensures Fits(Run(steps[..n])) {
        RunSizes(steps[..n]);
        CountsFit(Run(steps[..n]));
      }
    }
  }

  lemma RunSizes(steps: seq<Step>)
    ensures |Run(steps).depths| <= MAX_ENTRIES
  {
    RunBounded(steps);
  }

  // ----- labels -----

  // The number of calls of its thread that are open when a call is entered.
  function Level(steps: seq<Step>, born: nat): nat
    requires born < |steps|
  {
    |StackOf(Run(steps[..born]), steps[born].tid)|
  }

  /** Step n wrote the event about the call that step born entered: it is that step, or the return
      from that call as the innermost open one; and the event carries the level of that call. */
  ghost predicate LabelledAt(steps: seq<Step>, e: TraceEvent, born: nat, n: nat) {
    && born <= n < |steps| && e.tid == steps[n].tid == steps[born].tid && e.timestamp == steps[n].time
    && steps[born].Enter?
    && (if e.isExit then
          steps[n].Leave? && (var stack := StackOf(Run(steps[..n]), e.tid); stack != [] && stack[|stack| - 1] == born)
        else n == born)
    && e.depth == Level(steps, born)
  }

  ghost predicate Labelled(steps: seq<Step>, e: TraceEvent, born: nat) {
    exists n: nat :: LabelledAt(steps, e, born, n)
  }

  // The open calls of a thread stand at their levels.
  ghost predicate OpenAt(steps: seq<Step>, tid: U32, born: nat, level: nat) {
    born < |steps| && steps[born].Enter? && steps[born].tid == tid && Level(steps, born) == level
  }

  ghost predicate LevelsOf(steps: seq<Step>, tid: U32, stack: seq<nat>) {
    forall i :: 0 <= i < |stack| ==> OpenAt(steps, tid, stack[i], i)
  }

  lemma OpenAtLater(steps: seq<Step>, tid: U32, born: nat, level: nat)
    requires steps != [] && OpenAt(steps[..|steps| - 1], tid, born, level)
    ensures OpenAt(steps, tid, born, level)
  {
    hide Run;
    assert steps[..|steps| - 1][..born] == steps[..born];
  }

  lemma RunStep(steps: seq<Step>)
    requires steps != []
    ensures Run(steps) == Do(Run(steps[..|steps| - 1]), |steps| - 1, steps[|steps| - 1])
  {
  }

  lemma {:induction false} LevelsAreOpenCalls(steps: seq<Step>, tid: U32)
    ensures LevelsOf(steps, tid, StackOf(Run(steps), tid))
  {
    if steps != [] {
      var before, n := steps[..|steps| - 1], |steps| - 1;
      LevelsAreOpenCalls(before, tid);
      RunStep(steps);
      var w, w' := Run(before), Run(steps);
      forall i | 0 <= i < |StackOf(w', tid)| ensures OpenAt(steps, tid, StackOf(w', tid)[i], i) {
        if i < |StackOf(w, tid)| {
          OpenAtLater(steps, tid, StackOf(w, tid)[i], i);
        }
      }
    }
  }

  lemma LabelledLater(steps: seq<Step>, e: TraceEvent, born: nat)
    requires steps != [] && Labelled(steps[..|steps| - 1], e, born)
    ensures Labelled(steps, e, born)
  {
    hide Run;
    var before := steps[..|steps| - 1];
    var n: nat :| LabelledAt(before, e, born, n);
    assert before[..n] == steps[..n] && before[..born] == steps[..born];
    assert LabelledAt(steps, e, born, n);
  }

  // The event of the last step, if it writes one.
  lemma LabelledNow(steps: seq<Step>)
    requires steps != [] && Counts(Run(steps[..|steps| - 1])) && Fits(Run(steps))
    requires var w := Run(steps[..|steps| - 1]); |w.cause| == |w.ring|
    ensures var w, w' := Run(steps[..|steps| - 1]), Run(steps);
            && |w'.cause| == |w'.ring| && |w.ring| <= |w'.ring| <= |w.ring| + 1
            && w.ring <= w'.ring && w.cause <= w'.cause
            && (|w'.ring| > |w.ring| ==> Labelled(steps, w'.ring[|w.ring|], w'.cause[|w.ring|]))
  {
    hide Run;
    RunStep(steps);
    var n := |steps| - 1;
    var w, w', step := Run(steps[..n]), Run(steps), steps[n];
    assert CountsOf(w, step.tid);
    if |w'.ring| > |w.ring| {
      if step.Enter? {
        assert |StackOf(w', step.tid)| <= TWO_TO_THE_32;
      } else {
        LevelsAreOpenCalls(steps[..n], step.tid);
        var top := |StackOf(w, step.tid)| - 1;
        OpenAtLater(steps, step.tid, StackOf(w, step.tid)[top], top);
      }
      assert LabelledAt(steps, w'.ring[|w.ring|], w'.cause[|w.ring|], n);
    }
  }

  /** Every event carries the nesting level of its own call, whatever the interleaving and whatever
      is dropped: entry and exit of a call agree. */
  lemma {:induction false} EventsCarryTheirLevel(steps: seq<Step>)
    requires AlwaysFits(steps)
    ensures var w := Run(steps);
            |w.cause| == |w.ring| && forall k :: 0 <= k < |w.ring| ==> Labelled(steps, w.ring[k], w.cause[k])
  {
    if steps != [] {
      hide Labelled, Counts, Fits, Run, AlwaysFits;
      var before := steps[..|steps| - 1];
      AlwaysFitsBefore(steps);
      EventsCarryTheirLevel(before);
      CountsWhileFits(before);
      LabelledNow(steps);
      var w, w' := Run(before), Run(steps);
      forall k | 0 <= k < |w'.ring| ensures Labelled(steps, w'.ring[k], w'.cause[k]) {
        if k < |w.ring| {
          LabelledLater(steps, w.ring[k], w.cause[k]);
        }
      }
    } else {
      hide Labelled, Fits;
    }
  }

  // ----- threads do not influence each other -----

  function Of(ring: seq<TraceEvent>, tid: U32): seq<TraceEvent> {
    if ring == [] then []
    else
      var n := |ring| - 1;
      Of(ring[..n], tid) + if ring[n].tid == tid then [ring[n]] else []
  }

  function StepsOf(steps: seq<Step>, tid: U32): seq<Step> {
    if steps == [] then []
    else
      var n := |steps| - 1;
      StepsOf(steps[..n], tid) + if steps[n].tid == tid then [steps[n]] else []
  }

  // The event of a step, if it writes one.
  function Emitted(w: World, step: Step): seq<TraceEvent> {
    if !step.room then []
    else if step.Enter? then [TraceEvent(step.time, 0, step.tid, EntryDepth(w.depths, step.tid), false)]
    else if StackOf(w, step.tid) == [] then []
    else [TraceEvent(step.time, Elapsed(w.times, step.tid, step.time), step.tid, ExitDepth(w.depths, step.tid), true)]
  }

  lemma RingStep(w: World, n: nat, step: Step)
    ensures Do(w, n, step).ring == w.ring + Emitted(w, step)
    ensures Emitted(w, step) == [] || (|Emitted(w, step)| == 1 && Emitted(w, step)[0].tid == step.tid)
  {
    hide MapUpdate;
  }

  lemma OfMore(ring: seq<TraceEvent>, more: seq<TraceEvent>, tid: U32)
    requires more == [] || |more| == 1
    ensures Of(ring + more, tid) == Of(ring, tid) + if more != [] && more[0].tid == tid then more else []
  {
    if more == [] {
      assert ring + more == ring;
    } else {
      assert (ring + more)[..|ring|] == ring;
    }
  }

  // Only the given thread has ever run.
  ghost predicate Alone(v: World, tid: U32) {
    v.stacks.Keys <= {tid} && v.depths.Keys <= {tid} && v.times.Keys <= {tid}
  }

  ghost predicate SameMaps(w: World, v: World, tid: U32) {
    && |StackOf(w, tid)| == |StackOf(v, tid)|
    && (tid in w.depths <==> tid in v.depths) && (tid in w.depths ==> w.depths[tid] == v.depths[tid])
    && (tid in w.times <==> tid in v.times) && (tid in w.times ==> w.times[tid] == v.times[tid])
  }

  ghost predicate Same(w: World, v: World, tid: U32) {
    SameMaps(w, v, tid) && v.ring == Of(w.ring, tid)
  }

  lemma AloneHasRoom<V>(m: map<U32, V>, tid: U32)
    requires m.Keys <= {tid}
    ensures |m| < MAX_ENTRIES
  {
    SubsetSize(m.Keys, {tid});
  }

  lemma OtherMaps(w: World, v: World, n: nat, step: Step, tid: U32)
    requires SameMaps(w, v, tid) && step.tid != tid
    ensures SameMaps(Do(w, n, step), v, tid)
  {
  }

  lemma OtherStep(w: World, v: World, n: nat, step: Step, tid: U32)
    requires Same(w, v, tid) && step.tid != tid
    ensures Same(Do(w, n, step), v, tid)
  {
    hide Of, SameMaps, Do, Emitted;
    OtherMaps(w, v, n, step, tid);
    RingStep(w, n, step);
    OfMore(w.ring, Emitted(w, step), tid);
  }

  // With room in both maps of both worlds, a step of the thread does the same in both.
  lemma OwnEnter(w: World, v: World, n: nat, m: nat, step: Step, tid: U32)
    requires SameMaps(w, v, tid) && Alone(v, tid) && step.tid == tid && step.Enter?
    requires (tid in w.depths || |w.depths| < MAX_ENTRIES) && (tid in w.times || |w.times| < MAX_ENTRIES)
    requires |v.depths| < MAX_ENTRIES && |v.times| < MAX_ENTRIES
    ensures SameMaps(Do(w, n, step), Do(v, m, step), tid) && Alone(Do(v, m, step), tid)
  {
  }

  lemma OwnLeave(w: World, v: World, n: nat, m: nat, step: Step, tid: U32)
    requires SameMaps(w, v, tid) && Alone(v, tid) && step.tid == tid && step.Leave?
    ensures SameMaps(Do(w, n, step), Do(v, m, step), tid) && Alone(Do(v, m, step), tid)
  {
  }

  lemma OwnEmitted(w: World, v: World, step: Step, tid: U32)
    requires SameMaps(w, v, tid) && step.tid == tid
    ensures Emitted(w, step) == Emitted(v, step)
  {
  }

  lemma OwnStep(w: World, v: World, n: nat, m: nat, step: Step, tid: U32)
    requires Same(w, v, tid) && Alone(v, tid) && step.tid == tid && Bounded(w) && Fits(Do(w, n, step))
    ensures Same(Do(w, n, step), Do(v, m, step), tid) && Alone(Do(v, m, step), tid)
  {
    hide Of, Fits, Bounded, SameMaps, Do, Emitted;
    RingStep(w, n, step);
    RingStep(v, m, step);
    OfMore(w.ring, Emitted(w, step), tid);
    AloneHasRoom(v.depths, tid);
    AloneHasRoom(v.times, tid);
    BoundedKeys(w);
    if step.Enter? {
      RoomToEnter(w, n, step, w.depths);
      RoomToEnter(w, n, step, w.times);
      OwnEnter(w, v, n, m, step, tid);
    } else {
      OwnLeave(w, v, n, m, step, tid);
    }
    OwnEmitted(w, v, step, tid);
  }

  lemma StepsOfStep(steps: seq<Step>, tid: U32)
    requires steps != []
    ensures var own, step := StepsOf(steps[..|steps| - 1], tid), steps[|steps| - 1];
            StepsOf(steps, tid) == if step.tid == tid then own + [step] else own
  {
  }

  /** The events of a thread are those of the same thread running alone. */
  lemma {:induction false} OthersDoNotMatter(steps: seq<Step>, tid: U32)
    requires AlwaysFits(steps)
    ensures Same(Run(steps), Run(StepsOf(steps, tid)), tid) && Alone(Run(StepsOf(steps, tid)), tid)
  {
    if steps != [] {
      hide Same, SameMaps, Alone, Bounded, Fits, Do, Run, StepsOf, AlwaysFits, Of;
      var before, n := steps[..|steps| - 1], |steps| - 1;
      AlwaysFitsBefore(steps);
      OthersDoNotMatter(before, tid);
      RunBounded(before);
      RunStep(steps);
      var own := StepsOf(before, tid);
      StepsOfStep(steps, tid);
      if steps[n].tid == tid {
        RunOneMore(own, steps[n]);
        OwnStep(Run(before), Run(own), n, |own|, steps[n], tid);
      } else {
        OtherStep(Run(before), Run(own), n, steps[n], tid);
      }
    } else {
      hide Fits;
    }
  }

  // ----- dropped events -----

  ghost predicate Subsequence(a: seq<TraceEvent>, b: seq<TraceEvent>) {
    if b == [] then a == []
    else
      || (a != [] && a[|a| - 1] == b[|b| - 1] && Subsequence(a[..|a| - 1], b[..|b| - 1]))
      || Subsequence(a, b[..|b| - 1])
  }

  lemma SubsequenceGrows(a: seq<TraceEvent>, b: seq<TraceEvent>, e: TraceEvent)
    requires Subsequence(a, b)
    ensures Subsequence(a, b + [e]) && Subsequence(a + [e], b + [e])
  {
    assert (b + [e])[..|b|] == b && (a + [e])[..|a|] == a;
  }

  lemma {:induction false} SubsequenceExtends(a: seq<TraceEvent>, b: seq<TraceEvent>, c: seq<TraceEvent>)
    requires Subsequence(a, b) && b <= c
    ensures Subsequence(a, c)
  {
    if |c| > |b| {
      SubsequenceExtends(a, b, c[..|c| - 1]);
    } else {
      assert b == c;
    }
  }

  function Kept(step: Step): Step {
    step.(room := true)
  }

  // The same steps with room for every event.
  function AllKept(steps: seq<Step>): seq<Step> {
    seq(|steps|, i requires 0 <= i < |steps| => Kept(steps[i]))
  }

  ghost predicate OnlyOmits(w: World, full: World) {
    w.stacks == full.stacks && w.depths == full.depths && w.times == full.times && Subsequence(w.ring, full.ring)
  }

  lemma OmitMaps(w: World, full: World, n: nat, step: Step)
    requires w.stacks == full.stacks && w.depths == full.depths && w.times == full.times
    ensures var w', full' := Do(w, n, step), Do(full, n, Kept(step));
            w'.stacks == full'.stacks && w'.depths == full'.depths && w'.times == full'.times
    ensures Emitted(w, step) == if step.room then Emitted(full, Kept(step)) else []
  {
    hide MapUpdate;
  }

  lemma OmitStep(w: World, full: World, n: nat, step: Step)
    requires OnlyOmits(w, full)
    ensures OnlyOmits(Do(w, n, step), Do(full, n, Kept(step)))
  {
    hide Subsequence, Emitted, Do;
    RingStep(w, n, step);
    RingStep(full, n, Kept(step));
    OmitMaps(w, full, n, step);
    var more := Emitted(full, Kept(step));
    if more != [] {
      assert more == [more[0]];
      SubsequenceGrows(w.ring, full.ring, more[0]);
    }
    assert w.ring + [] == w.ring && full.ring + [] == full.ring;
  }

  /** Dropping events only omits them: the maps and the other events are as they would have been. */
  lemma {:induction false} DropsOnlyOmit(steps: seq<Step>)
    ensures OnlyOmits(Run(steps), Run(AllKept(steps)))
  {
    if steps != [] {
      hide OnlyOmits, Do, Run;
      var before, n := steps[..|steps| - 1], |steps| - 1;
      DropsOnlyOmit(before);
      RunStep(steps);
      RunStep(AllKept(steps));
      assert AllKept(steps)[..n] == AllKept(before);
      OmitStep(Run(before), Run(AllKept(before)), n, steps[n]);
    }
  }

  // ----- the call forest -----

  datatype Tree = Tree(enter: U64, exit: U64, kids: seq<Tree>)

  // The steps of a thread that runs the calls of a forest.
  function Walk(tid: U32, forest: seq<Tree>): seq<Step> {
    if forest == [] then []
    else
      var t := forest[|forest| - 1];
      Walk(tid, forest[..|forest| - 1]) + [Enter(tid, t.enter, true)] + Walk(tid, t.kids) + [Leave(tid, t.exit, true)]
  }

  function Height(forest: seq<Tree>): nat {
    if forest == [] then 0
    else
      var before, last := Height(forest[..|forest| - 1]), 1 + Height(forest[|forest| - 1].kids);
      if before < last then last else before
  }

  /** The walk of a forest, each call labelled with its depth when it is entered and when it is left.
      A call that contains others is shown without a duration. */
  function Labels(tid: U32, forest: seq<Tree>, depth: nat): seq<TraceEvent>
    requires depth + Height(forest) <= TWO_TO_THE_32
  {
    if forest == [] then []
    else
      var t := forest[|forest| - 1];
      Labels(tid, forest[..|forest| - 1], depth)
      + [TraceEvent(t.enter, 0, tid, depth, false)]
      + Labels(tid, t.kids, depth + 1)
      + [TraceEvent(t.exit, if t.kids == [] then Wrap(t.exit - t.enter) else 0, tid, depth, true)]
  }

  // The steps played from a world on.
  function Play(w: World, n: nat, steps: seq<Step>): World {
    if steps == [] then w else Do(Play(w, n, steps[..|steps| - 1]), n + |steps| - 1, steps[|steps| - 1])
  }

  lemma {:induction false} RunIsPlay(steps: seq<Step>)
    ensures Run(steps) == Play(World(map[], map[], map[], [], []), 0, steps)
  {
    if steps != [] {
      hide Do;
      RunIsPlay(steps[..|steps| - 1]);
    }
  }

  lemma {:induction false} PlayOn(w: World, n: nat, a: seq<Step>, b: seq<Step>)
    ensures Play(w, n, a + b) == Play(Play(w, n, a), n + |a|, b)
  {
    hide Do;
    if b == [] {
      assert a + b == a;
    } else {
      assert (a + b)[..|a + b| - 1] == a + b[..|b| - 1];
      PlayOn(w, n, a, b[..|b| - 1]);
    }
  }

  lemma PlayOne(w: World, n: nat, step: Step)
    ensures Play(w, n, [step]) == Do(w, n, step)
  {
    assert [step][..0] == [];
  }

  // What a call of the thread, entered and left around a world that has seen its inner calls, leaves behind.
  lemma EnterAlone(w: World, n: nat, tid: U32, ts: U64)
    requires Alone(w, tid) && CountsOf(w, tid) && |StackOf(w, tid)| < TWO_TO_THE_32
    ensures var w' := Do(w, n, Enter(tid, ts, true));
            && Alone(w', tid) && CountsOf(w', tid) && StackOf(w', tid) == StackOf(w, tid) + [n]
            && tid in w'.times && w'.times[tid] == ts
            && w'.ring == w.ring + [TraceEvent(ts, 0, tid, |StackOf(w, tid)|, false)]
  {
    AloneHasRoom(w.depths, tid);
    AloneHasRoom(w.times, tid);
  }

  lemma LeaveAlone(w: World, n: nat, tid: U32, now: U64)
    requires Alone(w, tid) && CountsOf(w, tid) && 0 < |StackOf(w, tid)| <= TWO_TO_THE_32
    ensures var w' := Do(w, n, Leave(tid, now, true));
            && Alone(w', tid) && CountsOf(w', tid) && StackOf(w', tid) == StackOf(w, tid)[..|StackOf(w, tid)| - 1]
            && tid !in w'.times
            && w'.ring == w.ring + [TraceEvent(now, Elapsed(w.times, tid, now), tid, |StackOf(w, tid)| - 1, true)]
  {
  }

  lemma ForestParts(tid: U32, forest: seq<Tree>)
    requires forest != []
    ensures var t, init := forest[|forest| - 1], forest[..|forest| - 1];
            && Walk(tid, forest) == Walk(tid, init) + [Enter(tid, t.enter, true)] + Walk(tid, t.kids)
                                    + [Leave(tid, t.exit, true)]
            && Height(init) <= Height(forest) && 1 + Height(t.kids) <= Height(forest)
  {
  }

  lemma LabelParts(tid: U32, forest: seq<Tree>, depth: nat)
    requires forest != [] && depth + Height(forest) <= TWO_TO_THE_32
    ensures var t, init := forest[|forest| - 1], forest[..|forest| - 1];
            && Height(init) <= Height(forest) && 1 + Height(t.kids) <= Height(forest)
            && Labels(tid, forest, depth)
                 == Labels(tid, init, depth) + [TraceEvent(t.enter, 0, tid, depth, false)]
                    + Labels(tid, t.kids, depth + 1)
                    + [TraceEvent(t.exit, if t.kids == [] then Wrap(t.exit - t.enter) else 0, tid, depth, true)]
  {
  }

  lemma EmptyForest(w: World, n: nat, tid: U32)
    ensures Play(w, n, Walk(tid, [])) == w
    ensures |StackOf(w, tid)| <= TWO_TO_THE_32 ==> Labels(tid, [], |StackOf(w, tid)|) == []
  {
  }

  lemma {:induction false} PlayForest(w: World, n: nat, tid: U32, forest: seq<Tree>)
    requires Alone(w, tid) && CountsOf(w, tid) && |StackOf(w, tid)| + Height(forest) <= TWO_TO_THE_32
    ensures var w' := Play(w, n, Walk(tid, forest));
            && Alone(w', tid) && CountsOf(w', tid) && StackOf(w', tid) == StackOf(w, tid)
            && (if forest == [] then w' == w else tid !in w'.times)
            && w'.ring == w.ring + Labels(tid, forest, |StackOf(w, tid)|)
    decreases forest
  {
    hide Do, Alone, CountsOf, Play, Walk, Labels, Height, StackOf;
    if forest != [] {
      ForestParts(tid, forest);
      var t, init := forest[|forest| - 1], forest[..|forest| - 1];
      var depth := |StackOf(w, tid)|;
      var enter, leave := Enter(tid, t.enter, true), Leave(tid, t.exit, true);
      var a, c := Walk(tid, init), Walk(tid, t.kids);
      PlayForest(w, n, tid, init);
      var w1 := Play(w, n, a);
      EnterAlone(w1, n + |a|, tid, t.enter);
      var w2 := Do(w1, n + |a|, enter);
      PlayForest(w2, n + |a| + 1, tid, t.kids);
      var w3 := Play(w2, n + |a| + 1, c);
      LeaveAlone(w3, n + |a| + 1 + |c|, tid, t.exit);
      PlayCall(w, n, a, enter, c, leave);
      LabelParts(tid, forest, depth);
      assert Elapsed(w3.times, tid, t.exit) == if t.kids == [] then Wrap(t.exit - t.enter) else 0;
    } else {
      EmptyForest(w, n, tid);
    }
  }

  lemma PlayCall(w: World, n: nat, a: seq<Step>, enter: Step, c: seq<Step>, leave: Step)
    ensures var w2 := Do(Play(w, n, a), n + |a|, enter);
            Play(w, n, a + [enter] + c + [leave])
              == Do(Play(w2, n + |a| + 1, c), n + |a| + 1 + |c|, leave)
  {
    hide Do, Play;
    PlayOn(w, n, a + [enter] + c, [leave]);
    PlayOn(w, n, a + [enter], c);
    PlayOn(w, n, a, [enter]);
    PlayOne(Play(w, n, a), n + |a|, enter);
    PlayOne(Play(w, n, a + [enter] + c), n + |a| + 1 + |c|, leave);
  }

  lemma {:induction false} RingGrows(steps: seq<Step>, n: nat)
    requires n <= |steps|
    ensures Run(steps[..n]).ring <= Run(steps).ring
  {
    if n < |steps| {
      hide Run;
      RunStep(steps);
      assert steps[..|steps| - 1][..n] == steps[..n];
      RingGrows(steps[..|steps| - 1], n);
    } else {
      assert steps[..n] == steps;
    }
  }

  /** The whole story of a thread that is walking a forest of calls, among any other threads: what
      is read of it is the labelled walk of that forest as far as it has come; dropped events are
      missing from it and change nothing else. */
  lemma ThreadEventsAreItsWalk(steps: seq<Step>, tid: U32, forest: seq<Tree>)
    requires AlwaysFits(steps) && Height(forest) <= TWO_TO_THE_32
    requires AllKept(StepsOf(steps, tid)) <= Walk(tid, forest)
    ensures var events := Of(Run(steps).ring, tid);
            && Subsequence(events, Labels(tid, forest, 0))
            && (StepsOf(steps, tid) == AllKept(StepsOf(steps, tid)) ==> events <= Labels(tid, forest, 0))
            && (StepsOf(steps, tid) == Walk(tid, forest) ==> events == Labels(tid, forest, 0))
  {
    hide Run, Walk, Labels, Of, Do, Subsequence, AlwaysFits;
    var own, walk := StepsOf(steps, tid), Walk(tid, forest);
    OthersDoNotMatter(steps, tid);
    DropsOnlyOmit(own);
    assert walk[..|own|] == AllKept(own);
    RingGrows(walk, |own|);
    RunIsPlay(walk);
    var empty := World(map[], map[], map[], [], []);
    PlayForest(empty, 0, tid, forest);
    assert empty.ring + Labels(tid, forest, 0) == Labels(tid, forest, 0);
    SubsequenceExtends(Run(own).ring, Run(AllKept(own)).ring, Labels(tid, forest, 0));
  }
}
