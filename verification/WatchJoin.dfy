/** The user side of watch: exit events are joined with the cached entry of their thread. */
module WatchJoin {
  import opened BpfMaps
  import opened Words
  import opened Symbols
  import opened Params
  import opened Watch

  datatype EntryData = EntryData(args: Args, idx: nat, strVals: seq<string>)

  datatype WatchEvent = WatchEvent(timestamp: U64, duration: U64, funcName: string, params: seq<string>,
                                   retValue: string)

  // The last of the first n targets that starts at an address.
  function AddrIndex(targets: seq<FuncInfo>, slide: U64, n: nat): map<U64, nat>
    requires n <= |targets|
    ensures forall a :: a in AddrIndex(targets, slide, n) ==> AddrIndex(targets, slide, n)[a] < n
  {
    if n == 0 then map[]
    else AddrIndex(targets, slide, n - 1)[Wrap(targets[n - 1].address + slide) := n - 1]
  }

  /** Every probed address leads to the last target that starts there: to the target itself if no
      other one starts at its address. */
  lemma {:induction false} TargetsIndexed(targets: seq<FuncInfo>, slide: U64, n: nat, i: nat)
    requires i < n <= |targets|
    ensures var at, byAddr := Wrap(targets[i].address + slide), AddrIndex(targets, slide, n);
            && at in byAddr && i <= byAddr[at]
            && targets[byAddr[at]].address == targets[i].address
            && forall j :: byAddr[at] < j < n ==> targets[j].address != targets[i].address
  {
    hide Wrap;
    if targets[n - 1].address != targets[i].address {
      TargetsIndexed(targets, slide, n - 1, i);
      WrapApart(targets[n - 1].address, targets[i].address, slide);
    }
  }

  lemma WrapApart(a: U64, b: U64, slide: U64)
    requires a != b
    ensures Wrap(a + slide) != Wrap(b + slide)
  {
  }

  /** What a session knows before the first event. */
  datatype Setup = Setup(targets: seq<FuncInfo>, byAddr: map<U64, nat>, cap: nat) {
    ghost predicate Valid() {
      forall a :: a in byAddr ==> byAddr[a] < |targets|
    }
  }

  datatype Join = Join(cache: map<U32, EntryData>, events: seq<WatchEvent>)

  // What is cached about the entry of a function.
  function Entered(s: Setup, func: U64, args: Args, memory: U64 -> string): EntryData
    requires s.Valid() && func in s.byAddr
  {
    var fi := s.targets[s.byAddr[func]];
    EntryData(args, s.byAddr[func], StringsAhead(fi.paramTypes, args, fi.hasThis, memory))
  }

  function Shown(fi: FuncInfo, data: EntryData): seq<string> {
    FormattedParams(fi.paramTypes, data.args, fi.hasThis, data.strVals)
  }

  function Report(fi: FuncInfo, raw: RawEvent, params: seq<string>): WatchEvent {
    WatchEvent(raw.timestamp, raw.duration, fi.name, params, FormatParamVal(raw.retVal, fi.returnType))
  }

  // The event callback.
  function Joined(s: Setup, j: Join, raw: RawEvent, memory: U64 -> string): Join
    requires s.Valid()
  {
    if !raw.isExit then
      if raw.funcAddr !in s.byAddr then j
      else j.(cache := j.cache[raw.tid := Entered(s, raw.funcAddr, raw.args, memory)])
    else if |j.events| >= s.cap || raw.funcAddr !in s.byAddr then j
    else
      var fi := s.targets[s.byAddr[raw.funcAddr]];
      if raw.tid in j.cache && j.cache[raw.tid].idx == s.byAddr[raw.funcAddr]
      then Join(j.cache - {raw.tid}, j.events + [Report(fi, raw, Shown(fi, j.cache[raw.tid]))])
      else Join(j.cache, j.events + [Report(fi, raw, [])])
  }

  /** The join of a whole ring; memories(k): the strings of the target when event k is consumed. */
  function JoinAll(s: Setup, ring: seq<RawEvent>, memories: nat -> U64 -> string): Join
    requires s.Valid()
  {
    if ring == [] then Join(map[], [])
    else
      var n := |ring| - 1;
      Joined(s, JoinAll(s, ring[..n], memories), ring[n], memories(n))
  }

  // How many of the given number of events the first n polls deliver.
  function Delivered(total: nat, polls: seq<nat>, n: nat): (r: nat)
    requires n <= |polls|
    ensures r <= total
  {
    if n == 0 then 0
    else if Delivered(total, polls, n - 1) + polls[n - 1] <= total then Delivered(total, polls, n - 1) + polls[n - 1]
    else total
  }

  function Sum(polls: seq<nat>): nat {
    if polls == [] then 0 else Sum(polls[..|polls| - 1]) + polls[|polls| - 1]
  }

  // All there is, or what the polls ask for.
  lemma {:induction false} DeliveredIsSum(total: nat, polls: seq<nat>, n: nat)
    requires n <= |polls|
    ensures Delivered(total, polls, n) == if Sum(polls[..n]) <= total then Sum(polls[..n]) else total
  {
    if n > 0 {
      DeliveredIsSum(total, polls, n - 1);
      assert polls[..n][..n - 1] == polls[..n - 1];
    }
  }

  class WatchSession {
    const targets: seq<FuncInfo>
    const cap: nat
    var addrToIdx: map<U64, nat>
    var entryCache: map<U32, EntryData>
    var events: seq<WatchEvent>

    ghost function Settings(): Setup
      reads this
    {
      Setup(targets, addrToIdx, cap)
    }

    ghost function Value(): Join
      reads this
    {
      Join(entryCache, events)
    }

    constructor (targets: seq<FuncInfo>, slide: U64, cap: nat)
      ensures this.targets == targets && this.cap == cap
      ensures addrToIdx == AddrIndex(targets, slide, |targets|)
      ensures Settings().Valid() && Value() == Join(map[], [])
    {
      this.targets, this.cap := targets, cap;
      entryCache, events := map[], [];
      addrToIdx := map[];
      new;
      var i := 0;
      while i < |targets|
        invariant 0 <= i <= |targets|
        invariant addrToIdx == AddrIndex(targets, slide, i) && Value() == Join(map[], [])
      {
        addrToIdx := addrToIdx[Wrap(targets[i].address + slide) := i];
        i := i + 1;
      }
    }

    // The callback of the poll.
    method OnEvent(raw: RawEvent, memory: U64 -> string)
      requires Settings().Valid()
      modifies this`entryCache, this`events
      ensures Value() == Joined(Settings(), old(Value()), raw, memory)
    {
      if !raw.isExit {
        if raw.funcAddr !in addrToIdx {
          return;
        }
        var idx := addrToIdx[raw.funcAddr];
        var fi := targets[idx];
        var strVals := PrefetchStrings(fi.paramTypes, raw.args, fi.hasThis, memory);
        entryCache := entryCache[raw.tid := EntryData(raw.args, idx, strVals)];
        return;
      }
      if |events| >= cap || raw.funcAddr !in addrToIdx {
        return;
      }
      var idx := addrToIdx[raw.funcAddr];
      var fi := targets[idx];
      var params := [];
      if raw.tid in entryCache && entryCache[raw.tid].idx == idx {
        params := FormatParams(fi.paramTypes, entryCache[raw.tid].args, fi.hasThis, entryCache[raw.tid].strVals);
        entryCache := entryCache - {raw.tid};
      }
      events := events + [WatchEvent(raw.timestamp, raw.duration, fi.name, params,
                                     FormatParamVal(raw.retVal, fi.returnType))];
    }

    // One poll delivers the events from `next` up to `upTo`.
    method Poll(ring: seq<RawEvent>, next: nat, upTo: nat, memories: nat -> U64 -> string)
      requires Settings().Valid() && next <= upTo <= |ring|
      requires Value() == JoinAll(Settings(), ring[..next], memories)
      modifies this`entryCache, this`events
      ensures Value() == JoinAll(Settings(), ring[..upTo], memories)
    {
      var k := next;
      while k < upTo
        invariant next <= k <= upTo
        invariant Value() == JoinAll(Settings(), ring[..k], memories)
      {
        OnEvent(ring[k], memories(k));
        assert ring[..k + 1][..k] == ring[..k];
        k := k + 1;
      }
    }

    /** The poll loop. polls: how many events each poll delivers before the stop flag or the
        deadline ends the loop. */
    method Loop(ring: seq<RawEvent>, polls: seq<nat>, memories: nat -> U64 -> string) returns (next: nat)
      requires Settings().Valid() && Value() == Join(map[], [])
      modifies this`entryCache, this`events
      ensures next <= |ring| && Value() == JoinAll(Settings(), ring[..next], memories)
      ensures |events| <= cap
      ensures |events| < cap ==> next == if Sum(polls) <= |ring| then Sum(polls) else |ring|
    {
      next := 0;
      var turn := 0;
      while |events| < cap
        invariant next <= |ring| && turn <= |polls| && next == Delivered(|ring|, polls, turn)
        invariant Value() == JoinAll(Settings(), ring[..next], memories)
        decreases |polls| - turn
      {
        if turn == |polls| {
          break;
        }
        var upTo := if next + polls[turn] <= |ring| then next + polls[turn] else |ring|;
        Poll(ring, next, upTo, memories);
        next, turn := upTo, turn + 1;
      }
      DeliveredIsSum(|ring|, polls, turn);
      assert polls[..|polls|] == polls;
      AtMostCap(Settings(), ring[..next], memories);
    }
  }

  lemma {:induction false} AtMostCap(s: Setup, ring: seq<RawEvent>, memories: nat -> U64 -> string)
    requires s.Valid()
    ensures |JoinAll(s, ring, memories).events| <= s.cap
  {
    if ring != [] {
      AtMostCap(s, ring[..|ring| - 1], memories);
    }
  }

  // ----- what is reported -----

  // The positions of the exit events.
  function Exits(ring: seq<RawEvent>): (r: seq<nat>)
    ensures forall i :: 0 <= i < |r| ==> r[i] < |ring| && ring[r[i]].isExit
  {
    if ring == [] then []
    else
      var n := |ring| - 1;
      Exits(ring[..n]) + if ring[n].isExit then [n] else []
  }

  // The parameters of a call: none if another watched function was entered inside it.
  function OwnParams(s: Setup, call: Call, memories: nat -> U64 -> string): seq<string>
    requires s.Valid() && call.func in s.byAddr && call.slot.Some?
  {
    if call.nested then []
    else Shown(s.targets[s.byAddr[call.func]], Entered(s, call.func, call.args, memories(call.slot.value)))
  }

  /** What an entry of the function with these arguments shows: for each parameter, its own register. */
  ghost predicate ShowsEntry(s: Setup, func: U64, args: Args, memory: U64 -> string, params: seq<string>)
    requires s.Valid() && func in s.byAddr
  {
    var fi := s.targets[s.byAddr[func]];
    ShowsRegisters(fi.paramTypes, args, fi.hasThis, memory, params)
  }

  lemma EnteredShows(s: Setup, func: U64, args: Args, memory: U64 -> string)
    requires s.Valid() && func in s.byAddr
    ensures ShowsEntry(s, func, args, memory, Shown(s.targets[s.byAddr[func]], Entered(s, func, args, memory)))
  {
    var fi := s.targets[s.byAddr[func]];
    ShownThroughOwnRegister(fi.paramTypes, args, fi.hasThis, memory);
  }

  // What the exit of a call shows: its own entry, or nothing if another watched function was entered inside it.
  ghost predicate ShowsOwn(s: Setup, call: Call, memories: nat -> U64 -> string, params: seq<string>)
    requires s.Valid() && call.func in s.byAddr && call.slot.Some?
  {
    if call.nested then params == [] else ShowsEntry(s, call.func, call.args, memories(call.slot.value), params)
  }

  lemma OwnParamsShow(s: Setup, call: Call, memories: nat -> U64 -> string)
    requires s.Valid() && call.func in s.byAddr && call.slot.Some?
    ensures ShowsOwn(s, call, memories, OwnParams(s, call, memories))
  {
    hide ShowsEntry, Shown, Entered;
    EnteredShows(s, call.func, call.args, memories(call.slot.value));
  }

  // Probes stand at the targets only.
  ghost predicate Probed(s: Setup, steps: seq<Step>) {
    forall n :: 0 <= n < |steps| && steps[n].Enter? ==> steps[n].func in s.byAddr
  }

  // No event of the thread is dropped.
  ghost predicate NothingLost(steps: seq<Step>, tid: U32) {
    forall n :: 0 <= n < |steps| && steps[n].tid == tid ==> steps[n].room
  }

  // The open calls are of targets, and their entry events are in the ring.
  ghost predicate OfTargets(s: Setup, stack: seq<Call>) {
    forall i :: 0 <= i < |stack| ==> stack[i].func in s.byAddr
  }

  ghost predicate InRing(stack: seq<Call>) {
    forall i :: 0 <= i < |stack| ==> stack[i].slot.Some?
  }

  ghost predicate AllOfTargets(s: Setup, w: World) {
    && |w.cause| == |w.ring|
    && (forall tid: U32 :: OfTargets(s, StackOf(w, tid)))
    && (forall k :: 0 <= k < |w.ring| ==> w.ring[k].funcAddr == w.cause[k].func && w.cause[k].func in s.byAddr)
  }

  lemma TargetsStep(s: Setup, w: World, n: nat, step: Step)
    requires AllOfTargets(s, w) && (step.Enter? ==> step.func in s.byAddr)
    ensures AllOfTargets(s, Do(w, n, step))
  {
    hide MapUpdate;
    var w' := Do(w, n, step);
    forall tid: U32 ensures OfTargets(s, StackOf(w', tid)) {
      assert OfTargets(s, StackOf(w, tid));
    }
    assert OfTargets(s, StackOf(w, step.tid));
  }

  lemma {:induction false} OnlyTargets(s: Setup, steps: seq<Step>)
    requires Probed(s, steps)
    ensures AllOfTargets(s, Run(steps))
  {
    if steps != [] {
      hide AllOfTargets, Do;
      OnlyTargets(s, steps[..|steps| - 1]);
      TargetsStep(s, Run(steps[..|steps| - 1]), |steps| - 1, steps[|steps| - 1]);
    }
  }

  /** The first cap exits are reported, each once and in order, under the name of its function. */
  lemma {:induction false} ExitsReportedInOrder(s: Setup, ring: seq<RawEvent>, memories: nat -> U64 -> string)
    requires s.Valid() && forall k :: 0 <= k < |ring| ==> ring[k].funcAddr in s.byAddr
    ensures var events, exits := JoinAll(s, ring, memories).events, Exits(ring);
            && |events| == (if |exits| <= s.cap then |exits| else s.cap)
            && forall i :: 0 <= i < |events| ==>
                 events[i] == Report(s.targets[s.byAddr[ring[exits[i]].funcAddr]], ring[exits[i]], events[i].params)
  {
    if ring != [] {
      hide Report, Shown, Entered;
      var n := |ring| - 1;
      ExitsReportedInOrder(s, ring[..n], memories);
      assert forall k :: 0 <= k < n ==> ring[..n][k] == ring[k];
      ReportKeepsParams(s, ring[n]);
    }
  }

  lemma ReportKeepsParams(s: Setup, raw: RawEvent)
    requires s.Valid() && raw.funcAddr in s.byAddr
    ensures var fi := s.targets[s.byAddr[raw.funcAddr]]; forall p :: Report(fi, raw, p).params == p
  {
  }

  /** The cached entry of a thread is that of its innermost open call, and there is none if another
      call has been entered inside that one. */
  ghost predicate CacheIsTop(s: Setup, stack: seq<Call>, cache: map<U32, EntryData>, tid: U32,
                             memories: nat -> U64 -> string)
    requires s.Valid()
  {
    && OfTargets(s, stack) && InRing(stack)
    && (if stack != [] && !stack[|stack| - 1].nested
        then var top := stack[|stack| - 1];
             tid in cache && cache[tid] == Entered(s, top.func, top.args, memories(top.slot.value))
        else tid !in cache)
  }

  ghost predicate CacheFollows(s: Setup, w: World, tid: U32, memories: nat -> U64 -> string)
    requires s.Valid()
  {
    var j := JoinAll(s, w.ring, memories);
    |j.events| < s.cap ==> CacheIsTop(s, StackOf(w, tid), j.cache, tid, memories)
  }

  lemma JoinOne(s: Setup, ring: seq<RawEvent>, raw: RawEvent, memories: nat -> U64 -> string)
    requires s.Valid()
    ensures JoinAll(s, ring + [raw], memories) == Joined(s, JoinAll(s, ring, memories), raw, memories(|ring|))
  {
    assert (ring + [raw])[..|ring|] == ring;
  }

  // The cache entry of a thread depends on the events of that thread only.
  lemma JoinedOther(s: Setup, j: Join, raw: RawEvent, memory: U64 -> string, tid: U32)
    requires s.Valid() && raw.tid != tid
    ensures var j' := Joined(s, j, raw, memory);
            && |j.events| <= |j'.events|
            && (tid in j'.cache <==> tid in j.cache) && (tid in j.cache ==> j'.cache[tid] == j.cache[tid])
  {
    hide Entered, Shown, Report;
  }

  lemma JoinedEntry(s: Setup, j: Join, stack: seq<Call>, call: Call, raw: RawEvent, memories: nat -> U64 -> string)
    requires s.Valid() && OfTargets(s, stack) && InRing(stack)
    requires call.func in s.byAddr && call.slot.Some? && !call.nested
    requires !raw.isExit && raw.funcAddr == call.func && raw.args == call.args
    ensures var j' := Joined(s, j, raw, memories(call.slot.value));
            j'.events == j.events && CacheIsTop(s, MarkTop(stack) + [call], j'.cache, raw.tid, memories)
  {
    hide Entered;
  }

  lemma JoinedExit(s: Setup, j: Join, stack: seq<Call>, raw: RawEvent, memories: nat -> U64 -> string, k: nat)
    requires s.Valid() && stack != [] && InnerNestedOf(stack) && CacheIsTop(s, stack, j.cache, raw.tid, memories)
    requires raw.isExit && raw.funcAddr == stack[|stack| - 1].func && |j.events| < s.cap
    ensures raw.funcAddr in s.byAddr && stack[|stack| - 1].slot.Some?
    ensures var j' := Joined(s, j, raw, memories(k));
            && CacheIsTop(s, stack[..|stack| - 1], j'.cache, raw.tid, memories)
            && j'.events == j.events + [Report(s.targets[s.byAddr[raw.funcAddr]], raw,
                                               OwnParams(s, stack[|stack| - 1], memories))]
  {
    hide Report, FormattedParams, StringsAhead;
  }

  lemma CacheStep(s: Setup, w: World, n: nat, step: Step, tid: U32, memories: nat -> U64 -> string)
    requires s.Valid() && AllOfTargets(s, w) && InnerNestedOf(StackOf(w, tid)) && CacheFollows(s, w, tid, memories)
    requires step.Enter? ==> step.func in s.byAddr
    requires step.tid == tid ==> step.room
    ensures CacheFollows(s, Do(w, n, step), tid, memories)
  {
    hide JoinAll, Joined, CacheIsTop, MarkTop, InnerNestedOf;
    var w' := Do(w, n, step);
    var j, j' := JoinAll(s, w.ring, memories), JoinAll(s, w'.ring, memories);
    if w'.ring == w.ring {
      assert StackOf(w', tid) == StackOf(w, tid);
    } else {
      var raw := w'.ring[|w.ring|];
      assert w'.ring == w.ring + [raw];
      JoinOne(s, w.ring, raw, memories);
      JoinedEvents(s, j, raw, memories(|w.ring|));
      if |j.events| >= s.cap {
        assert |j'.events| >= s.cap;
      } else if tid != step.tid {
        JoinedOther(s, j, raw, memories(|w.ring|), tid);
        SameCacheIsTop(s, StackOf(w, tid), j.cache, j'.cache, tid, memories);
      } else {
        if step.Enter? {
          var call := w'.cause[|w.ring|];
          TopIsInRing(s, StackOf(w, tid), j.cache, tid, memories);
          JoinedEntry(s, j, StackOf(w, tid), call, raw, memories);
        } else {
          JoinedExit(s, j, StackOf(w, tid), raw, memories, |w.ring|);
        }
      }
    }
  }

  lemma TopIsInRing(s: Setup, stack: seq<Call>, cache: map<U32, EntryData>, tid: U32,
                    memories: nat -> U64 -> string)
    requires s.Valid() && CacheIsTop(s, stack, cache, tid, memories)
    ensures OfTargets(s, stack) && InRing(stack)
  {
  }

  lemma JoinedEvents(s: Setup, j: Join, raw: RawEvent, memory: U64 -> string)
    requires s.Valid()
    ensures j.events <= Joined(s, j, raw, memory).events
  {
    hide Entered, Shown, Report;
  }

  lemma SameCacheIsTop(s: Setup, stack: seq<Call>, cache: map<U32, EntryData>, cache': map<U32, EntryData>,
                       tid: U32, memories: nat -> U64 -> string)
    requires s.Valid() && CacheIsTop(s, stack, cache, tid, memories)
    requires (tid in cache' <==> tid in cache) && (tid in cache ==> cache'[tid] == cache[tid])
    ensures CacheIsTop(s, stack, cache', tid, memories)
  {
    hide Entered;
  }

  lemma {:induction false} CacheFollowsCalls(s: Setup, steps: seq<Step>, tid: U32, memories: nat -> U64 -> string)
    requires s.Valid() && Probed(s, steps) && NothingLost(steps, tid)
    ensures CacheFollows(s, Run(steps), tid, memories)
  {
    if steps != [] {
      hide CacheFollows, Do, AllOfTargets, InnerNestedOf;
      var before := steps[..|steps| - 1];
      CacheFollowsCalls(s, before, tid, memories);
      OnlyTargets(s, before);
      DurationsAreOwn(before);
      assert InnerNestedOf(StackOf(Run(before), tid));
      CacheStep(s, Run(before), |steps| - 1, steps[|steps| - 1], tid, memories);
    }
  }

  lemma ExitsOne(ring: seq<RawEvent>, raw: RawEvent)
    ensures Exits(ring + [raw]) == Exits(ring) + if raw.isExit then [|ring|] else []
  {
    assert (ring + [raw])[..|ring|] == ring;
  }

  lemma RingIsTargets(s: Setup, steps: seq<Step>, memories: nat -> U64 -> string)
    requires s.Valid() && Probed(s, steps)
    ensures var w := Run(steps);
            && (forall k :: 0 <= k < |w.ring| ==> w.ring[k].funcAddr in s.byAddr)
            && var events, exits := JoinAll(s, w.ring, memories).events, Exits(w.ring);
               |events| == if |exits| <= s.cap then |exits| else s.cap
  {
    hide Run, JoinAll, Exits;
    OnlyTargets(s, steps);
    ExitsReportedInOrder(s, Run(steps).ring, memories);
  }

  // ----- exactly when parameters are the call's own or none, whatever is lost -----

  predicate IsEntryOf(s: Setup, raw: RawEvent, tid: U32) {
    raw.tid == tid && !raw.isExit && raw.funcAddr in s.byAddr
  }

  predicate IsExitOf(s: Setup, raw: RawEvent, tid: U32, idx: nat) {
    raw.tid == tid && raw.isExit && raw.funcAddr in s.byAddr && s.byAddr[raw.funcAddr] == idx
  }

  /** The last entry event of the thread stands at j, and no exit event of its target behind it. */
  ghost predicate Live(s: Setup, ring: seq<RawEvent>, tid: U32, j: nat): (live: bool)
    ensures live ==> j < |ring| && ring[j].funcAddr in s.byAddr
  {
    && j < |ring| && IsEntryOf(s, ring[j], tid)
    && forall m :: j < m < |ring| ==>
         !IsEntryOf(s, ring[m], tid) && !IsExitOf(s, ring[m], tid, s.byAddr[ring[j].funcAddr])
  }

  // What the entry event at j leaves in the cache.
  function EntryAt(s: Setup, ring: seq<RawEvent>, j: nat, memories: nat -> U64 -> string): EntryData
    requires s.Valid() && j < |ring| && ring[j].funcAddr in s.byAddr
  {
    Entered(s, ring[j].funcAddr, ring[j].args, memories(j))
  }

  ghost predicate CacheIsLive(s: Setup, ring: seq<RawEvent>, cache: map<U32, EntryData>, tid: U32,
                              memories: nat -> U64 -> string)
    requires s.Valid()
  {
    if tid in cache then exists j: nat :: Live(s, ring, tid, j) && cache[tid] == EntryAt(s, ring, j, memories)
    else forall j: nat :: !Live(s, ring, tid, j)
  }

  lemma LiveIsUnique(s: Setup, ring: seq<RawEvent>, tid: U32, i: nat, j: nat)
    requires Live(s, ring, tid, i) && Live(s, ring, tid, j)
    ensures i == j
  {
    hide IsEntryOf, IsExitOf;
  }

  // One more event.
  lemma LiveOneMore(s: Setup, ring: seq<RawEvent>, raw: RawEvent, tid: U32, j: nat)
    ensures Live(s, ring + [raw], tid, j) <==>
            if j == |ring| then IsEntryOf(s, raw, tid)
            else Live(s, ring, tid, j) && !IsEntryOf(s, raw, tid) && !IsExitOf(s, raw, tid, s.byAddr[ring[j].funcAddr])
  {
    hide IsExitOf;
    var more := ring + [raw];
    assert forall m :: 0 <= m < |ring| ==> more[m] == ring[m];
    assert more[|ring|] == raw;
  }

  // What one event does to the cache entry of a thread.
  lemma JoinedCache(s: Setup, j: Join, raw: RawEvent, memory: U64 -> string, tid: U32)
    requires s.Valid() && |j.events| < s.cap
    ensures var cache := Joined(s, j, raw, memory).cache;
            if IsEntryOf(s, raw, tid) then tid in cache && cache[tid] == Entered(s, raw.funcAddr, raw.args, memory)
            else if tid in j.cache && IsExitOf(s, raw, tid, j.cache[tid].idx) then tid !in cache
            else (tid in cache <==> tid in j.cache) && (tid in cache ==> cache[tid] == j.cache[tid])
  {
    hide Entered, Shown, Report;
  }

  lemma EntryAtSays(s: Setup, ring: seq<RawEvent>, more: seq<RawEvent>, j: nat, memories: nat -> U64 -> string)
    requires s.Valid() && j < |ring| && ring <= more && ring[j].funcAddr in s.byAddr
    ensures EntryAt(s, ring, j, memories).idx == s.byAddr[ring[j].funcAddr]
    ensures more[j] == ring[j] && EntryAt(s, more, j, memories) == EntryAt(s, ring, j, memories)
  {
  }

  lemma CacheIsLiveStep(s: Setup, ring: seq<RawEvent>, raw: RawEvent, tid: U32, memories: nat -> U64 -> string)
    requires s.Valid() && |JoinAll(s, ring, memories).events| < s.cap
    requires CacheIsLive(s, ring, JoinAll(s, ring, memories).cache, tid, memories)
    ensures CacheIsLive(s, ring + [raw], JoinAll(s, ring + [raw], memories).cache, tid, memories)
  {
    hide JoinAll, Joined, Live, EntryAt, IsExitOf, Entered;
    var j, more, n := JoinAll(s, ring, memories), ring + [raw], |ring|;
    JoinOne(s, ring, raw, memories);
    JoinedCache(s, j, raw, memories(n), tid);
    forall i: nat
      ensures Live(s, more, tid, i) <==>
              if i == n then IsEntryOf(s, raw, tid)
              else
                && Live(s, ring, tid, i) && !IsEntryOf(s, raw, tid)
                && !IsExitOf(s, raw, tid, s.byAddr[ring[i].funcAddr])
    {
      LiveOneMore(s, ring, raw, tid, i);
    }
    if IsEntryOf(s, raw, tid) {
      NewEntryAt(s, ring, raw, memories);
    } else if tid in j.cache {
      var i: nat :| Live(s, ring, tid, i) && j.cache[tid] == EntryAt(s, ring, i, memories);
      EntryAtSays(s, ring, more, i, memories);
      forall i': nat | Live(s, ring, tid, i') ensures i' == i {
        LiveIsUnique(s, ring, tid, i, i');
      }
    }
  }

  lemma NewEntryAt(s: Setup, ring: seq<RawEvent>, raw: RawEvent, memories: nat -> U64 -> string)
    requires s.Valid() && raw.funcAddr in s.byAddr
    ensures (ring + [raw])[|ring|] == raw
    ensures EntryAt(s, ring + [raw], |ring|, memories) == Entered(s, raw.funcAddr, raw.args, memories(|ring|))
  {
  }

  /** Whatever is lost, the cached entry of a thread is that of its last entry event, until an exit of
      the same target takes it. */
  lemma {:induction false} CacheIsLastEntry(s: Setup, ring: seq<RawEvent>, tid: U32, memories: nat -> U64 -> string)
    requires s.Valid() && |JoinAll(s, ring, memories).events| < s.cap
    ensures CacheIsLive(s, ring, JoinAll(s, ring, memories).cache, tid, memories)
  {
    if ring != [] {
      hide CacheIsLive, Joined;
      var n := |ring| - 1;
      assert ring == ring[..n] + [ring[n]];
      JoinOne(s, ring[..n], ring[n], memories);
      JoinedEvents(s, JoinAll(s, ring[..n], memories), ring[n], memories(n));
      CacheIsLastEntry(s, ring[..n], tid, memories);
      CacheIsLiveStep(s, ring[..n], ring[n], tid, memories);
    }
  }

  // The exit event at k is joined with the entry event at j.
  ghost predicate JoinedWith(s: Setup, ring: seq<RawEvent>, k: nat, j: nat) {
    && k < |ring| && ring[k].funcAddr in s.byAddr
    && Live(s, ring[..k], ring[k].tid, j)
    && s.byAddr[ring[j].funcAddr] == s.byAddr[ring[k].funcAddr]
  }

  // The parameters that the entry event at j yields.
  function ParamsFrom(s: Setup, ring: seq<RawEvent>, j: nat, memories: nat -> U64 -> string): seq<string>
    requires s.Valid() && j < |ring| && ring[j].funcAddr in s.byAddr
  {
    Shown(s.targets[s.byAddr[ring[j].funcAddr]], EntryAt(s, ring, j, memories))
  }

  lemma JoinedExitShows(s: Setup, j: Join, raw: RawEvent, memory: U64 -> string)
    requires s.Valid() && |j.events| < s.cap && raw.isExit && raw.funcAddr in s.byAddr
    ensures var events, idx := Joined(s, j, raw, memory).events, s.byAddr[raw.funcAddr];
            && |events| == |j.events| + 1
            && events[|j.events|].params == if raw.tid in j.cache && j.cache[raw.tid].idx == idx
                                            then Shown(s.targets[idx], j.cache[raw.tid]) else []
  {
    hide Shown;
  }

  // The exit event that ends the ring.
  lemma ExitShows(s: Setup, ring: seq<RawEvent>, memories: nat -> U64 -> string)
    requires s.Valid() && ring != []
    requires var k := |ring| - 1;
             ring[k].isExit && ring[k].funcAddr in s.byAddr && |JoinAll(s, ring[..k], memories).events| < s.cap
    ensures var k := |ring| - 1;
            var n, events := |JoinAll(s, ring[..k], memories).events|, JoinAll(s, ring, memories).events;
            && |events| == n + 1
            && (forall j: nat :: JoinedWith(s, ring, k, j) ==>
                  j < k && ring[j].funcAddr in s.byAddr && events[n].params == ParamsFrom(s, ring, j, memories))
            && ((forall j: nat :: !JoinedWith(s, ring, k, j)) ==> events[n].params == [])
  {
    hide JoinAll, Joined, Live, EntryAt, Shown;
    var k := |ring| - 1;
    var raw, before := ring[k], ring[..k];
    var join := JoinAll(s, before, memories);
    assert ring == before + [raw];
    JoinOne(s, before, raw, memories);
    JoinedExitShows(s, join, raw, memories(k));
    CacheIsLastEntry(s, before, raw.tid, memories);
    if raw.tid in join.cache {
      var j: nat :| Live(s, before, raw.tid, j) && join.cache[raw.tid] == EntryAt(s, before, j, memories);
      EntryAtSays(s, before, ring, j, memories);
      forall i: nat | Live(s, before, raw.tid, i) ensures i == j {
        LiveIsUnique(s, before, raw.tid, i, j);
      }
      assert JoinedWith(s, ring, k, j) <==> join.cache[raw.tid].idx == s.byAddr[raw.funcAddr];
    }
  }

  // The i-th report shows what the exit it is about is joined with.
  ghost predicate ShowsJoined(s: Setup, ring: seq<RawEvent>, i: nat, memories: nat -> U64 -> string)
    requires s.Valid()
  {
    var events := JoinAll(s, ring, memories).events;
    && i < |events| && i < |Exits(ring)|
    && var k := Exits(ring)[i];
       && (forall j: nat :: JoinedWith(s, ring, k, j) ==>
             j < k && ring[j].funcAddr in s.byAddr && events[i].params == ParamsFrom(s, ring, j, memories))
       && ((forall j: nat :: !JoinedWith(s, ring, k, j)) ==> events[i].params == [])
  }

  lemma JoinedWithLater(s: Setup, ring: seq<RawEvent>, raw: RawEvent, k: nat, j: nat)
    requires k < |ring|
    ensures JoinedWith(s, ring + [raw], k, j) <==> JoinedWith(s, ring, k, j)
  {
    hide Live;
    assert (ring + [raw])[..k] == ring[..k];
  }

  lemma ShowsJoinedLater(s: Setup, ring: seq<RawEvent>, raw: RawEvent, i: nat, memories: nat -> U64 -> string)
    requires s.Valid() && ShowsJoined(s, ring, i, memories)
    ensures ShowsJoined(s, ring + [raw], i, memories)
  {
    hide JoinAll, Joined, Exits, JoinedWith, EntryAt, Shown;
    JoinOne(s, ring, raw, memories);
    JoinedEvents(s, JoinAll(s, ring, memories), raw, memories(|ring|));
    ExitsOne(ring, raw);
    var k := Exits(ring)[i];
    forall j: nat
      ensures JoinedWith(s, ring + [raw], k, j) <==> JoinedWith(s, ring, k, j)
      ensures j < k && ring[j].funcAddr in s.byAddr ==>
                && (ring + [raw])[j] == ring[j]
                && ParamsFrom(s, ring + [raw], j, memories) == ParamsFrom(s, ring, j, memories)
    {
      JoinedWithLater(s, ring, raw, k, j);
      if j < k && ring[j].funcAddr in s.byAddr {
        EntryAtSays(s, ring, ring + [raw], j, memories);
      }
    }
  }

  /** Whatever is lost: each reported exit shows the parameters of the last entry event of its thread
      if no exit of the same target stands between them, and none otherwise. */
  lemma {:induction false} EachReportShowsLastEntry(s: Setup, ring: seq<RawEvent>, i: nat,
                                                    memories: nat -> U64 -> string)
    requires s.Valid() && forall k :: 0 <= k < |ring| ==> ring[k].funcAddr in s.byAddr
    requires i < |JoinAll(s, ring, memories).events|
    ensures ShowsJoined(s, ring, i, memories)
    ensures forall j: nat :: JoinedWith(s, ring, Exits(ring)[i], j) ==>
              && j < |ring| && ring[j].funcAddr in s.byAddr
              && ShowsEntry(s, ring[j].funcAddr, ring[j].args, memories(j), JoinAll(s, ring, memories).events[i].params)
  {
    hide JoinAll, Joined, Exits, JoinedWith, ParamsFrom, Report, ShowsEntry;
    ExitsReportedInOrder(s, ring, memories);
    if ring != [] {
      var n := |ring| - 1;
      var before, raw := ring[..n], ring[n];
      assert ring == before + [raw];
      ExitsReportedInOrder(s, before, memories);
      ExitsOne(before, raw);
      if i < |JoinAll(s, before, memories).events| {
        EachReportShowsLastEntry(s, before, i, memories);
        ShowsJoinedLater(s, before, raw, i, memories);
      } else {
        ExitShows(s, ring, memories);
      }
    } else {
      NothingJoined(s, memories);
    }
    forall j: nat | JoinedWith(s, ring, Exits(ring)[i], j)
      ensures ShowsEntry(s, ring[j].funcAddr, ring[j].args, memories(j), JoinAll(s, ring, memories).events[i].params)
    {
      ParamsFromShow(s, ring, j, memories);
    }
  }

  lemma ParamsFromShow(s: Setup, ring: seq<RawEvent>, j: nat, memories: nat -> U64 -> string)
    requires s.Valid() && j < |ring| && ring[j].funcAddr in s.byAddr
    ensures ShowsEntry(s, ring[j].funcAddr, ring[j].args, memories(j), ParamsFrom(s, ring, j, memories))
  {
    hide ShowsEntry, Shown, Entered;
    EnteredShows(s, ring[j].funcAddr, ring[j].args, memories(j));
  }

  lemma NothingJoined(s: Setup, memories: nat -> U64 -> string)
    requires s.Valid()
    ensures JoinAll(s, [], memories).events == []
  {
  }

  // ----- which entry an exit is joined with, in terms of the run -----

  // The function that the event of a step is about.
  function FuncAt(steps: seq<Step>, n: nat): U64
    requires n < |steps| && Writes(steps, n)
  {
    if steps[n].Enter? then steps[n].func
    else
      var stack := StackOf(Run(steps[..n]), steps[n].tid);
      stack[|stack| - 1].func
  }

  ghost predicate SameTarget(s: Setup, f: U64, g: U64) {
    f in s.byAddr && g in s.byAddr && s.byAddr[f] == s.byAddr[g]
  }

  // Step m writes an event that takes the place of the entry event of step e, or takes it.
  ghost predicate Supersedes(s: Setup, steps: seq<Step>, e: nat, m: nat)
    requires e < |steps| && Writes(steps, e)
  {
    && m < |steps| && Writes(steps, m) && steps[m].tid == steps[e].tid
    && (steps[m].Enter? || SameTarget(s, FuncAt(steps, m), FuncAt(steps, e)))
  }

  /** The exit event of step n is joined with the entry event of step e: that is the last one of the thread
      that was not dropped, it is of the same target, and no exit event of the target has taken it. */
  ghost predicate JoinsEntry(s: Setup, steps: seq<Step>, n: nat, e: nat)
    requires n < |steps| && Writes(steps, n)
  {
    && e < n && steps[e].Enter? && Writes(steps, e) && steps[e].tid == steps[n].tid
    && SameTarget(s, FuncAt(steps, e), FuncAt(steps, n))
    && forall m :: e < m < n ==> !Supersedes(s, steps, e, m)
  }

  lemma EventSays(s: Setup, steps: seq<Step>, k: nat)
    requires Probed(s, steps) && k < |Run(steps).ring|
    ensures var raw, n := Run(steps).ring[k], WriterOf(steps, k);
            && Writes(steps, n) && raw.tid == steps[n].tid && raw.isExit == steps[n].Leave?
            && raw.funcAddr == FuncAt(steps, n) && raw.funcAddr in s.byAddr
  {
    hide Run, WriterOf;
    WriterWrites(steps, k);
    EventsAreAboutCalls(steps, k);
    OnlyTargets(s, steps);
  }

  lemma JoinedWithExactly(s: Setup, steps: seq<Step>, k: nat, j: nat)
    requires Probed(s, steps) && k < |Run(steps).ring| && j < k
    ensures Writes(steps, WriterOf(steps, k))
    ensures JoinedWith(s, Run(steps).ring, k, j) <==> JoinsEntry(s, steps, WriterOf(steps, k), WriterOf(steps, j))
  {
    hide Run, WriterOf, Writes, FuncAt, Probed;
    var ring, n, e := Run(steps).ring, WriterOf(steps, k), WriterOf(steps, j);
    EventSays(s, steps, k);
    EventSays(s, steps, j);
    WritersInOrder(steps, j, k);
    WriterWrites(steps, j);
    WriterWrites(steps, k);
    if JoinedWith(s, ring, k, j) {
      forall m | e < m < n ensures !Supersedes(s, steps, e, m) {
        if Writes(steps, m) {
          var q := WrittenBefore(steps, m);
          EventsInOrder(steps, e, m);
          EventsInOrder(steps, m, n);
          WriterIsUnique(steps, m);
          EventSays(s, steps, q);
          assert ring[..k][q] == ring[q];
        }
      }
    }
    if JoinsEntry(s, steps, n, e) {
      forall q | j < q < k
        ensures !IsEntryOf(s, ring[q], ring[k].tid) && !IsExitOf(s, ring[q], ring[k].tid, s.byAddr[ring[j].funcAddr])
      {
        WritersInOrder(steps, j, q);
        WritersInOrder(steps, q, k);
        EventSays(s, steps, q);
        assert !Supersedes(s, steps, e, WriterOf(steps, q));
      }
    }
  }

  // No event of the thread is dropped in the steps from number `from` on and before `upTo`.
  ghost predicate NothingLostIn(steps: seq<Step>, tid: U32, from: nat, upTo: nat) {
    forall m :: from <= m < upTo && m < |steps| && steps[m].tid == tid ==> steps[m].room
  }

  // What is known of the return of a call at step n.
  ghost predicate ReturnOf(s: Setup, steps: seq<Step>, n: nat, call: Call) {
    && n < |steps| && steps[n].Leave? && Writes(steps, n)
    && (var stack := StackOf(Run(steps[..n]), steps[n].tid); stack[|stack| - 1] == call)
    && IsOpenCall(steps[..n], steps[n].tid, call)
  }

  // An entry before the call is superseded by the call's own one, an inner one by its return.
  lemma OthersSuperseded(s: Setup, steps: seq<Step>, n: nat, call: Call, e: nat)
    requires Probed(s, steps) && ReturnOf(s, steps, n, call) && NothingLostIn(steps, steps[n].tid, call.born, n)
    requires e < n && e != call.born && steps[e].Enter? && Writes(steps, e) && steps[e].tid == steps[n].tid
    ensures exists m :: e < m < n && Supersedes(s, steps, e, m)
  {
    hide Run;
    var before, tid, b := steps[..n], steps[n].tid, call.born;
    var stack := StackOf(Run(before), tid);
    if e < b {
      assert Supersedes(s, steps, e, b);
    } else {
      CallIsHeld(before, tid, |stack| - 1);
      OpenOrReturned(before, tid, e);
      if i :| 0 <= i < |stack| && stack[i].born == e {
        CallIsHeld(before, tid, i);
      } else {
        var m: nat :| e < m && LeavesFunc(before, tid, before[e].func, m);
        assert before[..m] == steps[..m];
        assert Supersedes(s, steps, e, m);
      }
    }
  }

  /** If nothing of the thread is lost while the call is open, its exit is joined with its own entry unless
      another call was entered inside, and with none then. */
  lemma JoinsOwnUnlessNested(s: Setup, steps: seq<Step>, n: nat, call: Call, e: nat)
    requires Probed(s, steps) && ReturnOf(s, steps, n, call) && NothingLostIn(steps, steps[n].tid, call.born, n)
    ensures JoinsEntry(s, steps, n, e) <==> e == call.born && !call.nested
  {
    hide Run, Held;
    var before, tid, b := steps[..n], steps[n].tid, call.born;
    if e == b {
      if call.nested {
        var m: nat :| b < m < n && before[m].Enter? && before[m].tid == tid;
        assert Supersedes(s, steps, e, m);
      } else {
        CallIsHeld(before, tid, |StackOf(Run(before), tid)| - 1);
        forall m | b < m < n ensures !Supersedes(s, steps, b, m) {
          NextIsReturn(before, tid, b, |StackOf(Run(before), tid)| - 1, m);
        }
      }
    } else if JoinsEntry(s, steps, n, e) {
      OthersSuperseded(s, steps, n, call, e);
    }
  }

  lemma ExitIsReturn(s: Setup, steps: seq<Step>, k: nat)
    requires Probed(s, steps) && k < |Run(steps).ring| && Run(steps).ring[k].isExit
    ensures var w, n := Run(steps), WriterOf(steps, k);
            && |w.cause| == |w.ring| && ReturnOf(s, steps, n, w.cause[k]) && w.ring[k].tid == steps[n].tid
            && WrittenBefore(steps, n) == k
  {
    hide Run, WriterOf, IsOpenCall;
    EventsAreAboutCalls(steps, k);
    WriterWrites(steps, k);
  }

  // The entry event of a call is the one that the step of its entry has written.
  lemma OwnSlot(s: Setup, steps: seq<Step>, n: nat, call: Call, j: nat)
    requires ReturnOf(s, steps, n, call) && j < |Run(steps).ring|
    ensures call.slot == Some(j) <==> WriterOf(steps, j) == call.born
    ensures call.slot == Some(j) ==> j < WrittenBefore(steps, n)
  {
    hide Run, WriterOf;
    assert steps[..n][..call.born] == steps[..call.born];
    assert steps[..n][call.born] == steps[call.born];
    WriterWrites(steps, j);
    if call.slot == Some(j) {
      WriterIsUnique(steps, call.born);
      EventsInOrder(steps, call.born, n);
    }
  }

  // What the exit event at k is joined with, by events and by steps.
  lemma JoinedByStep(s: Setup, steps: seq<Step>, k: nat, j: nat)
    requires Probed(s, steps) && k < |Run(steps).ring| && Run(steps).ring[k].isExit && j < |Run(steps).ring|
    ensures |Run(steps).cause| == |Run(steps).ring|
    ensures var ring, call, n := Run(steps).ring, Run(steps).cause[k], WriterOf(steps, k);
            && Writes(steps, n)
            && (JoinedWith(s, ring, k, j) <==> JoinsEntry(s, steps, n, WriterOf(steps, j)))
            && (call.slot == Some(j) <==> WriterOf(steps, j) == call.born)
  {
    hide Run, WriterOf, Writes, Live, Supersedes, Probed, IsOpenCall;
    ExitIsReturn(s, steps, k);
    OwnSlot(s, steps, WriterOf(steps, k), Run(steps).cause[k], j);
    if j < k {
      JoinedWithExactly(s, steps, k, j);
    } else {
      LiveIsEarlier(s, Run(steps).ring[..k], Run(steps).ring[k].tid, j);
      if j > k {
        WritersInOrder(steps, k, j);
      }
    }
  }

  lemma LiveIsEarlier(s: Setup, ring: seq<RawEvent>, tid: U32, j: nat)
    ensures Live(s, ring, tid, j) ==> j < |ring|
  {
  }

  /** Which entry an exit event is joined with, exactly: its own one or none if and only if that holds in
      terms of the run; it does if nothing of the thread is lost while the call is open. */
  lemma OwnEntryOrNone(s: Setup, steps: seq<Step>, k: nat)
    requires Probed(s, steps) && k < |Run(steps).ring| && Run(steps).ring[k].isExit
    ensures |Run(steps).cause| == |Run(steps).ring|
    ensures var ring, call, n := Run(steps).ring, Run(steps).cause[k], WriterOf(steps, k);
            && ReturnOf(s, steps, n, call) && ring[k].tid == steps[n].tid
            && ((forall j: nat :: JoinedWith(s, ring, k, j) ==> call.slot == Some(j)) <==>
                (forall e: nat :: JoinsEntry(s, steps, n, e) ==> e == call.born))
            && (NothingLostIn(steps, steps[n].tid, call.born, n) ==>
                  && call.slot.Some?
                  && forall j: nat :: JoinedWith(s, ring, k, j) <==> call.slot == Some(j) && !call.nested)
  {
    hide Run, WriterOf, Live, Supersedes, Probed;
    var ring, n := Run(steps).ring, WriterOf(steps, k);
    ExitIsReturn(s, steps, k);
    var call := Run(steps).cause[k];
    forall j: nat | j < |ring|
      ensures JoinedWith(s, ring, k, j) <==> JoinsEntry(s, steps, n, WriterOf(steps, j))
      ensures call.slot == Some(j) <==> WriterOf(steps, j) == call.born
    {
      JoinedByStep(s, steps, k, j);
    }
    forall j: nat ensures JoinedWith(s, ring, k, j) || call.slot == Some(j) ==> j < |ring| {
      LiveIsEarlier(s, ring[..k], ring[k].tid, j);
      SlotInRing(s, steps, n, call);
    }
    forall e: nat | JoinsEntry(s, steps, n, e)
      ensures WrittenBefore(steps, e) < |ring| && WriterOf(steps, WrittenBefore(steps, e)) == e
    {
      WriterIsUnique(steps, e);
    }
    if NothingLostIn(steps, steps[n].tid, call.born, n) {
      forall e: nat ensures JoinsEntry(s, steps, n, e) <==> e == call.born && !call.nested {
        JoinsOwnUnlessNested(s, steps, n, call, e);
      }
      assert steps[..n][call.born] == steps[call.born];
    }
  }

  lemma SlotInRing(s: Setup, steps: seq<Step>, n: nat, call: Call)
    requires ReturnOf(s, steps, n, call)
    ensures call.slot.Some? ==> call.slot.value < |Run(steps).ring|
  {
    hide Run, WriterOf;
    assert steps[..n][..call.born] == steps[..call.born];
    assert steps[..n][call.born] == steps[call.born];
    if call.slot.Some? {
      WriterIsUnique(steps, call.born);
    }
  }

  ghost predicate Attributed(s: Setup, w: World, i: nat, memories: nat -> U64 -> string)
    requires s.Valid()
  {
    var events := JoinAll(s, w.ring, memories).events;
    && i < |events| && i < |Exits(w.ring)| && |w.cause| == |w.ring|
    && var call := w.cause[Exits(w.ring)[i]];
       && call.func in s.byAddr && call.slot.Some? && events[i].params == OwnParams(s, call, memories)
       && ShowsOwn(s, call, memories, events[i].params)
  }

  /** Attribution: if no event of its thread is dropped while a call is open, its exit is reported with the
      arguments of its own entry, read through its own registers when that entry was consumed, or with none
      if another watched call was entered inside it. What is lost before, after or of other threads does
      not matter. */
  lemma ParamsAreOwn(s: Setup, steps: seq<Step>, i: nat, memories: nat -> U64 -> string)
    requires s.Valid() && Probed(s, steps)
    requires var w := Run(steps);
             && i < |JoinAll(s, w.ring, memories).events| && i < |Exits(w.ring)| && |w.cause| == |w.ring|
             && var k := Exits(w.ring)[i];
                NothingLostIn(steps, w.ring[k].tid, w.cause[k].born, WriterOf(steps, k))
    ensures Attributed(s, Run(steps), i, memories)
  {
    hide Run, JoinAll, Exits, JoinedWith, JoinsEntry, Probed, ReturnOf, WriterOf, Shown, Entered, ShowsOwn;
    var w := Run(steps);
    var k := Exits(w.ring)[i];
    RingIsTargets(s, steps, memories);
    OnlyTargets(s, steps);
    EachReportShowsLastEntry(s, w.ring, i, memories);
    OwnEntryOrNone(s, steps, k);
    EntriesInRing(steps);
    if w.cause[k].slot.Some? {
      OwnParamsShow(s, w.cause[k], memories);
    }
    assert SlotIsEntry(w, w.ring[k].tid, w.cause[k]);
  }

  /** ev reports the return of call at step n, where call was the innermost open call of its thread:
      its name, time stamps and return value, and its duration or 0. */
  ghost predicate IsReportOf(s: Setup, steps: seq<Step>, ev: WatchEvent, call: Call, n: nat)
    requires s.Valid()
  {
    && n < |steps| && steps[n].Leave? && call.func in s.byAddr
    && (var stack := StackOf(Run(steps[..n]), steps[n].tid); stack != [] && stack[|stack| - 1] == call)
    && IsOpenCall(steps[..n], steps[n].tid, call)
    && (var fi := s.targets[s.byAddr[call.func]];
        ev.funcName == fi.name && ev.retValue == FormatParamVal(steps[n].ret, fi.returnType))
    && ev.timestamp == steps[n].now
    && ev.duration == if call.stamped && !call.nested then Wrap(steps[n].now - call.entered) else 0
  }

  // The parameters are those of the call, and its entry event stands in the ring at its slot.
  ghost predicate ShowsOwnParams(s: Setup, steps: seq<Step>, ev: WatchEvent, call: Call, tid: U32,
                                 memories: nat -> U64 -> string)
    requires s.Valid()
  {
    && call.func in s.byAddr && call.slot.Some?
    && SlotIsEntry(Run(steps), tid, call) && call.born < |steps| && steps[call.born].Enter?
    && if call.nested then ev.params == []
       else ShowsEntry(s, call.func, steps[call.born].args, memories(call.slot.value), ev.params)
  }

  /** Every event that watch has reported after consuming any part of the ring is about one
      activation of a target, and shows its own arguments or none if nothing of its thread is lost while it
      is open. */
  lemma EveryReportIsAnActivation(s: Setup, steps: seq<Step>, upTo: nat, i: nat, memories: nat -> U64 -> string)
    returns (call: Call, n: nat)
    requires s.Valid() && Probed(s, steps) && upTo <= |Run(steps).ring|
    requires i < |JoinAll(s, Run(steps).ring[..upTo], memories).events|
    ensures var ev := JoinAll(s, Run(steps).ring[..upTo], memories).events[i];
            && IsReportOf(s, steps, ev, call, n)
            && (NothingLostIn(steps, steps[n].tid, call.born, n) ==>
                  ShowsOwnParams(s, steps, ev, call, steps[n].tid, memories))
  {
    hide Run, JoinAll, Exits, IsReportOf, ShowsOwnParams, AllTimed;
    var m := SeenIsEarlier(steps, upTo);
    call, n := ReportIsAnActivation(s, steps[..m], i, memories);
    ReportLater(s, steps, m, JoinAll(s, Run(steps).ring[..upTo], memories).events[i], call, n);
    if NothingLostIn(steps, steps[n].tid, call.born, n) {
      var ev := JoinAll(s, Run(steps).ring[..upTo], memories).events[i];
      assert NothingLostIn(steps[..m], steps[n].tid, call.born, n);
      ShownLater(s, steps, m, upTo, ev, call, steps[n].tid, memories);
    }
  }

  lemma ShownLater(s: Setup, steps: seq<Step>, m: nat, upTo: nat, ev: WatchEvent, call: Call, tid: U32,
                   memories: nat -> U64 -> string)
    requires s.Valid() && m <= |steps| && upTo <= |Run(steps).ring| && Run(steps[..m]).ring == Run(steps).ring[..upTo]
    requires ShowsOwnParams(s, steps[..m], ev, call, tid, memories)
    ensures ShowsOwnParams(s, steps, ev, call, tid, memories)
  {
    hide Run, OwnParams;
  }

  lemma ReportLater(s: Setup, steps: seq<Step>, m: nat, ev: WatchEvent, call: Call, n: nat)
    requires s.Valid() && m <= |steps| && IsReportOf(s, steps[..m], ev, call, n)
    ensures n < m && steps[..m][n] == steps[n] && IsReportOf(s, steps, ev, call, n)
  {
    hide Run, IsOpenCall;
    assert steps[..m][..n] == steps[..n];
  }

  lemma ReportIsAnActivation(s: Setup, steps: seq<Step>, i: nat, memories: nat -> U64 -> string)
    returns (call: Call, n: nat)
    requires s.Valid() && Probed(s, steps) && i < |JoinAll(s, Run(steps).ring, memories).events|
    ensures var ev := JoinAll(s, Run(steps).ring, memories).events[i];
            && IsReportOf(s, steps, ev, call, n)
            && (NothingLostIn(steps, steps[n].tid, call.born, n) ==>
                  ShowsOwnParams(s, steps, ev, call, steps[n].tid, memories))
  {
    hide Run, JoinAll, Exits, OwnParams, Report, IsOpenCall, SlotIsEntry;
    var w := Run(steps);
    OnlyTargets(s, steps);
    ExitsReportedInOrder(s, w.ring, memories);
    var k := Exits(w.ring)[i];
    EventsAreAboutCalls(steps, k);
    DurationsAreOwn(steps);
    assert Timed(w.ring[k], w.cause[k]);
    call := w.cause[k];
    n := WriterOf(steps, k);
    var ev := JoinAll(s, w.ring, memories).events[i];
    ReportSays(s.targets[s.byAddr[call.func]], w.ring[k], ev.params);
    if NothingLostIn(steps, steps[n].tid, call.born, n) {
      OpenCallEntered(steps, n, call);
      ParamsAreOwn(s, steps, i, memories);
      EntriesInRing(steps);
      assert SlotIsEntry(w, w.ring[k].tid, w.cause[k]);
    }
  }

  lemma OpenCallEntered(steps: seq<Step>, n: nat, call: Call)
    requires n < |steps| && IsOpenCall(steps[..n], steps[n].tid, call)
    ensures call.born < |steps| && steps[call.born].Enter? && steps[call.born].args == call.args
  {
  }

  lemma ReportSays(fi: FuncInfo, raw: RawEvent, params: seq<string>)
    ensures var ev := Report(fi, raw, params);
            && ev.funcName == fi.name && ev.retValue == FormatParamVal(raw.retVal, fi.returnType)
            && ev.timestamp == raw.timestamp && ev.duration == raw.duration
  {
  }

  // None, or those of the call's own entry event.
  ghost predicate OwnOrNone(s: Setup, ring: seq<RawEvent>, call: Call, params: seq<string>,
                            memories: nat -> U64 -> string)
    requires s.Valid() && (call.slot.Some? ==> call.slot.value < |ring| && ring[call.slot.value].funcAddr in s.byAddr)
  {
    params == [] || (call.slot.Some? && params == ParamsFrom(s, ring, call.slot.value, memories))
  }

  /** Attribution, exactly: a reported exit shows its own call's parameters or none if and only if the
      entry event it is joined with, if any, is its own one, or yields no other text. */
  lemma OwnOrNoneExactly(s: Setup, steps: seq<Step>, i: nat, memories: nat -> U64 -> string)
    requires s.Valid() && Probed(s, steps)
    requires i < |JoinAll(s, Run(steps).ring, memories).events|
    ensures var w := Run(steps);
            var events := JoinAll(s, w.ring, memories).events;
            && i < |Exits(w.ring)| && |w.cause| == |w.ring|
            && var k := Exits(w.ring)[i];
               var call := w.cause[k];
               && (call.slot.Some? ==> call.slot.value < |w.ring| && w.ring[call.slot.value].funcAddr in s.byAddr)
               && (forall j: nat :: JoinedWith(s, w.ring, k, j) ==> j < k && w.ring[j].funcAddr in s.byAddr)
               && (OwnOrNone(s, w.ring, call, events[i].params, memories) <==>
                     forall j: nat :: JoinedWith(s, w.ring, k, j) ==>
                       call.slot == Some(j) || OwnOrNone(s, w.ring, call, ParamsFrom(s, w.ring, j, memories), memories))
  {
    hide Run, JoinAll, Exits, JoinedWith, ParamsFrom, Probed;
    var w := Run(steps);
    RingIsTargets(s, steps, memories);
    EachReportShowsLastEntry(s, w.ring, i, memories);
    EntriesInRing(steps);
    var k := Exits(w.ring)[i];
    assert SlotIsEntry(w, w.ring[k].tid, w.cause[k]);
  }

  lemma OneEntered(f: U64, args: Args, tid: U32, ts: U64)
    ensures var w := Run([Enter(tid, f, args, ts, true)]);
            w.ring == [EntryEvent(tid, ts, f, args)] && |w.cause| == 1 && |StackOf(w, tid)| == 1
  {
    hide MapUpdate;
    var step := Enter(tid, f, args, ts, true);
    assert [step][..0] == [];
    assert Run([step]) == Do(World(map[], map[], [], []), 0, step);
  }

  /** Why nothing may be lost: when the entry event of a recursive call is dropped, its exit is
      reported with the arguments of the call around it. */
  lemma LostEntryMisattributes(s: Setup, f: U64, outer: Args, inner: Args, tid: U32, memories: nat -> U64 -> string)
    requires s.Valid() && f in s.byAddr && s.cap > 0
    ensures var w := Run([Enter(tid, f, outer, 10, true), Enter(tid, f, inner, 20, false), Leave(tid, 30, 0, true)]);
            var events := JoinAll(s, w.ring, memories).events;
            && |w.cause| == 2 && w.cause[1].args == inner && |events| == 1
            && events[0].params == Shown(s.targets[s.byAddr[f]], Entered(s, f, outer, memories(0)))
            && ShowsEntry(s, f, outer, memories(0), events[0].params)
  {
    hide Entered, Shown, Report, MapUpdate, Run, JoinAll, Joined, ShowsEntry;
    EnteredShows(s, f, outer, memories(0));
    var e1, e2, e3 := Enter(tid, f, outer, 10, true), Enter(tid, f, inner, 20, false), Leave(tid, 30, 0, true);
    RunStep([e1, e2, e3]);
    RunStep([e1, e2]);
    assert [e1, e2, e3][..2] == [e1, e2];
    assert [e1, e2][..1] == [e1];
    OneEntered(f, outer, tid, 10);
    var w := Run([e1, e2, e3]);
    assert w.ring == [w.ring[0], w.ring[1]];
    LostJoin(s, w.ring[0], w.ring[1], memories);
  }

  // An entry event followed by an exit event of the same thread and function.
  lemma LostJoin(s: Setup, entry: RawEvent, exit: RawEvent, memories: nat -> U64 -> string)
    requires s.Valid() && entry.funcAddr in s.byAddr && s.cap > 0
    requires !entry.isExit && exit.isExit && entry.tid == exit.tid && entry.funcAddr == exit.funcAddr
    ensures var fi, events := s.targets[s.byAddr[exit.funcAddr]], JoinAll(s, [entry, exit], memories).events;
            |events| == 1
            && events[0].params == Shown(fi, Entered(s, entry.funcAddr, entry.args, memories(0)))
  {
    hide StringsAhead, FormattedParams;
    assert [] + [entry] == [entry] && [entry] + [exit] == [entry, exit];
    JoinOne(s, [], entry, memories);
    JoinOne(s, [entry], exit, memories);
  }

  lemma TwoEntered(f: U64, outer: Args, inner: Args, tid: U32)
    ensures var w := Run([Enter(tid, f, outer, 10, true), Enter(tid, f, inner, 20, true)]);
            && w.ring == [EntryEvent(tid, 10, f, outer), EntryEvent(tid, 20, f, inner)] && |w.cause| == 2
            && |StackOf(w, tid)| == 2 && StackOf(w, tid)[0].args == outer && StackOf(w, tid)[0].func == f
  {
    hide MapUpdate, Run;
    var e1, e2 := Enter(tid, f, outer, 10, true), Enter(tid, f, inner, 20, true);
    RunStep([e1, e2]);
    RunStep([e1]);
    assert [e1, e2][..1] == [e1] && [e1][..0] == [];
    NothingRun();
  }

  lemma NothingRun()
    ensures Run([]) == World(map[], map[], [], [])
  {
  }

  /** Nor may an exit event be lost: the return of the outer call is then reported with the arguments of
      the inner one. */
  lemma LostExitMisattributes(s: Setup, f: U64, outer: Args, inner: Args, tid: U32, memories: nat -> U64 -> string)
    requires s.Valid() && f in s.byAddr && s.cap > 0
    ensures var w := Run([Enter(tid, f, outer, 10, true), Enter(tid, f, inner, 20, true),
                          Leave(tid, 30, 0, false), Leave(tid, 40, 0, true)]);
            var events := JoinAll(s, w.ring, memories).events;
            && |w.cause| == 3 && w.cause[2].args == outer && |events| == 1
            && events[0].params == Shown(s.targets[s.byAddr[f]], Entered(s, f, inner, memories(1)))
            && ShowsEntry(s, f, inner, memories(1), events[0].params)
  {
    hide Entered, Shown, Report, MapUpdate, EntryEvent, Run, JoinAll, Joined, ShowsEntry;
    EnteredShows(s, f, inner, memories(1));
    var e1, e2 := Enter(tid, f, outer, 10, true), Enter(tid, f, inner, 20, true);
    var e3, e4 := Leave(tid, 30, 0, false), Leave(tid, 40, 0, true);
    RunStep([e1, e2, e3, e4]);
    RunStep([e1, e2, e3]);
    assert [e1, e2, e3, e4][..3] == [e1, e2, e3];
    assert [e1, e2, e3][..2] == [e1, e2];
    TwoEntered(f, outer, inner, tid);
    var w := Run([e1, e2, e3, e4]);
    assert w.ring == [w.ring[0], w.ring[1], w.ring[2]];
    EntryEventSays(tid, 10, f, outer);
    EntryEventSays(tid, 20, f, inner);
    LostExitJoin(s, w.ring[0], w.ring[1], w.ring[2], memories);
  }

  lemma EntryEventSays(tid: U32, ts: U64, f: U64, args: Args)
    ensures var e := EntryEvent(tid, ts, f, args); !e.isExit && e.tid == tid && e.funcAddr == f && e.args == args
  {
  }

  // Two entry events and an exit event of the same thread and function.
  lemma LostExitJoin(s: Setup, outer: RawEvent, inner: RawEvent, exit: RawEvent, memories: nat -> U64 -> string)
    requires s.Valid() && exit.funcAddr in s.byAddr && s.cap > 0
    requires !outer.isExit && !inner.isExit && exit.isExit && outer.tid == inner.tid == exit.tid
    requires outer.funcAddr == inner.funcAddr == exit.funcAddr
    ensures var fi, events := s.targets[s.byAddr[exit.funcAddr]], JoinAll(s, [outer, inner, exit], memories).events;
            |events| == 1
            && events[0].params == Shown(fi, Entered(s, inner.funcAddr, inner.args, memories(1)))
  {
    hide StringsAhead, FormattedParams;
    assert [] + [outer] == [outer] && [outer] + [inner] == [outer, inner];
    assert [outer, inner] + [exit] == [outer, inner, exit];
    JoinOne(s, [], outer, memories);
    JoinOne(s, [outer], inner, memories);
    JoinOne(s, [outer, inner], exit, memories);
  }
}
