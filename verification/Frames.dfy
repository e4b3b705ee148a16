/** Walking the frame-pointer chain of a stopped target and naming what it finds. */
module Frames {
  import opened Hex
  import opened Words
  import opened Symbols

  const MAX_WALK: nat := 14

  /** A reader of target words: what request k for address a returns. Requests are numbered since
      each of them may fail. */
  type Reader = (nat, U64) -> Option<U64>

  // The return addresses met from frame pointer rbp on, with `left` steps to go.
  function Walk(read: Reader, k: nat, rbp: U64, left: nat): seq<U64>
    decreases left
  {
    if left == 0 || rbp == 0 || rbp % 8 != 0 then []
    else
      var saved, ret := read(k, rbp), read(k + 1, Wrap(rbp + 8));
      if ret.None? || ret.value == 0 then []
      else
        [ret.value] + (if saved.None? || saved.value == 0 || saved.value <= rbp then []
                       else Walk(read, k + 2, saved.value, left - 1))
  }

  // One step of the walk.
  lemma WalkStep(read: Reader, k: nat, rbp: U64, left: nat)
    ensures var saved, ret := read(k, rbp), read(k + 1, Wrap(rbp + 8));
            Walk(read, k, rbp, left) ==
            if left == 0 || rbp == 0 || rbp % 8 != 0 || ret.None? || ret.value == 0 then []
            else if saved.None? || saved.value == 0 || saved.value <= rbp then [ret.value]
            else [ret.value] + Walk(read, k + 2, saved.value, left - 1)
    ensures var saved, ret := read(k, rbp), read(k + 1, Wrap(rbp + 8));
            WalkCost(read, k, rbp, left) ==
            if left == 0 || rbp == 0 || rbp % 8 != 0 then 0
            else if ret.None? || ret.value == 0 || saved.None? || saved.value == 0 || saved.value <= rbp then 2
            else 2 + WalkCost(read, k + 2, saved.value, left - 1)
  {
  }

  // The frame pointers looked at on the way.
  function Visited(read: Reader, k: nat, rbp: U64, left: nat): seq<U64>
    decreases left
  {
    if left == 0 || rbp == 0 || rbp % 8 != 0 then []
    else
      var saved, ret := read(k, rbp), read(k + 1, Wrap(rbp + 8));
      [rbp] + (if ret.None? || ret.value == 0 || saved.None? || saved.value == 0 || saved.value <= rbp then []
               else Visited(read, k + 2, saved.value, left - 1))
  }

  // Requests the walk makes.
  function WalkCost(read: Reader, k: nat, rbp: U64, left: nat): nat
    decreases left
  {
    if left == 0 || rbp == 0 || rbp % 8 != 0 then 0
    else
      var saved, ret := read(k, rbp), read(k + 1, Wrap(rbp + 8));
      2 + (if ret.None? || ret.value == 0 || saved.None? || saved.value == 0 || saved.value <= rbp then 0
           else WalkCost(read, k + 2, saved.value, left - 1))
  }

  // Requests a sample makes.
  function SampleCost(read: Reader, k: nat, rsp: U64, rbp: U64): nat {
    1 + if read(k, rsp).None? then 0 else WalkCost(read, k + 1, rbp, MAX_WALK)
  }

  // All return addresses of a sample: the caller's, then those of the walk.
  function Returns(read: Reader, k: nat, rsp: U64, rbp: U64): seq<U64> {
    match read(k, rsp)
    case None => []
    case Some(ra) => [ra] + Walk(read, k + 1, rbp, MAX_WALK)
  }

  /** What names an address: the function table with its ordered index, and the distance between
      run-time and link-time addresses. */
  datatype Symbolizer = Symbolizer(cache: seq<FuncInfo>, index: seq<Slot>, slide: U64) {
    ghost predicate Ready() {
      Indexes(index, cache, |cache|) && forall s :: s in index ==> s.at < |cache|
    }

    // sym_for: through the table at the link-time address, or the bare address.
    function NameOf(addr: U64): string
      requires forall s :: s in index ==> s.at < |cache|
    {
      var link: U64 := if addr >= slide then addr - slide else addr;
      match Lookup(cache, index, link)
      case Some(name) => name
      case None => "0x" + FixedHex(addr, 16)
    }

    // An address without a name is shown as itself, in sixteen digits.
    lemma BareAddressReadsBack(addr: U64)
      requires forall s :: s in index ==> s.at < |cache|
      requires Lookup(cache, index, if addr >= slide then addr - slide else addr) == None
      ensures |NameOf(addr)| == 18 && NameOf(addr)[..2] == "0x"
      ensures IsHex(NameOf(addr)[2..]) && ParseHex(NameOf(addr)[2..]) == addr
    {
      hide Lookup, FixedHex, ParseHex, IsHex;
      Power16Of16();
      ParseOfFixedHex(addr, 16);
      assert NameOf(addr)[2..] == FixedHex(addr, 16);
    }

    // The run-time address lies in function i of the table.
    predicate Inside(i: nat, addr: U64) {
      i < |cache| && slide <= addr && Contains(cache[i], addr - slide)
    }

    // Function ranges are disjoint, and functions that share a range share their name.
    ghost predicate Unambiguous() {
      && NonOverlapping(cache)
      && forall i, j :: 0 <= i < |cache| && 0 <= j < |cache| && cache[i].address == cache[j].address
                        ==> cache[i].name == cache[j].name
    }

    // Below the slide an address is looked up as it is.
    lemma NamesBelowSlide(i: nat, addr: U64)
      requires Ready() && Unambiguous() && i < |cache| && addr < slide && Contains(cache[i], addr)
      ensures NameOf(addr) == cache[i].name
    {
      hide Indexes, NonOverlapping;
      LookupNamesContainer(cache, index, addr, i);
    }

    lemma NamesInside(i: nat, addr: U64)
      requires Ready() && Unambiguous() && Inside(i, addr)
      ensures NameOf(addr) == cache[i].name
    {
      hide Indexes, NonOverlapping;
      LookupNamesContainer(cache, index, addr - slide, i);
    }
  }

  function Named(z: Symbolizer, addrs: seq<U64>): seq<string>
    requires forall s :: s in z.index ==> s.at < |z.cache|
  {
    if addrs == [] then [] else [z.NameOf(addrs[0])] + Named(z, addrs[1..])
  }

  // The frames of one sample.
  function SampleFrames(func: string, z: Symbolizer, read: Reader, k: nat, rsp: U64, rbp: U64): seq<string>
    requires forall s :: s in z.index ==> s.at < |z.cache|
  {
    [func] + Named(z, Returns(read, k, rsp, rbp))
  }

  lemma {:induction false} NamedAt(z: Symbolizer, addrs: seq<U64>)
    requires forall s :: s in z.index ==> s.at < |z.cache|
    ensures |Named(z, addrs)| == |addrs|
    ensures forall i :: 0 <= i < |addrs| ==> Named(z, addrs)[i] == z.NameOf(addrs[i])
  {
    if addrs != [] {
      NamedAt(z, addrs[1..]);
    }
  }

  /** On arbitrary memory the walk climbs: the frame pointers looked at strictly increase, and
      there are at most as many as steps allowed, at two requests each. */
  lemma {:induction false} WalkClimbs(read: Reader, k: nat, rbp: U64, left: nat)
    ensures var v := Visited(read, k, rbp, left);
            && |Walk(read, k, rbp, left)| <= |v| <= left
            && WalkCost(read, k, rbp, left) == 2 * |v|
            && (forall i :: 0 <= i < |v| ==> v[i] >= rbp && v[i] % 8 == 0)
            && (forall i, j :: 0 <= i < j < |v| ==> v[i] < v[j])
    decreases left
  {
    if left > 0 && rbp != 0 && rbp % 8 == 0 {
      var saved, ret := read(k, rbp), read(k + 1, Wrap(rbp + 8));
      if ret.Some? && ret.value != 0 && saved.Some? && saved.value > rbp {
        WalkClimbs(read, k + 2, saved.value, left - 1);
      }
    }
  }

  lemma AtMostSixteenFrames(func: string, z: Symbolizer, read: Reader, k: nat, rsp: U64, rbp: U64)
    requires forall s :: s in z.index ==> s.at < |z.cache|
    ensures 1 <= |SampleFrames(func, z, read, k, rsp, rbp)| <= 16
  {
    NamedAt(z, Returns(read, k, rsp, rbp));
    WalkClimbs(read, k + 1, rbp, MAX_WALK);
  }

  // The frame pointer is one that the walk may look at, and the word above it a return address.
  predicate IsFrame(read: Reader, k: nat, fp: U64) {
    fp != 0 && fp % 8 == 0 && read(k + 1, Wrap(fp + 8)).Some? && read(k + 1, Wrap(fp + 8)).value != 0
  }

  // The frame at fp leads on to another one, higher up.
  predicate LeadsOn(read: Reader, k: nat, fp: U64) {
    read(k, fp).Some? && read(k, fp).value > fp && IsFrame(read, k + 2, read(k, fp).value)
  }

  // Frame i of a chain looked at from request k on: its return address, and that it leads to the next one.
  ghost predicate FrameAt(read: Reader, k: nat, fps: seq<U64>, rets: seq<U64>, i: nat) {
    && i < |fps| == |rets|
    && var n, fp := k + 2 * i, fps[i];
       && IsFrame(read, n, fp) && read(n + 1, Wrap(fp as int + 8)) == Some(rets[i])
       && (i + 1 < |fps| ==> LeadsOn(read, n, fp) && read(n, fp) == Some(fps[i + 1]))
  }

  /** The frame pointers fps are those of the longest chain of at most `left` frames from rbp on, and rets the
      return addresses above them, on any memory and whatever reads fail. */
  ghost predicate IsTrail(read: Reader, k: nat, rbp: U64, left: nat, fps: seq<U64>, rets: seq<U64>) {
    var n := |fps|;
    && n == |rets| <= left
    && (forall i: nat :: i < n ==> FrameAt(read, k, fps, rets, i))
    && (if n == 0 then left == 0 || !IsFrame(read, k, rbp)
        else fps[0] == rbp && (n == left || !LeadsOn(read, k + 2 * (n - 1), fps[n - 1])))
  }

  /** What the walk yields, on arbitrary memory. */
  lemma {:induction false} WalkIsTrail(read: Reader, k: nat, rbp: U64, left: nat) returns (fps: seq<U64>)
    ensures IsTrail(read, k, rbp, left, fps, Walk(read, k, rbp, left))
    decreases left
  {
    fps := [];
    WalkStep(read, k, rbp, left);
    if left > 0 && IsFrame(read, k, rbp) {
      fps := [rbp];
      var ret := read(k + 1, Wrap(rbp + 8)).value;
      if read(k, rbp).Some? && read(k, rbp).value > rbp {
        var next := read(k, rbp).value;
        var more := WalkIsTrail(read, k + 2, next, left - 1);
        fps := [rbp] + more;
        TrailGrows(read, k, rbp, left, next, more, Walk(read, k + 2, next, left - 1));
      } else {
        assert Walk(read, k, rbp, left) == [ret];
      }
    }
  }

  lemma FrameMovesUp(read: Reader, k: nat, fps: seq<U64>, rets: seq<U64>, i: nat, fp: U64, ret: U64)
    requires FrameAt(read, k + 2, fps, rets, i)
    ensures FrameAt(read, k, [fp] + fps, [ret] + rets, i + 1)
  {
    hide IsFrame, LeadsOn;
  }

  lemma TrailStart(read: Reader, k: nat, fps: seq<U64>, rets: seq<U64>, fp: U64, ret: U64)
    requires |fps| == |rets| && IsFrame(read, k, fp) && read(k + 1, Wrap(fp as int + 8)) == Some(ret)
    requires fps != [] ==> LeadsOn(read, k, fp) && read(k, fp) == Some(fps[0])
    ensures FrameAt(read, k, [fp] + fps, [ret] + rets, 0)
  {
    hide IsFrame, LeadsOn;
  }

  lemma TrailGrows(read: Reader, k: nat, rbp: U64, left: nat, next: U64, fps: seq<U64>, rets: seq<U64>)
    requires left > 0 && IsFrame(read, k, rbp) && read(k, rbp) == Some(next) && next > rbp
    requires IsTrail(read, k + 2, next, left - 1, fps, rets)
    ensures IsTrail(read, k, rbp, left, [rbp] + fps, [read(k + 1, Wrap(rbp + 8)).value] + rets)
  {
    var ret, n := read(k + 1, Wrap(rbp + 8)).value, |fps|;
    if n > 0 {
      assert FrameAt(read, k + 2, fps, rets, 0);
      assert k + 2 + 2 * (n - 1) == k + 2 * n;
    }
    TrailStart(read, k, fps, rets, rbp, ret);
    hide FrameAt, IsFrame, Wrap;
    forall i: nat | i < n + 1 ensures FrameAt(read, k, [rbp] + fps, [ret] + rets, i) {
      if i > 0 {
        FrameMovesUp(read, k, fps, rets, i - 1, rbp, ret);
      }
    }
  }

  /** A sample, on arbitrary memory and whatever reads fail: the function alone if there is no return address to
      be had, and otherwise also its caller and the frames of a trail of at most fourteen. */
  lemma SampleIsTrail(func: string, z: Symbolizer, read: Reader, k: nat, rsp: U64, rbp: U64)
    returns (fps: seq<U64>, rets: seq<U64>)
    requires forall s :: s in z.index ==> s.at < |z.cache|
    ensures IsTrail(read, k + 1, rbp, 14, fps, rets)
    ensures var frames := SampleFrames(func, z, read, k, rsp, rbp);
            if read(k, rsp).None? then frames == [func]
            else
              && |frames| == 2 + |rets| && frames[0] == func && frames[1] == z.NameOf(read(k, rsp).value)
              && forall i :: 0 <= i < |rets| ==> frames[i + 2] == z.NameOf(rets[i])
  {
    hide Walk;
    fps := WalkIsTrail(read, k + 1, rbp, 14);
    rets := Walk(read, k + 1, rbp, 14);
    NamedAt(z, Returns(read, k, rsp, rbp));
  }

  // A saved frame pointer's address and the return address above it.
  datatype Link = Link(fp: U64, ret: U64)

  // The requests from number `from` up to number `upTo` read memory.
  ghost predicate Steady(read: Reader, memory: U64 -> Option<U64>, from: nat, upTo: nat) {
    forall k: nat, a: U64 :: from <= k < upTo ==> read(k, a) == memory(a)
  }

  /** A well-formed chain from frame pointer rbp: aligned, strictly increasing, ended by zero, with
      readable nonzero return addresses. */
  ghost predicate IsChain(memory: U64 -> Option<U64>, rbp: U64, chain: seq<Link>)
    decreases |chain|
  {
    if chain == [] then rbp == 0
    else
      && rbp == chain[0].fp && rbp != 0 && rbp % 8 == 0
      && chain[0].ret != 0 && memory(Wrap(rbp + 8)) == Some(chain[0].ret)
      && memory(rbp).Some?
      && (memory(rbp).value == 0 || memory(rbp).value > rbp)
      && IsChain(memory, memory(rbp).value, chain[1..])
  }

  function ReturnsOf(chain: seq<Link>): seq<U64> {
    if chain == [] then [] else [chain[0].ret] + ReturnsOf(chain[1..])
  }

  lemma {:induction false} ReturnsOfAt(chain: seq<Link>)
    ensures |ReturnsOf(chain)| == |chain|
    ensures forall i :: 0 <= i < |chain| ==> ReturnsOf(chain)[i] == chain[i].ret
  {
    if chain != [] {
      ReturnsOfAt(chain[1..]);
    }
  }

  /** The walk recovers the chain, as far as it is allowed to go. */
  lemma {:induction false} WalkFollowsChain(read: Reader, memory: U64 -> Option<U64>, k: nat, rbp: U64,
                                            chain: seq<Link>, left: nat)
    requires Steady(read, memory, k, k + WalkCost(read, k, rbp, left)) && IsChain(memory, rbp, chain)
    ensures var n := if |chain| <= left then |chain| else left;
            n <= |ReturnsOf(chain)| && Walk(read, k, rbp, left) == ReturnsOf(chain)[..n]
    decreases left
  {
    ReturnsOfAt(chain);
    if left > 0 && chain != [] {
      var next := memory(rbp).value;
      assert read(k, rbp) == memory(rbp) && read(k + 1, Wrap(rbp + 8)) == memory(Wrap(rbp + 8));
      WalkFollowsChain(read, memory, k + 2, next, chain[1..], left - 1);
      ReturnsOfAt(chain[1..]);
      if next == 0 {
        assert chain[1..] == [];
      }
    }
  }

  // What a sample reads off a well-formed chain.
  lemma ReturnsAreLinks(read: Reader, memory: U64 -> Option<U64>, k: nat, rsp: U64, rbp: U64, ra: U64, chain: seq<Link>)
    requires Steady(read, memory, k, k + SampleCost(read, k, rsp, rbp))
    requires memory(rsp) == Some(ra) && IsChain(memory, rbp, chain)
    ensures var addrs := Returns(read, k, rsp, rbp);
            && |addrs| == (if |chain| <= MAX_WALK then |chain| else MAX_WALK) + 1
            && addrs[0] == ra
            && forall i :: 1 <= i < |addrs| ==> addrs[i] == chain[i - 1].ret
  {
    hide Walk, WalkCost, IsChain, ReturnsOf;
    assert read(k, rsp) == memory(rsp);
    assert Steady(read, memory, k + 1, k + 1 + WalkCost(read, k + 1, rbp, MAX_WALK));
    WalkFollowsChain(read, memory, k + 1, rbp, chain, MAX_WALK);
    ReturnsOfAt(chain);
  }

  // The frames are the function and its callers' names in call order, sixteen frames at most.
  ghost predicate ShowsCallers(z: Symbolizer, func: string, callers: seq<nat>, frames: seq<string>) {
    && |frames| == (if |callers| <= 15 then 1 + |callers| else 16)
    && frames[0] == func
    && forall i :: 1 <= i < |frames| ==> callers[i - 1] < |z.cache| && frames[i] == z.cache[callers[i - 1]].name
  }

  /** End to end: on a well-formed chain whose return addresses lie in functions of the table, a
      sample whose own requests succeed lists the function, its caller and the callers' callers by name, in call order.
      callers[0] is the position of the direct caller in the table. */
  lemma SampleIsCallChain(func: string, z: Symbolizer, read: Reader, memory: U64 -> Option<U64>,
                          k: nat, rsp: U64, rbp: U64, ra: U64, chain: seq<Link>, callers: seq<nat>)
    requires z.Ready() && z.Unambiguous()
    requires Steady(read, memory, k, k + SampleCost(read, k, rsp, rbp))
    requires memory(rsp) == Some(ra) && IsChain(memory, rbp, chain)
    requires |callers| == |chain| + 1 && z.Inside(callers[0], ra)
    requires forall i :: 0 <= i < |chain| ==> z.Inside(callers[i + 1], chain[i].ret)
    ensures ShowsCallers(z, func, callers, SampleFrames(func, z, read, k, rsp, rbp))
  {
    hide Indexes, NonOverlapping, IsChain, Returns, Steady, Contains, Lookup, FixedHex, Named;
    var addrs := Returns(read, k, rsp, rbp);
    ReturnsAreLinks(read, memory, k, rsp, rbp, ra, chain);
    NamedAt(z, addrs);
    forall i | 0 <= i < |addrs|
      ensures z.Inside(callers[i], addrs[i]) && z.NameOf(addrs[i]) == z.cache[callers[i]].name
    {
      assert i > 0 ==> z.Inside(callers[i - 1 + 1], chain[i - 1].ret);
      z.NamesInside(callers[i], addrs[i]);
    }
  }
}
