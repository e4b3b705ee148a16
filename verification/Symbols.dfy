/** The function table and its two indexes. */
module Symbols {
  import opened Words

  datatype FuncInfo = FuncInfo(name: string, mangledName: string, address: U64, size: U64,
                               paramTypes: seq<string>, returnType: string, hasThis: bool)

  // An entry of the ordered index: a start address and a position of the table.
  datatype Slot = Slot(addr: U64, at: nat)

  // try_emplace into the ordered index: an entry that is there stays.
  function Emplace(index: seq<Slot>, addr: U64, at: nat): seq<Slot> {
    if index == [] || addr < index[0].addr then [Slot(addr, at)] + index
    else if addr == index[0].addr then index
    else [index[0]] + Emplace(index[1..], addr, at)
  }

  // upper_bound: the position of the first entry behind addr.
  function UpperBound(index: seq<Slot>, addr: U64): (k: nat)
    ensures k <= |index|
    ensures forall i :: 0 <= i < k ==> index[i].addr <= addr
    ensures k < |index| ==> addr < index[k].addr
  {
    if index == [] || addr < index[0].addr then 0 else 1 + UpperBound(index[1..], addr)
  }

  ghost predicate Sorted(index: seq<Slot>) {
    forall i, j :: 0 <= i < j < |index| ==> index[i].addr < index[j].addr
  }

  // at is the position of the first of the first n functions that starts at addr.
  ghost predicate FirstAt(cache: seq<FuncInfo>, n: nat, addr: U64, at: nat)
    requires n <= |cache|
  {
    && at < n && cache[at].address == addr
    && forall j :: 0 <= j < at ==> cache[j].address != addr
  }

  /** The ordered index of the first n functions: one entry for each start address but 0, in ascending
      order, each pointing to the first function that starts there. */
  ghost predicate Indexes(index: seq<Slot>, cache: seq<FuncInfo>, n: nat)
    requires n <= |cache|
  {
    && Sorted(index)
    && (forall k :: 0 <= k < |index| ==> index[k].addr != 0 && FirstAt(cache, n, index[k].addr, index[k].at))
    && (forall i :: 0 <= i < n && cache[i].address != 0 ==>
          exists k :: 0 <= k < |index| && index[k].addr == cache[i].address)
  }

  // What a new entry does to an index that has no entry for its address, at the front.
  lemma {:induction false} EmplaceMembers(index: seq<Slot>, addr: U64, at: nat)
    ensures var more := Emplace(index, addr, at);
            && (forall s :: s in index ==> s in more)
            && (forall s :: s in more ==> s in index || s == Slot(addr, at))
            && (exists s :: s in more && s.addr == addr)
  {
    var more := Emplace(index, addr, at);
    if index == [] || addr < index[0].addr {
      assert more[0] == Slot(addr, at);
    } else if addr == index[0].addr {
      assert index[0] in more;
    } else {
      EmplaceMembers(index[1..], addr, at);
      assert index == [index[0]] + index[1..];
    }
  }

  lemma {:induction false} EmplaceSorted(index: seq<Slot>, addr: U64, at: nat)
    requires Sorted(index)
    ensures Sorted(Emplace(index, addr, at))
  {
    if index != [] && addr > index[0].addr {
      EmplaceSorted(index[1..], addr, at);
      EmplaceMembers(index[1..], addr, at);
      var rest := Emplace(index[1..], addr, at);
      forall j | 0 <= j < |rest| ensures index[0].addr < rest[j].addr {
        assert rest[j] in rest;
      }
    }
  }

  // The first entry for an address stays.
  lemma {:induction false} EmplaceKeepsFirst(index: seq<Slot>, addr: U64, at: nat, k: nat)
    requires Sorted(index) && k < |index| && index[k].addr == addr
    ensures Emplace(index, addr, at) == index
  {
    if k > 0 {
      assert index[0].addr < index[k].addr;
      EmplaceKeepsFirst(index[1..], addr, at, k - 1);
    }
  }

  lemma IndexGrows(index: seq<Slot>, cache: seq<FuncInfo>, n: nat)
    requires n < |cache| && Indexes(index, cache, n)
    ensures cache[n].address != 0 ==> Indexes(Emplace(index, cache[n].address, n), cache, n + 1)
    ensures cache[n].address == 0 ==> Indexes(index, cache, n + 1)
  {
    hide Sorted, Emplace;
    var addr := cache[n].address;
    if addr != 0 {
      var more := Emplace(index, addr, n);
      EmplaceMembers(index, addr, n);
      EmplaceSorted(index, addr, n);
      forall k | 0 <= k < |index| && index[k].addr == addr ensures more == index {
        EmplaceKeepsFirst(index, addr, n, k);
      }
      forall k | 0 <= k < |more| ensures more[k].addr != 0 && FirstAt(cache, n + 1, more[k].addr, more[k].at) {
        assert more[k] in more;
        assert more[k] in index || more[k] == Slot(addr, n);
        if more[k] !in index {
          forall j | 0 <= j < n ensures cache[j].address != addr {
          }
        }
      }
      forall i | 0 <= i < n + 1 && cache[i].address != 0
        ensures exists k :: 0 <= k < |more| && more[k].addr == cache[i].address
      {
        if i < n {
          var k :| 0 <= k < |index| && index[k].addr == cache[i].address;
          assert index[k] in more;
        }
      }
    }
  }

  // The name of the function at or before addr, provided it reaches as far as addr.
  function Lookup(cache: seq<FuncInfo>, index: seq<Slot>, addr: U64): Option<string>
    requires forall s :: s in index ==> s.at < |cache|
  {
    var k := UpperBound(index, addr);
    if k == 0 then None
    else
      var f := cache[index[k - 1].at];
      if f.address == addr then Some(f.name)
      else if f.size > 0 && addr < Wrap(f.address + f.size) then Some(f.name)
      else None
  }

  predicate Contains(f: FuncInfo, addr: U64) {
    addr == f.address || f.address <= addr < f.address + f.size
  }

  // The linear scan: the first function of the table that contains addr.
  function Scan(cache: seq<FuncInfo>, addr: U64): Option<string> {
    if cache == [] then None
    else if Contains(cache[0], addr) then Some(cache[0].name)
    else Scan(cache[1..], addr)
  }

  lemma {:induction false} ScanFindsFirst(cache: seq<FuncInfo>, addr: U64, i: nat)
    requires i < |cache| && Contains(cache[i], addr)
    requires forall j :: 0 <= j < i ==> !Contains(cache[j], addr)
    ensures Scan(cache, addr) == Some(cache[i].name)
  {
    if i > 0 {
      assert !Contains(cache[0], addr);
      ScanFindsFirst(cache[1..], addr, i - 1);
    }
  }

  lemma {:induction false} ScanFindsNone(cache: seq<FuncInfo>, addr: U64)
    requires forall j :: 0 <= j < |cache| ==> !Contains(cache[j], addr)
    ensures Scan(cache, addr) == None
  {
    if cache != [] {
      ScanFindsNone(cache[1..], addr);
    }
  }

  // The range of f is placed and does not wrap.
  predicate Placed(f: FuncInfo) {
    f.address != 0 && f.address + f.size < WORD
  }

  // g does not start inside f, unless the two are names of one range.
  predicate Apart(f: FuncInfo, g: FuncInfo) {
    && (f.address < g.address ==> f.address + f.size <= g.address)
    && (f.address == g.address ==> f.size == g.size)
  }

  /** Function ranges are pairwise disjoint, except that several names may share one range. */
  ghost predicate NonOverlapping(cache: seq<FuncInfo>) {
    && (forall i :: 0 <= i < |cache| ==> Placed(cache[i]))
    && (forall i, j :: 0 <= i < |cache| && 0 <= j < |cache| ==> Apart(cache[i], cache[j]))
  }

  lemma UpperBoundIsTight(index: seq<Slot>, addr: U64, m: nat)
    requires Sorted(index) && m < |index| && index[m].addr <= addr
    ensures var k := UpperBound(index, addr); m < k && index[m].addr <= index[k - 1].addr <= addr
  {
    hide UpperBound;
  }

  // The entry in front of the upper bound is that of the last function that starts at or before addr.
  lemma NearestBelow(cache: seq<FuncInfo>, index: seq<Slot>, addr: U64, i: nat)
    requires Indexes(index, cache, |cache|) && i < |cache| && 0 != cache[i].address <= addr
    ensures var k := UpperBound(index, addr);
            k > 0 && cache[i].address <= index[k - 1].addr <= addr
  {
    hide UpperBound, Sorted, FirstAt;
    var m :| 0 <= m < |index| && index[m].addr == cache[i].address;
    UpperBoundIsTight(index, addr, m);
  }

  // Only the nearest start below an address can be that of a function containing it.
  lemma NearestContains(cache: seq<FuncInfo>, index: seq<Slot>, addr: U64, i: nat)
    requires Indexes(index, cache, |cache|) && NonOverlapping(cache)
    requires i < |cache| && Contains(cache[i], addr)
    ensures var k := UpperBound(index, addr);
            && k > 0 && index[k - 1].at < |cache|
            && cache[index[k - 1].at].address == cache[i].address
            && Contains(cache[index[k - 1].at], addr)
  {
    hide Indexes;
    assert Placed(cache[i]);
    NearestBelow(cache, index, addr, i);
    var k := UpperBound(index, addr);
    EntryPointsToFirst(cache, index, k - 1);
    assert Apart(cache[i], cache[index[k - 1].at]);
  }

  lemma EntryPointsToFirst(cache: seq<FuncInfo>, index: seq<Slot>, k: nat)
    requires Indexes(index, cache, |cache|) && k < |index|
    ensures FirstAt(cache, |cache|, index[k].addr, index[k].at)
  {
  }

  lemma EntriesInRange(cache: seq<FuncInfo>, index: seq<Slot>)
    requires Indexes(index, cache, |cache|)
    ensures forall s :: s in index ==> s.at < |cache|
  {
    forall s | s in index ensures s.at < |cache| {
      var k :| 0 <= k < |index| && index[k] == s;
      EntryPointsToFirst(cache, index, k);
    }
  }

  /** The lookup through the index is the linear scan. */
  lemma LookupIsScan(cache: seq<FuncInfo>, index: seq<Slot>, addr: U64)
    requires Indexes(index, cache, |cache|) && NonOverlapping(cache)
    ensures forall s :: s in index ==> s.at < |cache|
    ensures Lookup(cache, index, addr) == Scan(cache, addr)
  {
    hide Indexes, NonOverlapping;
    EntriesInRange(cache, index);
    forall j | 0 <= j < |cache| && Contains(cache[j], addr)
      ensures var k := UpperBound(index, addr);
              k > 0 && cache[index[k - 1].at].address == cache[j].address && Contains(cache[index[k - 1].at], addr)
    {
      NearestContains(cache, index, addr, j);
    }
    var k := UpperBound(index, addr);
    if k == 0 {
      ScanFindsNone(cache, addr);
    } else {
      var at := index[k - 1].at;
      EntryPointsToFirst(cache, index, k - 1);
      PlacedAt(cache, at);
      if Contains(cache[at], addr) {
        ScanFindsFirst(cache, addr, at);
      } else {
        ScanFindsNone(cache, addr);
      }
    }
  }

  lemma PlacedAt(cache: seq<FuncInfo>, i: nat)
    requires NonOverlapping(cache) && i < |cache|
    ensures Placed(cache[i])
  {
  }

  // What the linear scan returns is the name of a function that contains the address.
  lemma {:induction false} ScanMember(cache: seq<FuncInfo>, addr: U64)
    ensures Scan(cache, addr).Some? ==>
              exists i: nat :: i < |cache| && Contains(cache[i], addr) && Scan(cache, addr) == Some(cache[i].name)
  {
    if cache != [] && !Contains(cache[0], addr) && Scan(cache, addr).Some? {
      ScanMember(cache[1..], addr);
      var i: nat :| i < |cache[1..]| && Contains(cache[1..][i], addr)
                    && Scan(cache[1..], addr) == Some(cache[1..][i].name);
      assert cache[1..][i] == cache[i + 1];
    }
  }

  /** A name is found exactly for the addresses inside a function, and it is that function's when
      every function that starts there has the same name. */
  lemma LookupNamesContainer(cache: seq<FuncInfo>, index: seq<Slot>, addr: U64, i: nat)
    requires Indexes(index, cache, |cache|) && NonOverlapping(cache) && i < |cache|
    requires forall s :: s in index ==> s.at < |cache|
    ensures Lookup(cache, index, addr).Some? ==> exists j: nat :: j < |cache| && Contains(cache[j], addr)
    ensures Contains(cache[i], addr) ==> Lookup(cache, index, addr).Some?
    ensures Contains(cache[i], addr)
            && (forall j :: 0 <= j < |cache| && cache[j].address == cache[i].address ==> cache[j].name == cache[i].name)
            ==> Lookup(cache, index, addr) == Some(cache[i].name)
  {
    hide Indexes, NonOverlapping;
    LookupIsScan(cache, index, addr);
    ScanMember(cache, addr);
    if Contains(cache[i], addr) {
      NearestContains(cache, index, addr, i);
      PlacedAt(cache, index[UpperBound(index, addr) - 1].at);
    }
  }

  // Where the addresses that belong to f end: a function without a size is at its start address.
  function End(f: FuncInfo): nat {
    if f.size == 0 then f.address + 1 else f.address + f.size
  }

  ghost predicate AllPlaced(cache: seq<FuncInfo>) {
    forall i :: 0 <= i < |cache| ==> Placed(cache[i])
  }

  /** The function that entry k of the index points to reaches as far as function i does, or up to the
      next start, if that comes first. */
  predicate ReachesAsFar(cache: seq<FuncInfo>, index: seq<Slot>, i: nat, k: nat)
    requires i < |cache| && k < |index| && index[k].at < |cache|
  {
    var end := End(cache[index[k].at]);
    end >= End(cache[i]) || (k + 1 < |index| && end >= index[k + 1].addr)
  }

  /** Every function that starts inside another one reaches as far as that one, or up to the next start. */
  ghost predicate NothingUncovered(cache: seq<FuncInfo>, index: seq<Slot>)
    requires forall s :: s in index ==> s.at < |cache|
  {
    forall i, k :: 0 <= i < |cache| && 0 <= k < |index| && cache[i].address <= index[k].addr < End(cache[i]) ==>
      ReachesAsFar(cache, index, i, k)
  }

  ghost predicate FoundWherever(cache: seq<FuncInfo>, index: seq<Slot>, addr: U64)
    requires forall s :: s in index ==> s.at < |cache|
  {
    (exists i :: 0 <= i < |cache| && Contains(cache[i], addr)) ==> Lookup(cache, index, addr).Some?
  }

  lemma PlacedContains(f: FuncInfo, addr: U64)
    requires Placed(f)
    ensures Contains(f, addr) <==> f.address <= addr < End(f)
    ensures f.size > 0 ==> Wrap(f.address + f.size) == f.address + f.size
  {
  }

  // What the lookup says of an address whose nearest start below is entry k.
  lemma LookupAt(cache: seq<FuncInfo>, index: seq<Slot>, addr: U64, k: nat)
    requires Indexes(index, cache, |cache|) && AllPlaced(cache)
    requires forall s :: s in index ==> s.at < |cache|
    requires k < |index| && index[k].addr <= addr && (k + 1 < |index| ==> addr < index[k + 1].addr)
    ensures cache[index[k].at].address == index[k].addr
    ensures Lookup(cache, index, addr).Some? <==> addr < End(cache[index[k].at])
  {
    hide Indexes, AllPlaced, UpperBound;
    EntryPointsToFirst(cache, index, k);
    IndexIsSorted(cache, index);
    PlacedOf(cache, index[k].at);
    PlacedContains(cache[index[k].at], addr);
    UpperBoundIsTight(index, addr, k);
    assert UpperBound(index, addr) == k + 1;
  }

  lemma IndexIsSorted(cache: seq<FuncInfo>, index: seq<Slot>)
    requires Indexes(index, cache, |cache|)
    ensures Sorted(index)
  {
  }

  lemma PlacedOf(cache: seq<FuncInfo>, i: nat)
    requires AllPlaced(cache) && i < |cache|
    ensures Placed(cache[i])
  {
  }

  // An address inside function i is found if the entry below it reaches far enough.
  lemma CoveredIsFound(cache: seq<FuncInfo>, index: seq<Slot>, addr: U64, i: nat)
    requires Indexes(index, cache, |cache|) && AllPlaced(cache)
    requires forall s :: s in index ==> s.at < |cache|
    requires NothingUncovered(cache, index) && i < |cache| && Contains(cache[i], addr)
    ensures Lookup(cache, index, addr).Some?
  {
    hide Indexes, AllPlaced, Lookup, Contains;
    PlacedOf(cache, i);
    PlacedContains(cache[i], addr);
    NearestBelow(cache, index, addr, i);
    var k := UpperBound(index, addr) - 1;
    assert ReachesAsFar(cache, index, i, k);
    LookupAt(cache, index, addr, k);
  }

  // Where an entry does not reach far enough there is an address that is not found.
  lemma UncoveredIsMissed(cache: seq<FuncInfo>, index: seq<Slot>, i: nat, k: nat)
    requires Indexes(index, cache, |cache|) && AllPlaced(cache)
    requires forall s :: s in index ==> s.at < |cache|
    requires i < |cache| && k < |index| && cache[i].address <= index[k].addr < End(cache[i])
    requires !ReachesAsFar(cache, index, i, k)
    ensures var end := End(cache[index[k].at]);
            end < WORD && Contains(cache[i], end) && Lookup(cache, index, end) == None
  {
    hide Indexes, AllPlaced, Lookup, Contains;
    EntryPointsToFirst(cache, index, k);
    PlacedOf(cache, i);
    var end := End(cache[index[k].at]);
    PlacedContains(cache[i], end);
    LookupAt(cache, index, end, k);
  }

  /** Exactly when the lookup finds every address that lies in some function. */
  lemma FoundExactlyIfCovered(cache: seq<FuncInfo>, index: seq<Slot>)
    requires Indexes(index, cache, |cache|) && AllPlaced(cache)
    requires forall s :: s in index ==> s.at < |cache|
    ensures (forall addr: U64 :: FoundWherever(cache, index, addr)) <==> NothingUncovered(cache, index)
  {
    hide Indexes, AllPlaced, Lookup, Contains, ReachesAsFar;
    if NothingUncovered(cache, index) {
      forall addr: U64 ensures FoundWherever(cache, index, addr) {
        if i :| 0 <= i < |cache| && Contains(cache[i], addr) {
          CoveredIsFound(cache, index, addr, i);
        }
      }
    } else {
      var i, k :| 0 <= i < |cache| && 0 <= k < |index| && cache[i].address <= index[k].addr < End(cache[i])
                  && !ReachesAsFar(cache, index, i, k);
      UncoveredIsMissed(cache, index, i, k);
      assert !FoundWherever(cache, index, End(cache[index[k].at]));
    }
  }

  /** With a function inside the range of another, the lookup can miss what the scan finds: it only
      considers the nearest start below the address. */
  lemma NestedRangesMiss()
    ensures var outer := FuncInfo("outer", "outer", 0x10, 0x20, [], "", false);
            var inner := FuncInfo("inner", "inner", 0x18, 0x4, [], "", false);
            var cache, index := [outer, inner], [Slot(0x10, 0), Slot(0x18, 1)];
            && Indexes(index, cache, 2)
            && Lookup(cache, index, 0x20) == None && Scan(cache, 0x20) == Some("outer")
  {
    var outer := FuncInfo("outer", "outer", 0x10, 0x20, [], "", false);
    var inner := FuncInfo("inner", "inner", 0x18, 0x4, [], "", false);
    var cache, index := [outer, inner], [Slot(0x10, 0), Slot(0x18, 1)];
    assert UpperBound(index[1..], 0x20) == 1 + UpperBound(index[1..][1..], 0x20);
    assert UpperBound(index, 0x20) == 2;
    assert index[0].addr == cache[0].address && index[1].addr == cache[1].address;
  }

  /** So it can with two functions that start together: it only considers the first one. */
  lemma SharedStartMisses()
    ensures var empty := FuncInfo("empty", "empty", 0x10, 0, [], "", false);
            var full := FuncInfo("full", "full", 0x10, 0x20, [], "", false);
            var cache, index := [empty, full], [Slot(0x10, 0)];
            && Indexes(index, cache, 2)
            && Lookup(cache, index, 0x18) == None && Scan(cache, 0x18) == Some("full")
  {
    var empty := FuncInfo("empty", "empty", 0x10, 0, [], "", false);
    var full := FuncInfo("full", "full", 0x10, 0x20, [], "", false);
    var cache, index := [empty, full], [Slot(0x10, 0)];
    assert UpperBound(index, 0x18) == 1 + UpperBound(index[1..], 0x18);
    assert index[0].addr == cache[0].address == cache[1].address;
    ScanFindsFirst(cache, 0x18, 1);
  }
}
