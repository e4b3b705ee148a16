/** Which calls of a function a breakpoint tracer that follows one call at a time reports. */
module Selection {
  import opened Words
  import opened Machine
  import opened Ptrace

  // Some call of the function has no readable return address.
  ghost predicate ReturnUnreadable(p: Program, entry: int) {
    exists n: nat :: Hit(p, entry, n) && ReturnAddress(p, n).None?
  }

  // n is the first position from `from` on at which the untraced run reaches a.
  ghost predicate FirstHit(p: Program, a: int, from: nat, n: nat) {
    from <= n && Hit(p, a, n) && NoHit(p, a, from, n)
  }

  // The address at which stop k is due: the entry and, after each entry, its return address.
  function DueAddress(p: Program, entry: int, log: seq<Reading>, k: nat): Option<int>
    requires k <= |log|
  {
    if k % 2 == 0 then Some(entry)
    else if log[k - 1].pos <= |p.tape| then ReturnAddress(p, log[k - 1].pos)
    else None
  }

  function Since(log: seq<Reading>, k: nat): nat
    requires k <= |log|
  {
    if k == 0 then 0 else log[k - 1].pos
  }

  ghost predicate StopIsNext(p: Program, entry: int, log: seq<Reading>, k: nat)
    requires k < |log|
  {
    var due := DueAddress(p, entry, log, k);
    due.Some? && FirstHit(p, due.value, Since(log, k), log[k].pos)
  }

  /** The stops alternate between the first arrival at the entry since the previous return and
      the first arrival at that call's return address since its entry. */
  ghost predicate Selects(p: Program, entry: int, log: seq<Reading>) {
    forall k :: 0 <= k < |log| ==> StopIsNext(p, entry, log, k)
  }

  lemma SelectsOneMore(p: Program, entry: int, log: seq<Reading>, r: Reading)
    requires Selects(p, entry, log)
    requires var due := DueAddress(p, entry, log, |log|);
             due.Some? && FirstHit(p, due.value, Since(log, |log|), r.pos)
    ensures Selects(p, entry, log + [r])
  {
    var more := log + [r];
    forall k | 0 <= k < |more|
      ensures StopIsNext(p, entry, more, k)
    {
      if k < |log| {
        assert StopIsNext(p, entry, log, k);
      }
    }
  }

  /** At position pos, after the stops in the log, the next stop is due at `awaited`; the untraced
      run has not been there since the last one. */
  ghost predicate Due(p: Program, entry: int, awaited: int, log: seq<Reading>, pos: nat) {
    && pos <= |p.tape|
    && Selects(p, entry, log)
    && DueAddress(p, entry, log, |log|) == Some(awaited)
    && Since(log, |log|) <= pos
    && NoHit(p, awaited, Since(log, |log|), pos)
  }

  lemma DueLater(p: Program, entry: int, awaited: int, log: seq<Reading>, pos: nat, later: nat)
    requires Due(p, entry, awaited, log, pos)
    requires pos <= later <= |p.tape| && NoHit(p, awaited, pos, later)
    ensures Due(p, entry, awaited, log, later)
  {
  }

  lemma DueAfterStop(p: Program, entry: int, awaited: int, log: seq<Reading>, r: Reading, next: int)
    requires Due(p, entry, awaited, log, r.pos) && Hit(p, awaited, r.pos)
    requires if |log| % 2 == 0 then ReturnAddress(p, r.pos) == Some(next) else next == entry
    ensures Due(p, entry, next, log + [r], r.pos)
  {
    SelectsOneMore(p, entry, log, r);
  }

  // The breakpoint stands at the entry or at the return address of a call of the function.
  lemma DueIsPatchTarget(p: Program, entry: int, awaited: int, log: seq<Reading>, pos: nat)
    requires Due(p, entry, awaited, log, pos)
    ensures PatchTarget(p, entry, awaited)
  {
    hide ReturnAddress, Replay;
    if |log| % 2 == 1 {
      assert StopIsNext(p, entry, log, |log| - 1);
    }
  }

  // The untraced run alone decides where the stops are.
  lemma {:induction false} SelectionIsUnique(p: Program, entry: int, a: seq<Reading>, b: seq<Reading>, k: nat)
    requires Selects(p, entry, a) && Selects(p, entry, b)
    requires k < |a| && k < |b|
    ensures a[k].pos == b[k].pos
  {
    if k > 0 {
      SelectionIsUnique(p, entry, a, b, k - 1);
    }
    assert StopIsNext(p, entry, a, k) && StopIsNext(p, entry, b, k);
    var due := DueAddress(p, entry, a, k).value;
    assert FirstHit(p, due, Since(a, k), a[k].pos) && FirstHit(p, due, Since(a, k), b[k].pos);
  }

  // The call entered at i returns at j: back at its return address with that word popped.
  ghost predicate PopsBack(p: Program, i: nat, j: nat) {
    && i < j <= |p.tape| && ReturnAddress(p, i).Some?
    && Hit(p, ReturnAddress(p, i).value, j)
    && Replay(p, j).regs.sp == Wrap(Replay(p, i).regs.sp + 8)
  }

  ghost predicate ReturnsAt(p: Program, i: nat, j: nat) {
    PopsBack(p, i, j) && forall q: nat :: i < q < j ==> !PopsBack(p, i, q)
  }

  /** A reported pair of stops is a call and its own return exactly when the stack pointer at the
      second stop is that of the caller. It is not when the run passes the return address inside
      the call, as recursion through one call site does. */
  lemma ReportedIsActivation(p: Program, entry: int, log: seq<Reading>, k: nat)
    requires Selects(p, entry, log) && 2 * k + 1 < |log|
    ensures var i, j := log[2 * k].pos, log[2 * k + 1].pos;
            Hit(p, entry, i) && j < |p.tape| &&
            (ReturnsAt(p, i, j) <==> i < j && Replay(p, j).regs.sp == Wrap(Replay(p, i).regs.sp + 8))
  {
    hide ReturnAddress, Replay;
    assert StopIsNext(p, entry, log, 2 * k) && StopIsNext(p, entry, log, 2 * k + 1);
  }

  /** A call that returns at r is paired with that return exactly when the run has not passed its
      return address before. */
  lemma PairedUnlessPassed(p: Program, entry: int, log: seq<Reading>, k: nat, r: nat)
    requires Selects(p, entry, log) && 2 * k + 1 < |log| && ReturnsAt(p, log[2 * k].pos, r)
    ensures log[2 * k + 1].pos == r <==> NoHit(p, ReturnAddress(p, log[2 * k].pos).value, log[2 * k].pos, r)
  {
    hide Replay, ReturnAddress;
    assert StopIsNext(p, entry, log, 2 * k) && StopIsNext(p, entry, log, 2 * k + 1);
  }

  // No selected call returns to the entry of the function.
  ghost predicate ReturnsElsewhere(p: Program, entry: int, log: seq<Reading>) {
    forall k :: 0 <= k < |log| && k % 2 == 1 ==> DueAddress(p, entry, log, k) != Some(entry)
  }

  /** Reported calls do not overlap: the stops come in the order of the run, each strictly behind the
      one before unless a call returns to the entry itself. */
  lemma {:induction false} StopsInOrder(p: Program, entry: int, log: seq<Reading>, k: nat, m: nat)
    requires Selects(p, entry, log) && k <= m < |log|
    ensures log[k].pos <= log[m].pos
    ensures k < m && ReturnsElsewhere(p, entry, log) ==> log[k].pos < log[m].pos
    decreases m
  {
    hide Replay, ReturnAddress;
    if k < m {
      assert StopIsNext(p, entry, log, m) && StopIsNext(p, entry, log, m - 1);
      StopsInOrder(p, entry, log, k, m - 1);
    }
  }

  // Position q lies within the k-th call among the first n stops: reported, or still open.
  ghost predicate Covered(log: seq<Reading>, n: nat, q: nat, k: nat)
    requires n <= |log|
  {
    2 * k < n && log[2 * k].pos <= q && (2 * k + 1 < n ==> q < log[2 * k + 1].pos)
  }

  /** No call is skipped between two reported ones: every arrival at the entry so far lies
      within a reported call or within the one that is open. */
  lemma {:induction false} NoCallSkipped(p: Program, entry: int, log: seq<Reading>, n: nat, upTo: nat, q: nat)
    requires Selects(p, entry, log) && n <= |log|
    requires n % 2 == 0 ==> NoHit(p, entry, Since(log, n), upTo)
    requires q < upTo && Hit(p, entry, q)
    ensures exists k: nat :: Covered(log, n, q, k)
    decreases n
  {
    if n > 0 {
      assert StopIsNext(p, entry, log, n - 1);
      var last := log[n - 1].pos;
      if n % 2 == 1 && last <= q {
        assert Covered(log, n, q, n / 2);
      } else if q < last {
        NoCallSkipped(p, entry, log, n - 1, last, q);
        var k: nat :| Covered(log, n - 1, q, k);
        assert Covered(log, n, q, k);
      }
    }
  }

  // Every arrival at the entry before upTo lies within a selected call.
  ghost predicate NoneMissed(p: Program, entry: int, log: seq<Reading>, upTo: nat) {
    forall q: nat :: q < upTo && Hit(p, entry, q) ==> exists k: nat :: Covered(log, |log|, q, k)
  }

  lemma DueMissesNone(p: Program, entry: int, log: seq<Reading>, pos: nat)
    requires Selects(p, entry, log) && (|log| % 2 == 0 ==> NoHit(p, entry, Since(log, |log|), pos))
    ensures NoneMissed(p, entry, log, pos)
  {
    hide Selects;
    forall q: nat | q < pos && Hit(p, entry, q) ensures exists k: nat :: Covered(log, |log|, q, k) {
      NoCallSkipped(p, entry, log, |log|, pos, q);
    }
  }

  // The return address of the last call in the log.
  function LastReturn(p: Program, log: seq<Reading>): Option<U64> {
    if log == [] || log[(|log| - 1) / 2 * 2].pos > |p.tape| then None
    else ReturnAddress(p, log[(|log| - 1) / 2 * 2].pos)
  }

  /** What an exception out of the loop can leave: the original text, or one breakpoint at the entry
      or at the return address of the last call. */
  ghost predicate Leftover(p: Program, entry: int, log: seq<Reading>, text: Memory) {
    || text == p.text
    || text == Planted(p.text, entry)
    || (LastReturn(p, log).Some? && text == Planted(p.text, LastReturn(p, log).value))
  }

  // A due return address is that of the last call.
  lemma DueIsLastReturn(p: Program, entry: int, log: seq<Reading>)
    requires Selects(p, entry, log) && |log| % 2 == 1
    ensures var due := DueAddress(p, entry, log, |log|);
            if due.Some? then LastReturn(p, log).Some? && LastReturn(p, log).value == due.value
            else LastReturn(p, log).None?
  {
    assert StopIsNext(p, entry, log, |log| - 1);
  }
}
