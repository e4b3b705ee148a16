# A verified model of uatu

uatu attaches to a running C++ process and observes it with three commands. `trace` times calls of a
function and `stack` samples call stacks; both put an INT3 breakpoint into the text of the live
process through ptrace. `watch` reports calls with their arguments through eBPF probes, a ring
buffer and a join in user space. Its motto is "Attach. Observe. Never interfere." This project
models the parts on which that promise rests and proves what they keep, over every run.

## How the model is laid out

| file | what it models |
|---|---|
| `Words.dfy` | bytes, 64-bit words, 8-byte peeks and pokes over possibly overlapping windows |
| `Machine.dfy` | the target: an x86_64-like processor with an arbitrary instruction set, its untraced run, and how it runs on a text with a breakpoint |
| `Ptrace.dfy` | the target behind ptrace: run states, requests that fail on a target in the wrong state or for reasons of the kernel's own |
| `Breakpoints.dfy` | `insert_breakpoint`, `restore_word`, and what a breakpoint does to a run |
| `Selection.dfy` | which calls a one-breakpoint tracer selects |
| `Schedule.dfy` | where a tracing loop leaves its target, as a function of the untraced run, the schedule and the requests that fail |
| `Stepping.dfy` | what both tracing loops do between their stops: wait, forward a signal, continue |
| `SampleTarget.dfy` | small targets that meet all that is asked of targets: a plain call, recursion, and two ways to be let go of one byte behind |
| `TraceEngine.dfy`, `StackEngine.dfy` | the two ptrace commands as imperative sessions, from attach to detach, with guards and clean-up |
| `Frames.dfy` | the frame-pointer walk and the naming of addresses |
| `Symbols.dfy`, `Dies.dfy`, `TypeNames.dfy` | the function table, its indexes, the traversal of debug entries, spelled types |
| `Params.dfy`, `Escaping.dfy`, `Hex.dfy` | argument registers, decoded values, captured strings |
| `BpfMaps.dfy`, `Watch.dfy`, `WatchJoin.dfy` | the probes of `watch`, its lossy ring, and the user-side join |
| `Depth.dfy` | the depth counter of the call-tree probes |

The outside world enters as parameters that are universally quantified: the instruction set and the
effect of signals, the target's future (a tape of moves), which ptrace requests fail, what the clock
shows, how far the target gets during each wait, where the deadline falls, the interleaving of
threads, and which ring-buffer events are dropped.

## What is proved

* **Never interfere.** For an `Observable` target (no SIGTRAP of its own; every patched address starts
  an instruction, and no executed instruction reaches over it), the traced run, with the breakpoint
  stops erased, is a prefix of the untraced run: at every loop head, and at every normal return whose
  last stop was waited for, the registers and memory are those of the untraced run at that position
  and every signal has been delivered once and in order.
* **Restoration.** Every loop head has exactly one patched byte. Every normal return leaves the
  original text. Every exception out of the `stack` loop does too once the guard's writes succeed; out
  of the `trace` loop the return-address byte stays patched if it lies outside the eight bytes that
  the guard writes. Which byte stays, if any, is an exact function of the run and of the failing requests.
* **Protocol.** PTRACE_CONT, waits, register and memory requests meet the run state they need, except for
  the clean-up of a target that still runs and the detach from one that has not stopped for the attach.
* **Outcome.** The untraced run, the count, the schedule and the requests that fail decide how a command ends: normally
  or by which exception and at which request, with how many results, and in which state it leaves the target:
  position, registers, memory, text and run state.
* **Exceptions.** An exception out of the loop names the request that threw. It leaves the whole state of the target,
  memory included, as in the untraced run if the target had been set back, and with the program counter one byte too
  far otherwise; no signal is lost.
* **Selection.** `trace` reports a greedy selection of calls which the untraced run alone determines;
  none is skipped in between; `stack` samples the same selection.
* **Watch.** Durations are the call's own or 0 under every interleaving and every loss. Arguments are
  the call's own or absent as long as nothing of that thread is dropped while the call is open, and otherwise under
  an exact condition. The duration of a call inside which no other is entered is
  exact while there is room for the time stamps of all threads inside.
* **Depth.** The counter is right throughout a run exactly when the maps and the counter are large
  enough; a thread's events are then the depth-labelled walk of its call forest.
* **Symbols, frames, types, texts.** The traversal is complete, ordered and free of duplicates; the
  index lookup is a linear scan for disjoint ranges, and misses nothing under an exact condition; a sample on a
  well-formed frame chain names the callers in order; the classification by spelling agrees with the type tree;
  captured strings and numbers read back.

## Where the code differs from its own description

* The comment at `src/engine/attach_engine.cpp:390` says that all patched bytes are restored. The clean-up
  pokes, and a poke needs a stopped target. A loop that ends at its head behind a breakpoint stop, or with its
  count reached, meets one; a loop whose wait runs out, or that ends at its head behind a forwarded signal,
  meets a running one unless a stop comes in between. Then the command throws with the guard already off: the
  INT3 byte stays and nothing detaches. The command returns normally exactly when `Schedule.Ending`, a function of the
  untraced run, the count, the schedule and the fates of the requests, has thrown nothing, is a stopped target, and
  the writes of the clean-up are granted (`TraceEngine.Trace`, `StackEngine.Stack`). It is a running target exactly
  when nothing stops it any more from the head of some round on (`Schedule.EndsRunningExactly`), and one that has ended
  exactly when it was killed or the untraced run ended first (`Schedule.EndsStoppedOrGone`).
* A stop that came too late to be waited for is not handled: the target is let go with its program counter
  one byte behind the removed breakpoint, or its signal is lost. The target is released in step
  exactly when its last stop was waited for (the same members, and `Breakpoints.LetGoInStep`;
  `SampleTarget.LateStopIsMissed` shows it).
* An attach that was granted and whose stop does not come within five seconds is left in place, since the detach that
  follows is refused: exactly when the target has made no move towards its stop (`Breakpoints.Arm`,
  `TraceEngine.Trace`, `StackEngine.Stack`).
* A negative count makes `reserve` throw (`src/engine/attach_engine.cpp:529` and `:702`) when the target has been
  attached and has stopped, and before the guard exists: it stays attached and stopped. The command line passes negative
  counts on (`src/cli/main.cpp:83`). This happens exactly when the attach is granted and its stop comes in time
  (`Barred` in `Breakpoints.dfy`).
* The guard of `trace` knows the entry only (`TraceEngine.TraceSession.Guard`). No guard sets the program counter
  back: an exception out of a loop leaves it one byte too far unless the request that threw plants a breakpoint after
  PTRACE_SETREGS (`Breakpoints.ExactlyIfSetBack`). `stack` does that in both branches and `trace` in its return branch;
  in the entry branch of `trace` PTRACE_SETREGS comes last, so there every exception does.
  `SampleTarget.RefusedRegistersLeaveOneBehind` runs `trace` into one.
* Both clean-ups skip a return address of 0; nothing is patched there unless address 0 is text.
* A failure to write the first breakpoint comes before the guard exists, so nothing detaches: exactly when the target
  has stopped in time, the count is not negative, and the read or the write of the word is refused.
* A pair of stops of `trace` is a call and its own return unless the run passes the return address
  earlier, as recursion through one call site does (`Selection.ReportedIsActivation`,
  `Selection.PairedUnlessPassed`; `SampleTarget.RecursionIsMispaired` shows it).
* `lookup_by_addr` considers the nearest start below the address only. It misses addresses of a function in whose
  range another one starts that reaches neither as far nor up to the next start (`Symbols.NestedRangesMiss`), and of
  a function behind a shorter one with the same start (`Symbols.SharedStartMisses`); it finds every address
  exactly when there is neither (`Symbols.FoundExactlyIfCovered`).
* `return_type` is never filled in (`src/dwarf/symbol_finder.cpp:172-176`), so return values of `watch`
  are always unsigned decimals; a `void*` has the type name "?" and shows as a decimal.
* Unsigned and enumeration arguments show the whole register, so a narrow one is wrong when the bits above
  it are set (`Params.UnsignedReadsBack`).
* Demangled names are cut at the first parenthesis. Functions whose demangled name begins with one, such as members
  of an anonymous namespace at the top, are not collected (`Dies.CollectedUnlessParenthesized`); inside a named scope
  such members all go by the name of that scope (`Dies.AnonymousNamespaceLosesName`); call operators go by
  `operator` alone (`Dies.CallOperatorLosesName`), and `find` returns the first of a name.
* A dropped entry event of a recursive call makes `watch` report the arguments of the call around it, and a dropped
  exit event those of the call inside (`WatchJoin.LostEntryMisattributes`, `WatchJoin.LostExitMisattributes`).
  An exit is reported with what the last entry event of its thread yields unless an exit of the same target stands
  between them. The entry joined is its own or none exactly under the condition of `WatchJoin.OwnEntryOrNone`, and
  the text shown exactly under that of `WatchJoin.OwnOrNoneExactly`.

## Model

| member | source | states |
|---|---|---|
| Words.PeekSaves | src/engine/attach_engine.cpp:451-475 | a word read through an 8-byte window holds every text byte of that window, so writing it back loses nothing |
| Words.PatchPlants | include/uatu/platform/arch.h:35-37 | reading a word and writing its patched form changes exactly one byte of text, to 0xCC |
| Words.PokeRestores | src/engine/attach_engine.cpp:478-480 | writing a saved word over a text with one breakpoint anywhere restores the original exactly when the breakpoint lies in the window, also when windows overlap |
| Machine.ObservableIsTransparent | src/engine/attach_engine.cpp:382-390 | at any address the tracer may patch, no other instruction of the untraced run executes differently |
| Machine.PlantedElsewhere | include/uatu/platform/arch.h:31-37 | a breakpoint outside the bytes of an instruction does not change what is decoded there, given only that an instruction's bytes determine its length |
| Machine.AdvanceSimulates | src/engine/attach_engine.cpp:572-647 | stuttering simulation, for runs of any length: on a text with one breakpoint the target does what the untraced run does and traps exactly when that run arrives at the address |
| SampleTarget.ObservableTargetsExist | src/engine/attach_engine.cpp:382-390 | the hypotheses on targets can be met by one that enters the function and returns from it |
| SampleTarget.RecursionIsMispaired | src/engine/attach_engine.cpp:605-640 | a target that meets the hypotheses and whose selected log pairs the entry of an outer call with the return of an inner one |
| SampleTarget.LateStopIsMissed | src/engine/attach_engine.cpp:582-588 | a target and two schedules with which the clean-up finds a breakpoint stop that was not waited for, so that the target is let go of one byte behind |
| SampleTarget.RefusedRegistersLeaveOneBehind | src/engine/attach_engine.cpp:539-600 | a run of the whole trace command in which only PTRACE_GETREGS at the first stop is refused: the target is released with its program counter one byte too far |
| Ptrace.Tracee.Elapse | src/engine/attach_engine.cpp:484-495 | a running target advances by the moves of its run up to the first stop; a stopped one stays |
| Ptrace.Tracee.Cont | src/engine/attach_engine.cpp:577-579 | continuing works on a stopped target only, uses up a pending signal, and delivers the signal passed |
| Ptrace.Tracee.Wait | src/engine/attach_engine.cpp:484-495 | a wait reports the stop in time or times out, perhaps after the target has stopped unseen |
| Ptrace.Tracee.GetRegs | include/uatu/platform/arch.h:15-20 | registers are had from a stopped target only, if the kernel grants it |
| Ptrace.Tracee.SetRegs | include/uatu/platform/arch.h:21-24 | registers are set on a stopped target only, all or none |
| Ptrace.Tracee.Peek | src/engine/attach_engine.cpp:451-458 | words are read from a stopped target with eight mapped bytes only |
| Ptrace.Tracee.Poke | src/engine/attach_engine.cpp:462-467 | words are written to a stopped target only, byte by byte into text and data |
| Breakpoints.InsertBreakpoint | src/engine/attach_engine.cpp:469-475 | on success the text is the original with one breakpoint and the returned word is the original one; on failure nothing has changed, and on stopped text it fails if and only if one of its two requests does |
| Breakpoints.Arm | src/engine/attach_engine.cpp:512-535 | with nothing failing and the stop in time the target ends up stopped with one patch at the entry; each exception has its exact condition (attach refused or no stop in time, negative count, read or write of the first breakpoint refused), leaves the text untouched, and its run state is known: the attach stays in place if and only if it was granted and the target has not come to its stop |
| Breakpoints.RestoreWord | src/engine/attach_engine.cpp:478-480 | succeeds exactly on a stopped target the kernel lets write; removes the one breakpoint if its window covers it; leaves data and registers alone |
| Breakpoints.AdvanceObserved | src/engine/attach_engine.cpp:572-598 | a target running with the breakpoint at a patch target stays in step, and its other stops are signals, never SIGTRAP |
| Breakpoints.BehindIsFound | include/uatu/platform/arch.h:31-33 | a target that hit the breakpoint is found by PC minus one; setting PC back, and nothing less, makes its state that of the untraced run |
| Breakpoints.LetGoInStep | src/engine/attach_engine.cpp:649-656 | a target let go of is in step, with no signal lost, if and only if its last stop was waited for |
| Breakpoints.ExactlyIfSetBack | src/engine/attach_engine.cpp:605-640 | where an exception out of the loop finds the target, its state is the untraced one if and only if it had been set back, and its memory is in any case |
| Breakpoints.SetBackUnlessRefused | src/engine/attach_engine.cpp:784-850 | under stack, in either branch, the target has not been set back, where an exception finds it, if and only if the write of the saved word or that of the registers was refused |
| Ptrace.Tracee.Detach | src/engine/attach_engine.cpp:656 | lets a stopped target go, losing the signal of a stop that was not forwarded, or kills it when refused; no effect on any other |
| Stepping.Await | src/engine/attach_engine.cpp:586-592 | for both commands: after a wait the target is in step, or one byte behind the breakpoint if it trapped; a reported SIGTRAP is the breakpoint; position and run state are the scheduled ones |
| Stepping.Forward | src/engine/attach_engine.cpp:592-598 | for both commands: a signal stop is passed on once, with its own signal, and leaves the target in step |
| Stepping.Resume | src/engine/attach_engine.cpp:577-579 | for both commands: one request exactly where it is due, after which the target runs on from where it stopped, or has been killed |
| Stepping.Drift | src/engine/attach_engine.cpp:571-654 | for both commands: a target left alone after the loop goes on to its next stop as the untraced run has it |
| Selection.SelectionIsUnique | src/engine/attach_engine.cpp:605-640 | the untraced run alone decides at which positions the stops are, whatever the clock and the schedule |
| Selection.ReportedIsActivation | src/engine/attach_engine.cpp:605-640 | a reported pair is a call and its own return if and only if the stack pointer at the second stop is that of the caller |
| Selection.PairedUnlessPassed | src/engine/attach_engine.cpp:613-640 | a call that returns is paired with that return if and only if the run has not passed its return address before |
| Selection.StopsInOrder | src/engine/attach_engine.cpp:605-640 | the stops come in the order of the run, strictly so unless a call returns to the entry itself: reported calls are disjoint |
| Selection.NoCallSkipped | src/engine/attach_engine.cpp:572-647 | every arrival at the entry so far lies within a reported call or the open one: none is skipped in between |
| Selection.DueMissesNone | src/engine/attach_engine.cpp:572-657 | none is missed from the attach up to where the target is let go |
| Schedule.AdvanceIsAhead | src/engine/attach_engine.cpp:484-495 | during a wait the target halts where the untraced run has its next signal or arrives at the awaited address |
| Schedule.OnTheWayIfQuiet | src/engine/attach_engine.cpp:586-588 | a wait of n moves runs out if and only if these moves have no signal and no arrival |
| Schedule.CountReachedReturns | src/engine/attach_engine.cpp:571-657 | a command that reaches its count finds the target stopped and waited for, whatever fails |
| Schedule.StopEndsRounds | src/engine/attach_engine.cpp:573-575 | once a stop has been requested or the deadline has passed at the head of a round, the course is that of the rounds before: nothing that comes later matters |
| Schedule.LateToWaitEndsRounds | src/engine/attach_engine.cpp:577-587 | a round in which the deadline passes before the wait does one PTRACE_CONT at most and is the last |
| Schedule.StoppedAtOnce | src/engine/attach_engine.cpp:571-575 | a command that is stopped before its first round, or wants no results, leaves its target as the attach found it |
| Schedule.StoppedHeadReturns | src/engine/attach_engine.cpp:572-575 | a loop that ends at its head with the target stopped, for a stop requested, a deadline passed or its count, hands it over stopped |
| Schedule.EndsRunningExactly | src/engine/attach_engine.cpp:572-654 | whatever fails, the clean-up meets a running target if and only if nothing stops it any more from the head of some round on whose PTRACE_CONT is granted, or from a forwarded signal behind which the loop ends |
| Schedule.EndsStoppedOrGone | src/engine/attach_engine.cpp:572-654 | whatever fails, the clean-up finds a target that has stopped and been waited for if and only if the loop ends at its head with the target stopped, and one that has ended if and only if a PTRACE_CONT was refused or the untraced run ends before anything stops it |
| Schedule.EndedIfRunsOut | src/engine/attach_engine.cpp:484-495 | a wait sees the end of the target if and only if the run ends within it and has no signal or arrival before |
| Schedule.ThrowsExactly | src/engine/attach_engine.cpp:572-646 | the loop throws if and only if a request made at the last stop is refused or, under trace, the return address there cannot be read, and which request throws is known; if it was granted, some call of the function has no readable return address |
| Selection.DueIsPatchTarget | src/engine/attach_engine.cpp:613-620 | the breakpoint is only ever put at the entry or at the return address of a real call of the function |
| TraceEngine.TraceSession.constructor | src/engine/attach_engine.cpp:534-559 | the session starts with one patch, at the entry, and a guard that holds the original word |
| TraceEngine.TraceSession.PlantReturn | src/engine/attach_engine.cpp:613-618 | moves the target to the entry and the patch to the address on top of its stack; fails exactly for want of that address or of one of its four requests, names the one that threw, and leaves at most that patch |
| TraceEngine.TraceSession.OnEntry | src/engine/attach_engine.cpp:605-620 | the one patch moves from the entry to the return address and PC is set back; which request throws, if one does, is an exact function of the fates, and then registers and memory are as they were and the text is one the guard can deal with |
| TraceEngine.TraceSession.OnReturn | src/engine/attach_engine.cpp:622-640 | one node with exact elapsed time and return register; the patch moves back to the entry even where the two windows overlap; which request throws is exact, and the state has been set back exactly if it is one of the patch at the entry |
| TraceEngine.TraceSession.SetBack | src/engine/attach_engine.cpp:632-640 | sets PC back and patches the entry again, or leaves the original text and names the request that threw |
| TraceEngine.TraceSession.EntryInStep | src/engine/attach_engine.cpp:605-620 | after the entry branch the target's whole state is that of the untraced run at the same position |
| TraceEngine.TraceSession.ReturnInStep | src/engine/attach_engine.cpp:622-640 | after the return branch likewise, and the new node is that of the call just completed |
| TraceEngine.TraceSession.AwaitStop | src/engine/attach_engine.cpp:586-592 | after a wait the target is in step, or one byte behind the breakpoint if it trapped; a reported SIGTRAP is the breakpoint |
| TraceEngine.TraceSession.Forward | src/engine/attach_engine.cpp:592-598 | a signal stop is passed on once, with its own signal, and leaves the target in step |
| TraceEngine.TraceSession.React | src/engine/attach_engine.cpp:600-646 | whichever branch a trap takes keeps one patch and the target in step; it throws exactly when the fates of its requests say so, the whole state is then the untraced one or one byte behind according to the request that threw, and at most one patch is left, at the entry or the return address of the last call |
| TraceEngine.TraceSession.OnStop | src/engine/attach_engine.cpp:590-646 | after a handled stop need_cont says whether the target is stopped; the course is the scheduled one, whatever fails, up to the request that throws and the text it leaves |
| TraceEngine.TraceSession.Round | src/engine/attach_engine.cpp:572-646 | one round keeps the loop invariant, ends the loop or throws, exactly as the schedule and the fates of its requests have it |
| TraceEngine.TraceSession.Loop | src/engine/attach_engine.cpp:571-647 | invariant over every run: one patch, need_cont iff stopped, no misuse of ptrace, target in step; on exit why the loop ended, in which run state, stopped and waited for if the count is reached; and the scheduled course, whatever fails; no round is begun once a stop is requested or the deadline has passed, so that no more stops are reported than there are rounds before |
| TraceEngine.TraceSession.Guard | src/engine/attach_engine.cpp:539-552 | the guard restores the text except for a return-address byte outside the eight bytes from the entry on; it detaches, and changes neither registers nor memory |
| TraceEngine.TraceSession.Abandon | src/engine/attach_engine.cpp:539-552 | an exception out of the loop leaves the state of the target untraced or one byte behind, loses no signal, and leaves at most the byte at the return address of the last call, and the entry byte only if the guard's write is refused |
| TraceEngine.TraceSession.CleanUp | src/engine/attach_engine.cpp:649-654 | the clean-up removes the patch from a stopped target and fails, changing nothing, on any other; on a stopped one it fails exactly if one of its one or two writes is refused, and then the text is known; it misuses ptrace exactly on a running one |
| TraceEngine.TraceSession.Finish | src/engine/attach_engine.cpp:649-657 | what follows the loop ends normally, with the text restored, exactly for a stopped target whose clean-up is granted, and otherwise throws; position, registers, memory, text and number of requests are known |
| TraceEngine.TraceSession.Conclude | src/engine/attach_engine.cpp:649-658 | the same as the outcome of the command: what every normal return and every exception of the clean-up keeps |
| TraceEngine.Trace | src/engine/attach_engine.cpp:497-658 | what every outcome keeps: restoration, the byte and the whole state that an exception leaves, detaching, the only misuses of ptrace, selected calls with exact times and return registers and none missed; exactly when each exception before the loop occurs and in which run state; and for every observable target, every schedule and any failing requests, which outcome it is, at which request it throws, and the state, text and position it leaves, as a function of them; a stop requested or a deadline passed ends it before the next round, and before the first one it neither continues nor changes the target |
| StackEngine.StackSession.constructor | src/engine/attach_engine.cpp:728-756 | the session starts with one patch that the guard knows |
| StackEngine.StackSession.WalkChain | src/engine/attach_engine.cpp:810-817 | the loop visits what the recursive walk over the same, possibly failing, reads visits |
| StackEngine.StackSession.WalkStack | src/engine/attach_engine.cpp:803-818 | a sample is the function followed by the names of the addresses the walk yields |
| StackEngine.StackSession.Disarm | src/engine/attach_engine.cpp:787-792 | takes the patch out of the entry and sets PC back; fails exactly if one of its two requests does |
| StackEngine.StackSession.TakeSample | src/engine/attach_engine.cpp:787-820 | the text is restored and PC set back before the stack is read, so the sample shows the stack at the arrival; it fails exactly if one of those two requests does, and the target is then where it was |
| StackEngine.StackSession.Rearm | src/engine/attach_engine.cpp:822-837 | one patch again, at the return address or, only if that cannot be read, at the entry; fails exactly if a request of the patch does, with the target set back |
| StackEngine.StackSession.OnReturn | src/engine/attach_engine.cpp:839-849 | the patch moves back to the entry; which request throws is exact, the state has been set back exactly if it is one of the patch at the entry, and a throw at any request leaves what the guard restores |
| StackEngine.StackSession.FollowCall | src/engine/attach_engine.cpp:820-837 | behind a sample the command is done or waits for the return of the call, or for the next arrival if its return address could not be had; it throws exactly if a request of the new patch is refused, with the target set back; the record holds the sample |
| StackEngine.StackSession.React | src/engine/attach_engine.cpp:784-850 | whichever branch a trap takes keeps the target in step and makes the scheduled step; which request throws is known, the whole state is then untraced or one byte behind accordingly, and so is the text |
| StackEngine.StackSession.Round | src/engine/attach_engine.cpp:759-850 | one round keeps the loop invariant, ends the loop or throws, exactly as the schedule and the fates of its requests have it |
| StackEngine.StackSession.Loop | src/engine/attach_engine.cpp:759-851 | invariant over every run: one patch, need_cont iff stopped, no misuse of ptrace, target in step; after any throw the text has no patch the guard does not know; and the scheduled course, whatever fails; no round is begun once a stop is requested or the deadline has passed, so that no more stops are reported than there are rounds before |
| StackEngine.StackSession.Guard | src/engine/attach_engine.cpp:734-756 | once the guard's writes succeed the whole text is the original one; with one patch at a patch target it writes once at most, and neither registers nor memory change |
| StackEngine.StackSession.Abandon | src/engine/attach_engine.cpp:734-756 | an exception out of the loop leaves the state of the target untraced or one byte behind, loses no signal, and leaves a patch only if a write of the guard is refused |
| StackEngine.StackSession.CleanUp | src/engine/attach_engine.cpp:853-857 | the clean-up removes whatever patch is left from a stopped target, and fails without effect on a running one that is patched or when its one write is refused |
| StackEngine.Stack | src/engine/attach_engine.cpp:673-860 | what every outcome keeps: restoration, the byte and the whole state that an exception leaves, detaching, the only misuses of ptrace, samples that show the untraced run's stack and say which requests took them, selected like the calls of trace unless a return address behind a sample could not be read; exactly when each exception before the loop occurs and in which run state; and for every observable target, every schedule and any failing requests, which outcome it is, at which request it throws, and the state, text and position it leaves, as a function of them; a stop requested or a deadline passed ends it before the next round, and before the first one it neither continues nor changes the target |
| StackEngine.SampleShowsCallChain | src/engine/attach_engine.cpp:803-818 | end to end: a sample whose own requests succeed, taken on a well-formed frame chain, lists the function, its caller and the callers' callers by name, sixteen frames in all if there are as many |
| StackEngine.FinderNames | src/engine/attach_engine.cpp:708-716 | a finder that has been asked once names addresses through a complete index of its table |
| Frames.WalkClimbs | src/engine/attach_engine.cpp:810-817 | on arbitrary memory and with arbitrary read failures the frame pointers looked at are aligned and strictly increase, at two requests each |
| Frames.AtMostSixteenFrames | src/engine/attach_engine.cpp:803-818 | a sample never has more than 16 frames |
| Frames.WalkFollowsChain | src/engine/attach_engine.cpp:810-817 | on a well-formed chain the walk yields its return addresses in order, up to the steps allowed |
| Frames.WalkIsTrail | src/engine/attach_engine.cpp:810-817 | on arbitrary memory and with arbitrary read failures the walk yields the return addresses of the longest chain of frames, each aligned, above the one before and with a nonzero return address |
| Frames.SampleIsTrail | src/engine/attach_engine.cpp:798-818 | a sample is the function alone if there is no return address to be had, and otherwise also its caller and the frames of a chain of at most fourteen |
| Frames.SampleIsCallChain | src/engine/attach_engine.cpp:707-725 | with disjoint function ranges and a slide that does not wrap, every frame is the name of the function that holds its return address; up to fifteen callers are all shown, and of more the first fifteen |
| Frames.Symbolizer.NamesInside | src/engine/attach_engine.cpp:708-716 | an address inside a function is given that function's name |
| Frames.Symbolizer.NamesBelowSlide | src/engine/attach_engine.cpp:708-712 | an address below the slide is looked up as it is |
| Frames.Symbolizer.BareAddressReadsBack | src/engine/attach_engine.cpp:712-715 | a return address outside every function is shown by sixteen hexadecimal digits that read back to it |
| Symbols.IndexGrows | src/dwarf/symbol_finder.cpp:92-96 | inserting functions one by one keeps unique sorted keys that point to first occurrences |
| Symbols.LookupIsScan | src/dwarf/symbol_finder.cpp:246-258 | for disjoint, non-wrapping ranges the lookup through the ordered index is the linear scan of the table |
| Symbols.LookupNamesContainer | src/dwarf/symbol_finder.cpp:246-258 | a name is found if and only if some function contains the address, and it is that function's name |
| Symbols.FoundExactlyIfCovered | src/dwarf/symbol_finder.cpp:246-258 | every address inside a function is found if and only if whatever starts inside a function reaches as far as it does, or up to the next start |
| Symbols.NestedRangesMiss | src/dwarf/symbol_finder.cpp:251-257 | a table with nested ranges on which the lookup misses an address that the scan finds |
| Symbols.SharedStartMisses | src/dwarf/symbol_finder.cpp:90-96 | a table with two functions of one start on which it does |
| Dies.FoundAtIsReachable | src/dwarf/symbol_finder.cpp:102-132 | below one entry the traversal finds a function if and only if every entry on the way, itself included, is a subprogram, namespace, class, structure, lexical block or inlined subroutine |
| Dies.FoundInUnitsIsReachable | src/dwarf/symbol_finder.cpp:78-98 | the same over every forest of compile units |
| Dies.FoundInUnitsInOrder | src/dwarf/symbol_finder.cpp:78-132 | functions are found in document order, parents before children |
| Dies.BeforeIsStrict | src/dwarf/symbol_finder.cpp:102-132 | so no function is collected twice |
| Dies.TableDescribes | src/dwarf/symbol_finder.cpp:134-209 | entry k of the table describes the k-th function found: its address, its size from either form of high_pc, both names, the spelled types of its declared parameters in order, and whether it takes `this` |
| Dies.IsFunctionExactly | src/dwarf/symbol_finder.cpp:134-162 | a subprogram is collected if and only if it has code at a nonzero address and a name: a demangled linkage name that begins with no parenthesis or, without a linkage name, a name of its own |
| Dies.DescribeDescribes | src/dwarf/symbol_finder.cpp:149-206 | what is stored of one function, field by field, in terms of its entry |
| Dies.ParamTypesDeclared | src/dwarf/symbol_finder.cpp:186-205 | the n-th parameter type is that of the n-th child that is a parameter, not artificial and typed |
| Dies.CodeIsNamed | src/dwarf/symbol_finder.cpp:165-258 | end to end: with disjoint ranges every address from low_pc up to high_pc of a reachable function is named, by that function if no other of another name starts with it |
| Dies.BeforeParenthesisSplits | src/dwarf/symbol_finder.cpp:40-44 | a name is cut right in front of its first parenthesis |
| Dies.CollectedUnlessParenthesized | src/dwarf/symbol_finder.cpp:149-162 | a function with code and a linkage name is collected if and only if its demangled name begins with no parenthesis |
| Dies.AnonymousNamespaceLosesName | src/dwarf/symbol_finder.cpp:149-162 | members of an anonymous namespace are not collected at the top and go by the name of the scope elsewhere |
| Dies.CallOperatorLosesName | src/dwarf/symbol_finder.cpp:149-153 | a call operator goes by the name `operator`, whatever its parameters |
| Dies.SymbolFinder.Parameters | src/dwarf/symbol_finder.cpp:182-206 | the loop yields the spelled types of the declared parameters in order, and whether an artificial one precedes them |
| Dies.SymbolFinder.ProcessSubprogram | src/dwarf/symbol_finder.cpp:134-209 | appends one description, true to the entry field by field, for a named subprogram with a nonzero address, and nothing otherwise |
| Dies.SymbolFinder.CollectSubprograms | src/dwarf/symbol_finder.cpp:102-132 | the sibling loops append what the traversal collects below the entry |
| Dies.SymbolFinder.CollectUnits | src/dwarf/symbol_finder.cpp:78-89 | the loop over the units appends what each one holds |
| Dies.SymbolFinder.BuildIndexes | src/dwarf/symbol_finder.cpp:90-96 | both indexes point to first occurrences of every name and every nonzero address |
| Dies.SymbolFinder.All | src/dwarf/symbol_finder.cpp:78-99 | the table is built once, from all units, with both indexes |
| Dies.SymbolFinder.Find | src/dwarf/symbol_finder.cpp:231-236 | returns the first function of the table with that name, or nothing if there is none |
| Dies.SymbolFinder.LookupByAddr | src/dwarf/symbol_finder.cpp:246-258 | for disjoint ranges, what a linear scan of the table returns |
| TypeNames.StripCv | src/engine/attach_engine.cpp:41-49 | the loop strips every leading qualifier |
| TypeNames.StrippedName | src/dwarf/symbol_finder.cpp:47-75 | what is left of a rendered type name is its base name and its declarators |
| TypeNames.StrippedIsRest | src/engine/attach_engine.cpp:41-49 | of any text exactly the qualifiers at the front are stripped |
| TypeNames.Spellings | src/dwarf/symbol_finder.cpp:47-75 | how pointers, both kinds of references, qualifiers, typedefs and entries without a type are spelled |
| TypeNames.CharPtrSpellings | src/engine/attach_engine.cpp:99-102 | both spellings of a pointer to char are recognised under any qualifiers |
| TypeNames.CharPtrBySpelling | src/engine/attach_engine.cpp:99-102 | the spelling test holds if and only if the type is, up to qualifiers and typedefs, a pointer to char |
| TypeNames.FloatingBySpelling | src/engine/attach_engine.cpp:52-55 | the spelling test holds if and only if the type is, up to qualifiers and typedefs, a floating type |
| Params.SignedReadsBack | src/engine/attach_engine.cpp:58-74 | the text of a signed argument is a decimal without needless digits that parses back to it, whatever the register holds above its bits and whatever qualifiers surround its type |
| Params.UnsignedReadsBack | src/engine/attach_engine.cpp:94-95 | the text of any other named type is the decimal of the whole register, which is the argument if and only if the register is clean above it |
| Params.UnnamedReadsBack | src/engine/attach_engine.cpp:94-95 | so is that of a type without a name and of void* |
| Params.PointersReadBack | src/engine/attach_engine.cpp:76-92 | the text of a pointer or reference, under any qualifiers and typedefs, reads back to the whole register |
| Params.AddressText | src/engine/attach_engine.cpp:76-92 | a reference shows an ampersand and the shortest hexadecimal text; a null pointer shows nullptr, a pointer to a type whose name contains "char" the quoted form, and any other one the address alone |
| Params.OccursSomewhere | src/engine/attach_engine.cpp:80 | the test for "char" holds if and only if these letters stand together somewhere |
| Params.BoolReadsBack | src/engine/attach_engine.cpp:61-62 | a bool of the type tree shows as true exactly when its register is not zero |
| Params.FormatParams | src/engine/attach_engine.cpp:143-167 | the loop with its saturating register counter yields, for every parameter, the text for its own register |
| Params.PrefetchStrings | src/engine/attach_engine.cpp:323-335 | the loop with its other counter reads ahead exactly the strings behind the char* registers |
| Params.RegistersAddUp | src/engine/attach_engine.cpp:149-164 | a parameter's integer register is its position less the floating ones before it, plus one for `this` |
| Params.FpBeforeCounts | src/engine/attach_engine.cpp:153-156 | the number in `<xmmN>` is the number of floating-point parameters before it |
| Params.ShownThroughOwnRegister | src/engine/attach_engine.cpp:143-167 | the two register walks agree: a parameter shows the string read through its own register or the value of that register, which is its position less the floating-point ones before it plus one for `this`; past the sixth it is "?" |
| Escaping.CStringLength | src/engine/attach_engine.cpp:118-120 | the captured bytes are those up to the first NUL or the read length |
| Escaping.CStringIsPrefix | src/engine/attach_engine.cpp:118-120 | the captured bytes are the longest beginning without a NUL |
| Escaping.EscapeAll | src/engine/attach_engine.cpp:122-135 | the loop escapes byte by byte |
| Escaping.ByteText | src/engine/attach_engine.cpp:122-135 | a printable byte shows as itself, the quote and the backslash behind a backslash, any other byte as the two digits of its value |
| Escaping.EscapeInOrder | src/engine/attach_engine.cpp:122-135 | the text is that of the bytes one after the other |
| Escaping.ReadProcMemStr | src/engine/attach_engine.cpp:106-137 | the first up to 256 bytes captured at the address, up to a NUL, escaped; empty on any failure |
| Escaping.UnescapeEscape | src/engine/attach_engine.cpp:122-135 | a decoder recovers exactly the captured bytes |
| Escaping.EscapeIsInjective | src/engine/attach_engine.cpp:122-135 | different captured strings never display alike |
| Escaping.EscapeIsPrintable | src/engine/attach_engine.cpp:122-135 | the text is printable ASCII of at most four times the length |
| Escaping.EscapeStaysQuoted | src/engine/attach_engine.cpp:122-135 | a reader of the quoted text finds the closing quote right behind it, whatever the bytes |
| Watch.Probes.UprobeEntry | ebpf/watch.bpf.c:32-53 | the maps and the ring stay those of the run so far, extended by the call entered; so every theorem about runs is one about the probes |
| Watch.Probes.UprobeExit | ebpf/watch.bpf.c:56-77 | likewise for the return from the innermost open call; the slot is emptied whether or not the event gets into the ring |
| Watch.DurationsAreOwn | ebpf/watch.bpf.c:32-77 | under any interleaving, any loss and a full map every duration is that of its own call if the stamp was stored and no watched call was entered inside, and 0 otherwise |
| Watch.StampedExactly | ebpf/watch.bpf.c:32-35 | the time stamp of a call is stored if and only if its thread holds one already or fewer than 4096 threads do |
| Watch.StampedWhileFewInside | ebpf/watch.bpf.c:32-77 | while at most 4096 threads are inside watched functions every call is stamped, and the duration of every exit is exact unless another watched call was entered inside |
| Watch.EventsAreAboutCalls | ebpf/watch.bpf.c:32-77 | every event in the ring is about the call that the step which wrote it entered, or about the innermost open call of its thread |
| Watch.OpenCallsAreReal | ebpf/watch.bpf.c:32-77 | an open call remembers its own entry and is marked exactly if its thread has entered another since |
| Watch.WriterIsUnique | ebpf/watch.bpf.c:32-77 | a step writes one event at most, and the event behind those of the earlier steps is its own |
| Watch.WritersInOrder | ebpf/watch.bpf.c:32-77 | events stand in the ring in the order of the steps that wrote them |
| Watch.CallIsHeld | ebpf/watch.bpf.c:32-77 | a call stays open above those that were open when it was entered, until it returns |
| Watch.OpenOrReturned | ebpf/watch.bpf.c:32-77 | a call entered is open or has been returned from |
| Watch.NextIsReturn | ebpf/watch.bpf.c:32-77 | a thread does nothing between the entry and the return of a call inside which it enters no other |
| Watch.EntriesInRing | ebpf/watch.bpf.c:37-53 | the entry event of a call stands in the ring with that call's arguments |
| Watch.SeenIsEarlier | src/engine/attach_engine.cpp:314-361 | what a reader has consumed is the whole ring of an earlier moment |
| WatchJoin.TargetsIndexed | src/engine/attach_engine.cpp:281-284 | every probed address leads to the last target that starts there, so targets with distinct addresses are told apart under any slide |
| WatchJoin.EnteredShows | src/engine/attach_engine.cpp:320-338 | what is cached of an entry and shown at the exit is, for each parameter, its own register at the entry |
| WatchJoin.WatchSession.constructor | src/engine/attach_engine.cpp:282-295 | the loop builds the address index; nothing is cached or reported yet |
| WatchJoin.WatchSession.OnEvent | src/engine/attach_engine.cpp:314-361 | the callback, with its two register walks, makes one step of the join |
| WatchJoin.WatchSession.Loop | src/engine/attach_engine.cpp:305-362 | the result is the join of a prefix of the ring, at most the cap, and short of it only if all that the polls asked for, or all there was, has been consumed |
| WatchJoin.ExitsReportedInOrder | src/engine/attach_engine.cpp:339-360 | the first exits up to the cap are reported, each once, in order and under its own function's name |
| WatchJoin.CacheFollowsCalls | src/engine/attach_engine.cpp:286-292 | a thread's one cache slot, if filled, belongs to its innermost open call, and is empty once that call has seen another |
| WatchJoin.ParamsAreOwn | src/engine/attach_engine.cpp:314-361 | attribution: with nothing of its thread lost between a call's entry and its return, the exit shows that call's own arguments, each read from its own register with `this` left out, or none if another watched call was entered inside, under recursion and any interleaving and whatever is lost before or after |
| WatchJoin.EveryReportIsAnActivation | src/engine/attach_engine.cpp:305-362 | end to end: each reported event is about one call of the run, with its name, return value, time stamps, and own duration; and if nothing of its thread is lost while it is open, with one text for each parameter, from the register that holds it, or with none |
| WatchJoin.CacheIsLastEntry | src/engine/attach_engine.cpp:314-358 | whatever is lost, the cached entry of a thread is that of its last entry event until an exit of the same target takes it |
| WatchJoin.EachReportShowsLastEntry | src/engine/attach_engine.cpp:339-360 | whatever is lost, an exit shows what the registers of that entry event hold for each parameter, and nothing if there is none |
| WatchJoin.JoinedWithExactly | src/engine/attach_engine.cpp:353-358 | an exit event is joined with an entry event if and only if, in the run, that is the last entry of the thread that was not dropped, of the same target, and no exit of the target that was not dropped has come in between |
| WatchJoin.JoinsOwnUnlessNested | src/engine/attach_engine.cpp:353-358 | with nothing of its thread lost while a call is open, its exit is joined with its own entry if and only if no other watched call was entered inside, and with no other entry |
| WatchJoin.OwnEntryOrNone | src/engine/attach_engine.cpp:339-360 | an exit event is joined with its own entry event or with none if and only if that holds of the steps of the run; it does if nothing of its thread is lost while the call is open |
| WatchJoin.OwnOrNoneExactly | src/engine/attach_engine.cpp:339-360 | an exit shows its own parameters or none if and only if the entry event it is joined with, if any, is its own one or yields no other text |
| WatchJoin.LostEntryMisattributes | src/engine/attach_engine.cpp:353-358 | a run with one dropped entry event whose exit shows the arguments of the call around it |
| WatchJoin.LostExitMisattributes | src/engine/attach_engine.cpp:353-358 | a run with one dropped exit event after which an exit shows the arguments of the call inside it |
| Depth.Probes.TraceEntry | ebpf/trace.bpf.c:37-55 | the maps and the ring stay those of the run so far, extended by the call entered; so every theorem about runs is one about the probes |
| Depth.Probes.TraceExit | ebpf/trace.bpf.c:58-81 | likewise for the return from an open call, whether or not the event gets into the ring |
| Depth.CountsExactlyWhileFits | ebpf/trace.bpf.c:41-66 | the counter is open calls minus one throughout a run if and only if the threads inside never outnumber the map and nesting never exceeds 2^32 |
| Depth.RunBounded | ebpf/trace.bpf.c:41-66 | without any assumption no counter exceeds its thread's open calls, and both maps stay within 4096 entries |
| Depth.EventsCarryTheirLevel | ebpf/trace.bpf.c:37-81 | every event carries the nesting level of its own call, so entry and exit agree, under any interleaving and loss |
| Depth.OthersDoNotMatter | ebpf/trace.bpf.c:37-81 | a thread's events and map entries are those of the same thread running alone |
| Depth.DropsOnlyOmit | ebpf/trace.bpf.c:46-72 | dropped events are missing and change nothing else |
| Depth.PlayForest | ebpf/trace.bpf.c:37-81 | the events of a call forest are its depth-labelled pre- and post-order walk, and the maps are left as they were |
| Depth.ThreadEventsAreItsWalk | ebpf/trace.bpf.c:37-81 | end to end: among any other threads and with any loss, what is read of a thread is the labelled walk of its calls as far as it has come, less the dropped events |

## Left out

- Multi-threaded targets under ptrace, C++ exceptions or longjmp past a probed frame, and SIGTRAPs the target raises itself: the state machines do not handle them; they are excluded by hypothesis.
- A target that reads its own text as data sees the breakpoint byte; the model keeps text apart from what instructions read.
- The SIGSTOP of the attach can race with another pending signal; the model lets the attach stop come first.
- The target makes no move between the attach and the stop that it asks for.
- Real clocks: readings are arbitrary values, and the deadline falls after an arbitrary number of rounds; that the loops end at a deadline is therefore assumed, not proved.
- `reserve` for a count that is not negative is taken to succeed: no exhausted memory.
- A negative limit of `watch`: `reserve` throws on it before anything is attached (`src/engine/attach_engine.cpp:295`); the limit is a natural number here.
- `find_regex`, demangling and libdw: library calls, whose results (names, entries, types, addresses) are parameters.
- ELF headers, `/proc` maps, `readlink`: the load base and the minimum address enter as one slide.
- The ptrace fallback of `watch` (`src/engine/attach_engine.cpp:259-272`): it runs `trace` once for each target and concatenates.
- libbpf loading, attaching and detaching: the watch model starts with all probes attached; probes attached one after another can miss the entry of a call whose exit they see.
- A map update or delete that fails for another reason than a full map; `bpf_get_func_ip` on kernels that do not support it in return probes.
- The JSON codec, the command line and its output.
- The aarch64 and riscv64 branches of `arch.h`: reading the return address from the top of the stack is the x86_64 convention.
- Type entries and debug entries are finite trees; the file's references between type entries could in principle be cyclic.
- TraceEngine.Trace: termination is by the given number of rounds; a count that is never reached with a deadline that never comes is not modelled.
- WatchJoin.WatchSession.Loop: an exception of the loader, which makes the original fall back to ptrace, is not modelled.
