# Verified model of the atomic memory tracer

The tracer records the memory accesses of a multithreaded program so that the trace can be replayed one
access at a time. Address locks make tracing an access and executing it look like one action; Lamport
clocks order the lines; threads buffer their lines and write them to one file; a merge utility sorts the
file; a comparer checks merged traces; small simulators recompute the output of two test programs from
their traces. This project models these parts and proves that they fit together.

The main result is `Pipeline.TraceMergeCompare`. For every interleaving of any number of threads in which
those that registered have finished, the printed trace file merges with `-t` down to an empty heap, the
comparer accepts the output against every arrangement of the file's lines in time order, and the memory lines
of the output, executed one at a time, read what the traced program read, touch every byte in its order and end
in its memory. `TracedPrograms.IncIsSimulated` and `CasIsSimulated` go the other way: merged without `-t`, the trace
of an increment program makes its simulator compute what the program counted. `TracerAwake.MergeableWhenAwake`
says exactly when the file is legal for merging, in the sense of `TraceOrder.Wf`, and `Refusal.MergeUpTo` how
merging goes wrong when it is not. `TracerProgress.WorkGetsDone` and `LockRoutines.LocksGetFree` say that the
tracer's locks never bring the program to a halt.

## How the model is organised

| files | part |
|---|---|
| `Options`, `TraceLine`, `TraceOrder` | lines of a trace, and when a file is a legal input for merging |
| `Access`, `Replay` | memory accesses byte by byte, and replaying them in another order |
| `LockArithmetic`, `LockOrder`, `LockRoutines` | which address locks an access takes; why the locks cannot deadlock and protect their data, for any routines that keep to the rules and for the tracer's own |
| `TracerStore`, `TracerMethods` | what the tracer's routines do to clocks, buffers and the file: as functions, and as classes updated in place that are proved equal to them |
| `TracerCore`, `TracerFile`, `TracerBroadcast` | the interleaved routines, and what they do to the file |
| `Tracer`, `TracerAtomic`, `TracerRuns` | the whole tracer, instruction by instruction |
| `TracerLines`, `TracerTimes`, `TracerStamps` | the lines each step emits, and their times: no tick is left out, and each is the least it can be |
| `TracerRoi` | where the trace says that the region of interest is, and what is traced in it |
| `TracerProgress` | no deadlock, and going on ends |
| `TracerMergeable`, `TracerAwake` | exactly when the file is legal for merging: in terms of clocks, and of who is live |
| `TracerLag`, `TracerFlush`, `TracerDrift` | what flushing laggards achieves, and how far clocks can drift apart |
| `TracerBuffers`, `TracerSync` | when a buffer is written, who is flushed then, and what is written for them |
| `TracerLife` | what starting, registering and ending leave behind, and when they can happen |
| `TracerEmission`, `TracerPlain`, `TracerSeparation` | the lines emitted, and their order |
| `TracerTrace`, `TracerResult` | the accesses they show, the finished file |
| `Text`, `TraceText` | the text of a line and its readers |
| `ThreadQueue`, `SafeTimestamp`, `MergeSpec`, `Merge` | the merge utility |
| `Compare` | the comparer |
| `Pipeline` | from a run over the merged file to the comparer, and to the simulation framework |
| `Refusal` | what merging does with a file that is not legal |
| `Drain` | the double buffer between tracer and file |
| `Sums`, `Inc`, `IncCas`, `Simulators` | the increment programs and their simulators |
| `SimulatorView`, `TraceShape`, `TracedPrograms` | from a traced run of an increment program to the output of its simulator |

Programs that run concurrently are step relations, and their theorems hold in every state a run can reach.
Code that updates objects in place is a class with methods. The tracer has both: the step relation
uses the functions of `TracerStore`, and `TracerMethods` proves that the routines written as loops over
objects do what those functions say. `emitted` and `log` are histories: every line put in a buffer, every access
executed, in order.

## Assumptions

* Address locking is on, and every access of the program is traced. Sizes are at least 1 and addresses do not
  overflow.
* The allowed timestamp difference is positive. The factor `.75` is written `4 * diff >= 3 * lag`.
* A thread registers at most once, and user thread ids are not reused. That Pin does not reuse its thread ids is an
  assumption on Pin: `thread_fini_a` takes the thread off `last_flushed` (`trace/trace.cpp:763-772`) only if its
  buffer is not empty, so a row can stay, and a thread that got the id again would find it when `thread_start_a`
  inserts its own (`trace/trace.cpp:743`).
* Lines fit the 127 characters that the merge utility reads. Names of traced functions hold no tab where the
  simulation framework reads them.
* Where a simulator follows a trace (`TracedPrograms`), the trace shows one call of `special_malloc` and later its
  return, no other traced function but `special_free`, and no context change; the accesses that the simulator looks
  at are those of the program to its counter, stamped after that return.
* Clocks restart when no live thread remembers them. The trace file is legal for merging (`TraceOrder.Wf`) if and
  only if, whenever a thread registers or an unregistered thread is traced, nothing was traced yet, or some live
  thread has seen an event under all thread locks, or a thread registers and nothing in the file is later than
  time 1 (`TracerAwake.MergeableWhenAwake`). Where threads register when they start, this says that no thread
  starts after all threads have ended (`TracerAwake.MergeableWithoutRestart`). With registration by hand it can fail
  (`TracerRuns.ClocksCanFallBack`). A file that is not legal has a first line that comes too early
  (`Refusal.IllegalFile`); merging is right up to it, and there either the assertion on times in `enqueue` fails or
  the line is written behind a later one (`Refusal.MergeUpTo`). The lag bound and the pipeline are stated for legal
  files. That broadcasts separate what comes before from what comes after also needs times that do not repeat
  (`TracerSeparation.EmissionSeparated`).

## Where code and documentation disagree

* The repository's `README.md:92-95` says that `-c` logs a compare-and-swap as a write only if it succeeds. In the code it is the
  other way round: `trace/trace.cpp:925` tests the flags after the instruction only if the option is off. The
  model follows the code; `Simulators.LoggedFailuresBreakTheCount` is what follows for the simulator.
* `src/inc_sim.py:30` and `src/inc_sim_cas.py:33` announce that context changes are printed. In the code a
  context change ends the simulation: `src/AtomicTrace.py:105-107` calls `end_roi` with one argument too many.
  `TraceText.SimulatorSeesTrace` says what is reported until then.
* `merge_test/CompareMerge.py:6-15` describes the reported timestamps as those of the first difference. The two are
  always equal: the time of the last lines up to which the files agree (`Compare.CompareFiles`).

## Model

| member | source | states |
|---|---|---|
| `Pipeline.TraceMergeCompare` | src/merge.cpp:399-453 | the whole way from any interleaving over printing and merging to the comparer and the replay: heap empty, verdict equal, replay faithful, every byte touched in the order of the run |
| `Pipeline.TraceMergeSimulate` | src/AtomicTrace.py:33-107 | the whole way to the simulation framework: merged without `-t`, any such run makes it report, operand by operand, the accesses of a faithful replay; it comes to the end of the trace if and only if no context change was traced |
| `TracedPrograms.IncIsSimulated` | src/inc_sim.py:47-104 | the whole way of the fetch-and-add program: for any interleaving whose accesses near the counter are its increments, the simulator accepts the merged trace and finds the counter, every thread's count and every even count |
| `TracedPrograms.CasIsSimulated` | src/inc_sim_cas.py:47-136 | the same for compare-and-swap: counts and all failures are found if failed swaps are traced as reads; if they are logged as writes, the counter is right if and only if no swap failed |
| `TracedPrograms.TraceToCallbacks` | src/AtomicTrace.py:33-107 | the merged trace of such a run is a whole trace to its simulator: threads start and finish in turn, the allocation's call comes before its return, and after it the simulator sees the run's accesses to the counter in the order they executed |
| `SimulatorView.LookedAtTouching` | trace/trace.cpp:399-450 | accesses that all touch one byte can be read off the order in which that byte was touched |
| `TraceShape.MergedInTurn` | src/merge.cpp:359-397 | in the merged trace of a legal file every thread starts and finishes at most once, and starts first |
| `Pipeline.MergeFile` | src/merge.cpp:399-453 | merging the printed file of finished threads, with `-t` or without, gives a time-ordered arrangement of its lines but the `thread_sync` ones, and the final assertion holds |
| `Pipeline.PrintedMatch` | merge_test/CompareMerge.py:17-61 | printed lines in time order match every arrangement of themselves in time order |
| `TracerAtomic.AtomicInstrumentation` | trace/trace.cpp:399-450 | in every reachable state, executed accesses of one thread or with a common byte are stamped strictly in the order they executed, also compare-and-swaps, which are stamped afterwards |
| `TracerAtomic.StepIsAtomic` | trace/trace.cpp:514-574 | every step of the tracer keeps the invariant behind atomic instrumentation: lock ownership, lock stamps, bounds on stamps, order of the log |
| `TracerAtomic.ReplayReproducesRun` | trace/trace.cpp:526-558 | the executed accesses in any order of their stamps, ties in any order, read the same values, end in the same memory and touch every byte in the same order |
| `Replay.ReplayEquivalence` | trace/trace.cpp:526-558 | any order that respects the stamps is equivalent to the order of execution if conflicting accesses are stamped in order |
| `Replay.ByteOrderKept` | trace/trace.cpp:526-558 | in such an order every byte is touched by the same accesses in the same order as in the run |
| `Access.Commute` | trace/trace.cpp:399-450 | accesses without a common byte commute: same reads, same memory |
| `TracerTrace.TraceReproducesRun` | trace/trace.cpp:526-574 | the memory lines that were emitted, in time order, are the lines of a faithful replay |
| `TracerTrace.EmittedIsLog` | trace/trace.cpp:526-574 | the memory lines emitted are exactly the lines of the executed accesses; a failed compare-and-swap shows as a read |
| `TracerTrace.StepKeepsLinks` | trace/trace.cpp:526-574 | in every step each thread's memory lines stay, in order, the accesses it executed and the one it announced |
| `TracerStamps.AccessStamp` | trace/trace.cpp:526-574 | in every run: stamping an access emits one line, with its operands and, unless it is a compare-and-swap that failed, its write; the time is the first tick above the thread's clock and the stamps of all locks of the bytes touched |
| `TracerStamps.CallStamp` | trace/trace.cpp:587-670 | exactly when a call, a return or a context change of a registered thread can be traced; its line is one tick above the thread's clock |
| `TracerStamps.GlobalStamp` | trace/trace.cpp:673-776 | every event under all thread locks is at the first tick above all live clocks; its line is at once in the file, behind what its thread had buffered, then come only `thread_sync` lines of that time, and every live clock moves there |
| `TracerTimes.TimeHasNoGaps` | trace/trace.cpp:526-558 | in every reachable state each tick from 1 to the highest is the time of a line, so there are at least as many lines as ticks, and no clock and no lock stamp is ahead of the lines |
| `TracerRoi.RegionIsTraced` | trace/trace.cpp:673-686 | in every reachable state the tracer is in the region of interest if and only if the last line that enters or leaves it enters it; with `-i` no access is traced before the first such line |
| `TracerRoi.TracedInRegion` | trace/trace.cpp:462-475 | exactly when tracing an access can begin; with `-i` only if the lines so far say that the region was entered and not left |
| `TracerMergeable.MergeableExactly` | trace/trace.cpp:587-776 | the file of any run is legal for merging if and only if the time of every registration and unregistered event was not below the file, nor that of an unregistered event below or at an earlier one; without live registered threads nothing is left in a buffer and every `tf` line is in |
| `TracerAwake.MergeableWhenAwake` | trace/trace.cpp:352-372 | the same condition in terms of who is live: at each of these events nothing was traced yet, or some live thread has a clock other than 0, or a thread registers and nothing in the file is later than time 1; it is also the condition that the line of every broadcast may follow the file |
| `TracerAwake.MergeableWithoutRestart` | trace/trace.cpp:722-776 | where threads register when they start: the file is legal if and only if no thread starts after all have ended, once something was traced |
| `TracerAwake.StepKeepsAwake` | trace/trace.cpp:352-372 | every step keeps what makes the two conditions one: a live clock is 0 or has reached the last event under all locks, and nothing but live registered threads is ahead of it in the file |
| `TracerMergeable.StepStaysLegal` | trace/trace.cpp:176-272 | every step keeps each thread's lines in file and buffer strictly increasing from `tr` to `tf`, given that condition |
| `TracerMergeable.StepSpoils` | trace/trace.cpp:352-361 | without the condition the line that is written makes the file illegal |
| `TracerRuns.ClocksCanFallBack` | trace/trace.cpp:352-361 | a run of two unregistered threads that writes the same time twice; that file is not legal |
| `Refusal.IllegalFile` | trace/trace.cpp:352-361 | a run's file that is not legal has a first line that comes too early: all threads before it have ended, and its time is below the highest so far or, for an unregistered thread, not above that of an earlier one |
| `Refusal.MergeUpTo` | src/merge.cpp:399-453 | up to that line merging writes all lines but the `thread_sync` ones in time order; at it the assertion on times fails, or the line is written at once, behind a later one |
| `Refusal.RepeatedTimeRefused` | src/merge.cpp:120-128 | however far merging has come, a line of an unregistered thread passes the assertion of `enqueue` if and only if it is later than all such lines before it |
| `Refusal.FallBackIsRefused` | src/merge.cpp:120-128 | merging stops at the second line of the file of `TracerRuns.ClocksCanFallBack` |
| `TracerCore.EndKeepsAnchor` | trace/trace.cpp:748-776 | when a thread's end leaves the clocks at the top of the file: another thread is live, or, for an unregistered one, a live clock is there |
| `TracerCore.StepKeepsAnchor` | trace/trace.cpp:365-372 | only a thread's end can leave the clocks behind the file |
| `TracerFile.FlushOthersKeep` | trace/trace.cpp:176-206 | flushing laggards keeps the file legal, moves clocks only to the given time and emits nothing above it |
| `TracerSeparation.EmissionSeparated` | trace/trace.cpp:673-720 | a broadcast's line is above all lines emitted before it and below all later ones but `thread_sync` lines of its own time, in exactly those runs whose file is legal and repeats no time at a `tr` line or the line of an unregistered thread |
| `TracerEmission.StepKeepsStreams` | trace/trace.cpp:176-272 | no line is lost, duplicated or reordered: for every thread, file and buffer hold exactly what it emitted |
| `TracerResult.FileIsAll` | trace/trace.cpp:748-776 | with empty buffers the file is what was emitted, thread by thread and as a whole |
| `TracerResult.MergedTraceReplays` | src/merge.cpp:359-397 | whatever order merging gives to ties, the merged memory lines are a faithful replay of the run |
| `TracerDrift.LagIsBounded` | trace/trace.cpp:220-272 | in runs whose file is legal: after an event that is the last of `accesses_flush` in its buffer, every live registered clock is above the event's time minus 1.75 times the allowed difference, or on the list of a flush in progress |
| `TracerBuffers.LocalWrites` | trace/trace.cpp:220-234 | an unforced event waits if fewer than `accesses_flush - 1` lines are buffered, and then file, table, cache and flushes stay as they are; otherwise the whole buffer and its line go to the file and the thread's row is new |
| `TracerBuffers.BuffersAreShort` | trace/trace.cpp:220-230 | in every reachable state every buffer has fewer lines than the larger of 1 and `accesses_flush`, and every line traced under all thread locks is in the file |
| `TracerSync.RoundWrites` | trace/trace.cpp:176-206 | one round of a flush, in every run: a live thread .75 of the allowed difference behind gets a `thread_sync` line, the last one in the file, which merging takes as its time, with its buffer before it and a new row; without an id only its clock moves; any other thread is left alone |
| `TracerSync.EventDecides` | trace/trace.cpp:236-256 | in every run, an event of a registered thread starts a flush exactly if it writes its buffer and both the cache and some other row are more than the allowed difference behind; the list holds exactly the threads whose rows are .75 of it behind |
| `TracerSync.AnnounceSyncs` | trace/trace.cpp:236-272 | in every run, an event under all thread locks flushes exactly the live threads whose row and clock are that far behind; of all others only the clock moves |
| `TracerSync.SyncsInOrder` | trace/trace.cpp:176-206 | the `thread_sync` lines of a flush come in the order of its list, one for each thread that is behind |
| `TracerLag.InsertPlace` | trace/trace.cpp:231-234 | a new row of the table goes behind all rows that are as old and before all that are younger |
| `TracerLife.ComingAndGoing` | trace/trace.cpp:708-776 | in every run, a thread that starts, registers or ends has all it traced in the file and one row that says so; one that starts unregistered has a row at time 0; one that ends unregistered only leaves the live set |
| `TracerLife.FlushIsUndisturbed` | trace/trace.cpp:258-272 | while a thread flushes laggards nobody starts, registers, ends or flushes, and no event under all thread locks is traced |
| `TracerLife.WhenGlobal` | trace/trace.cpp:587-776 | exactly when a thread can start, register, end, change the region or, without an id, trace a call or return: between instructions, without a flush of its own, while nobody flushes |
| `TracerFlush.FlushLeavesNoLaggard` | trace/trace.cpp:176-206 | in every run, a thread about to leave `attempt_flush_others` has no live registered thread behind it by .75 of the allowed difference |
| `TracerFlush.StepKeepsFlush` | trace/trace.cpp:176-272 | every step of any run keeps the table sorted with one row for each live thread, rows below clocks, and everybody close to a pending flush or still to be reached by it |
| `TracerLag.StepKeepsLag` | trace/trace.cpp:176-272 | every step keeps the table sorted with one row for each live thread, rows below clocks, and the cache close to every clock, except for threads a pending flush will reach |
| `TracerMethods.Tool.TouchBuffer` | trace/trace.cpp:220-255 | in place: the buffer goes to the file and the thread's row is new if `accesses_flush` lines are buffered or it is forced, otherwise only the clock moves; cache and list of laggards are those of the step relation |
| `TracerMethods.Tool.FlushThread` | trace/trace.cpp:180-204 | in place: a live thread .75 of the allowed difference behind is written out with a `thread_sync` line at the end if it has an id, and gets a new row; any other thread is left alone |
| `TracerMethods.Tool.AttemptFlushOthers` | trace/trace.cpp:176-206 | in place: the loop over laggards does what the step relation says, `thread_sync` lines included |
| `TracerMethods.FindLaggards` | trace/trace.cpp:237-253 | the loop over the table lists the first rows that are .75 of the allowed difference behind, up to one that is not, whose time is the new cache |
| `TracerMethods.Tool.AcquireAllThreadLocks` | trace/trace.cpp:352-361 | the highest clock of the live threads, 0 without any |
| `TracerMethods.Tool.ReleaseAllThreadLocks` | trace/trace.cpp:365-372 | every live clock moves to the new time and nothing else changes |
| `TracerMethods.Tool.TraceGlobally` | trace/trace.cpp:603-629 | an event of a thread without an id under all thread locks, as the routines do it, is the broadcast of the step relation |
| `TracerMethods.Tool.ChangeRoi` | trace/trace.cpp:673-686 | the flag is the one asked for, and the line of the change is broadcast |
| `TracerMethods.Tool.AcquireAddressLocks` | trace/trace.cpp:399-435 | the lock list is exactly that of the operands, and the result is the highest stamp on it |
| `TracerMethods.Tool.ReleaseAddressLocks` | trace/trace.cpp:441-450 | exactly the listed locks get the thread's clock as stamp; the list is cleared |
| `LockArithmetic.LockListMeaning` | trace/trace.cpp:399-428 | the sorted list without duplicates holds exactly the locks of the bytes touched by up to three operands |
| `LockArithmetic.RangeLocksCover` | trace/trace.cpp:376-384 | the indices of one range are those of its bytes, with wrap-around and the cap at the number of locks |
| `LockArithmetic.SharedByteSharedLock` | trace/trace.cpp:399-428 | accesses with a common byte have a common lock |
| `LockArithmetic.LockIndex` | trace/trace.cpp:376-384 | first index and count, by shifting, denote the indices of the range |
| `LockArithmetic.UniqueLocks` | trace/trace.cpp:399-428 | the loops over three operands, sorting and removing duplicates build that list |
| `LockArithmetic.PowerTest` | trace/trace.cpp:988-990 | the bit test holds exactly for the powers of two |
| `LockArithmetic.ShiftByLog` | trace/trace.cpp:992-998 | shifting by the logarithm of a power of two divides by it |
| `TracerProgress.NobodyGetsStuck` | trace/trace.cpp:399-450 | no deadlock of the tracer's own steps: in every reachable state, if some thread is mid-instruction, holds an address lock or has a flush to do, some thread can take its next lock, stamp, execute, release or go on flushing |
| `TracerProgress.WorkGetsDone` | trace/trace.cpp:462-580 | from every reachable state such steps lead to a state with every instruction finished, every flush done and every address lock free |
| `TracerProgress.WorkShrinks` | trace/trace.cpp:462-580 | no scheduler can prolong that work: each of these steps leaves less of it |
| `TracerProgress.StepKeepsProgress` | trace/trace.cpp:399-450 | every step keeps what progress rests on: who owns a lock has it on its list, and only live registered threads are busy |
| `LockOrder.NoDeadlock` | trace/trace.cpp:176-272 | threads whose routines keep to the lock order, whatever routines they enter: no two hold one lock, and while any lock work is left some thread with lock work can go on |
| `LockOrder.NoDataRace` | trace/trace.cpp:93-120 | in every state such threads reach, a thread about to use shared data holds its lock, and no other thread holds it or is about to use the same data |
| `LockRoutines.RoutineUses` | trace/trace.cpp:220-255 | how often each routine uses which data: one use of the file and the table for each write of a buffer, of a thread's data for each thread it touches, of the live set where it is read or changed, of a lock's stamp for each lock taken or given back |
| `LockRoutines.DataIsExclusive` | trace/trace.cpp:176-255 | threads that call the tracer's routines, in any order: no two are about to use the same thread's data, the file and table, the live set or the same lock's stamp, and each holds the lock that protects it |
| `LockRoutines.HeldIsList` | trace/trace.cpp:399-450 | threads that call the tracer's routines, in any order: between routines each holds exactly the address locks on its list, and no two hold one lock |
| `LockRoutines.LocksGetFree` | trace/trace.cpp:176-206 | the tracer's routines do not deadlock: from every such state all routines can be finished and all locks given back by lock operations and releases alone |
| `LockOrder.LockListScript` | trace/trace.cpp:430-434 | the locks of an instruction are taken in index order, whatever its operands |
| `LockOrder.HeaderOk` | trace/trace.cpp:462-475 | the header releases the locks of the last instruction before it looks at its thread |
| `LockOrder.CallOk` | trace/trace.cpp:587-668 | calls and returns of registered threads, and context changes, release first, then keep to the order and use their data and the file under its locks, flush included |
| `LockOrder.ReleaseOk` | trace/trace.cpp:578-580 | instructions without memory operands give all address locks back |
| `LockOrder.FooterOk` | trace/trace.cpp:526-558 | stamping, writing and flushing laggards keep to the lock order while address locks are held, and use thread data, file, table and live set under their locks |
| `LockOrder.BroadcastOk` | trace/trace.cpp:673-686 | broadcasts take start/finish, thread and file locks in order, and use what these protect |
| `LockOrder.StartOk` | trace/trace.cpp:722-746 | so does a thread's start |
| `LockOrder.FinishOk` | trace/trace.cpp:748-776 | so does a thread's end |
| `TraceText.PrintedHead` | src/merge.cpp:337-352 | merge reads back the time, thread and kind of every line the tracer prints, and cuts off exactly the time |
| `TraceText.PrintedForms` | trace/trace.cpp:538-553 | the text of every kind of line: time, thread id, the tag of the line and its numbers, operands with their own tags, with one tab between them |
| `Text.PrintedDigits` | trace/trace.cpp:538-553 | numbers are printed in decimal, most significant digit first, without leading zeros |
| `TraceText.ParseLine` | src/merge.cpp:337-352 | the parser's loops and conversions find time, thread and kind of every line with two tabs |
| `TraceText.MemoryRoundTrip` | src/AtomicTrace.py:41-59 | every legal memory line, printed, stripped and split, gives back thread, flags, addresses and sizes; absent operands keep their old values |
| `TraceText.LineRoundTrip` | src/AtomicTrace.py:41-107 | every kind of line, printed, stripped and split, makes the callback it means, with its values |
| `TraceText.SimulatorSeesTrace` | src/AtomicTrace.py:33-107 | a simulator gets the callbacks of all lines of a trace in order, up to the first context change; the end of the trace is reached if and only if there is none |
| `TraceText.MemoryOfMeanings` | src/AtomicTrace.py:47-71 | the accesses among the callbacks are those of the memory lines, whatever lines stand between them |
| `TraceText.RunTrace` | src/AtomicTrace.py:33-107 | the loop over lines and its branches, up to the first line that raises an exception |
| `Text.AtollOfPrint` | src/merge.cpp:345-346 | `atoll` reads back every printed number |
| `Text.SplitJoin` | src/AtomicTrace.py:42-44 | fields without tabs come back as they were joined |
| `ThreadQueues.ThreadQueue.Enqueue` | src/merge.cpp:120-151 | the ring appends a string to a FIFO, growing when needed |
| `ThreadQueues.ThreadQueue.Dequeue` | src/merge.cpp:153-180 | the ring returns the oldest string and its time unchanged |
| `ThreadQueues.ThreadQueue.EnlargeBuffer` | src/merge.cpp:188-204 | growing fourfold keeps the contents, wrapped or not |
| `ThreadQueues.ThreadQueue.CheckRepresentation` | src/merge.cpp:206-217 | the sum of the queued lengths is the used size, always |
| `ThreadQueues.WriteExtendsRing` | src/merge.cpp:136-147 | bytes written from the insertion point, around the end, extend the ring's contents |
| `ThreadQueues.TwoCopies` | src/merge.cpp:161-174 | the two copies of a read are the ring's contents in order |
| `SafeTimestamps.SafeTimestamp.SetTime` | src/merge.cpp:290-306 | the list records the time; if the minimum is not recomputed, an exact cache stays exact if and only if the new time is not below it |
| `SafeTimestamps.SafeTimestamp.FinishThread` | src/merge.cpp:308-315 | the thread is forgotten and the cache is the minimum of the rest |
| `SafeTimestamps.SafeTimestamp.UpdateCache` | src/merge.cpp:317-329 | the cache becomes the minimum; an empty list leaves it alone |
| `SafeTimestamps.ListLength` | src/merge.cpp:290-315 | the list has as many entries as threads it stands for |
| `Merge.Merger.Observe` | src/merge.cpp:410-423 | on legal input the counter of active threads, the length of the list and the minimum stay in step with the lines read |
| `Merge.Run` | src/merge.cpp:399-453 | for every legal input, with and without `-t`: output sorted, nothing invented, every thread's lines in order, everything written if and only if the final assertion holds, which it does once all threads have finished |
| `Merge.Merger.MergeReady` | src/merge.cpp:359-397 | the release loop ends, its assertions hold, and then every queued time exceeds the safe timestamp, or nothing is queued if no thread is active |
| `Merge.Merger.ReadAll` | src/merge.cpp:403-451 | the driving loop keeps queues, heap, safe timestamp and output in step with what was read |
| `Merge.Merger.NoteTime` | src/merge.cpp:412-423 | on legal input the lazily kept minimum stays exact and never falls |
| `MergeSpec.PoppedKeeps` | src/merge.cpp:371-394 | writing an earliest head keeps the invariant: heap of heads, per-thread order, sorted output, nothing earlier to come |
| `MergeSpec.TakenKeeps` | src/merge.cpp:425-447 | queueing a legal line keeps it |
| `MergeSpec.AllWritten` | src/merge.cpp:452-452 | the heap is empty exactly when every line read was written |
| `Compare.Compare` | merge_test/CompareMerge.py:17-61 | the loop over both files: equal exactly for matching files, and what a difference or an exception tells |
| `Compare.CompareFiles` | merge_test/CompareMerge.py:17-61 | equal if and only if both files are in order with positive times and hold the same lines; otherwise the reported times are one time, the last up to which whole bunches agree: behind it one file has ended or the next bunches differ, and the line numbers point behind what was read |
| `Compare.AgreementIsLast` | merge_test/CompareMerge.py:39-58 | where one file has ended or the next bunches differ, no longer beginnings of the files agree |
| `Compare.CreateBunch` | merge_test/CompareMerge.py:71-87 | one bunch is the longest run of lines with one time, sorted, and the reader stands on the next line |
| `Compare.MatchBunch` | merge_test/CompareMerge.py:39-58 | two files match exactly if their first bunches do and the rest matches above them |
| `Compare.SortedEqual` | merge_test/CompareMerge.py:87-87 | comparing sorted bunches compares them as multisets |
| `Drain.NothingIsLost` | src/drain_buffer.cpp:52-92 | in every reachable state bytes written, to be drained, being filled and unread make up the input, for any short reads and writes |
| `Drain.BuffersAreExclusive` | src/drain_buffer.cpp:52-92 | the two threads never use the same buffer at the same time |
| `Drain.BuffersAreFull` | src/drain_buffer.cpp:52-70 | in every reachable state, a buffer that the reader has finished with is full, unless all input has been read |
| `Drain.NobodyIsStranded` | src/drain_buffer.cpp:52-92 | until both threads have returned, a step that moves something can be taken: nobody waits at a barrier for ever |
| `Drain.StepShrinks` | src/drain_buffer.cpp:52-92 | every step but a read or write of nothing leaves less to do, so no scheduler can keep the threads from their ends |
| `Drain.DrainingGetsDone` | src/drain_buffer.cpp:52-92 | however they were scheduled so far, both threads can go on until they return, with the output complete |
| `Drain.OutputIsInput` | src/drain_buffer.cpp:52-92 | once both have returned the output is the input |
| `IncCas.FinalCounter` | src/inc_cas.cpp:59-97 | for all interleavings: final counter, sums of counts and even counts, per-thread counts, and failures as reads minus twice the increments |
| `IncCas.FailuresAreBounded` | src/inc_cas.cpp:59-74 | failures and threads about to fail are at most N - 1 times the successes, in every reachable state |
| `IncCas.RunsAreBounded` | src/inc_cas.cpp:76-97 | no scheduler can keep the program running: a bound on the number of accesses, and no state without a step before the end |
| `Inc.FinalCounter` | src/inc.cpp:68-89 | for all interleavings: final counter, sums, and each thread's counts from the order of the increments |
| `Simulators.IncSim.MemoryAccess` | src/inc_sim.py:47-67 | the method, its branches and its assertion, in place |
| `Simulators.CasSim.MemoryAccess` | src/inc_sim_cas.py:47-74 | the method, its branches and its assertion, in place |
| `Simulators.IncSim.Simulate` | src/inc_sim.py:47-104 | all callbacks of a trace, in place, up to the first failed assertion |
| `Simulators.CasSim.Simulate` | src/inc_sim_cas.py:47-111 | the same for the other simulator |
| `Simulators.AllocationWatched` | src/inc_sim.py:77-95 | from the constructor, the call and return of `special_malloc` lead to watching the counter, whatever else is traced meanwhile, if and only if threads start and finish in turn |
| `Simulators.ReplayMeaning` | src/inc_sim.py:47-95 | once the counter is watched, a trace is accepted exactly if every read-modify-write near the counter is at it, nothing is allocated again and threads start and finish in turn; and then every thread's increments are known, and its even increments in one simulator, its reads in the other |
| `Simulators.IncOutputReplayed` | src/inc_sim.py:64-67 | the whole trace of a finished run, from the constructor on, gives every thread's count and even count |
| `Simulators.CasOutputReplayed` | src/inc_sim_cas.py:136-136 | the whole trace of a finished run gives every thread's count, and the failure formula gives all failures counted |
| `Simulators.LoggedFailuresBreakTheCount` | src/inc_cas.cpp:26-28 | with failed swaps logged as writes the simulated counter is right exactly if none failed |
| `Simulators.NeighbourRejected` | src/inc_sim.py:57-63 | exactly which read-modify-writes fail the assertion: those that overlap the allocation or adjoin it without being the counter |

## Left out

* Pin itself: instrumentation, options, thread-local storage, images and function lookup; files and pipes beyond sequences of lines or bytes.
* The second unlock in `pin_critical_section`: `pause` never sets its flag, so the destructor unlocks again (`trace/trace.cpp:61-71`). `pause` is modelled as the end of the critical section.
* Context changes of threads that never registered (`trace/trace.cpp:792-811`).
* The test option `-t` of the tracer, which switches locking off, and accesses by untraced threads.
* A claim that no memory line lies outside the region of interest: tracing is decided before the line is stamped.
* A bound on how far the lines in the file lag behind: only clocks are bounded, since a listed thread with a recent clock is not flushed.
* Splitting a file into lines and cutting long lines; lines are given as strings that fit. Characters are compared by code.
* `failassert` of the comparer, which turns a difference into an exception.
* Line numbers in the callbacks of the simulation framework, and what simulators print.
* Wrap-around of 64-bit integers.
* Scheduling fairness and the hardware's memory model: each step of a step relation is atomic.
* Data used without its lock: a thread reads its own clock and user id outside its thread lock when it gives address locks back and when a routine begins (`trace/trace.cpp:441-450`, `trace/trace.cpp:465`), and `in_roi` is written under all thread locks and read under the reader's own (`trace/trace.cpp:468-469`, `trace/trace.cpp:680`).
* Thread and file locks in the step relation: what happens under one thread lock, and a broadcast, is one step of `Tracer`. `TracerProgress` is about its steps, `LockOrder` and `LockRoutines` about the order in which the routines take all locks.
* `merge_test/Test.py`, `src/annotation.*`, build files and shell scripts.
