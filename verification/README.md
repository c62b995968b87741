# A model of Excimer's core

Excimer is a sampling profiler for PHP. Handler threads count timer expirations
into a shared pending queue; the PHP virtual machine (VM) drains the queue when
its interrupt flag is up; each drained event records the current stack in a log
that stores every distinct chain of calls once; reports are worked out from the
compressed log. This project models these parts and proves what they promise
together. `dafny verify dfyconfig.toml` checks all of it.

## The parts

**The sample log** (`Text`, `Frames`, `SampleLog`, `Fidelity`). `Log` is the
mutable log: entries, an append-only frame array with parent indices, and the
reverse table that finds a frame by a string key. Its ghost state is the plain
list of samples it was given. The reference for one sample is `Frames.Kept`: the
user calls among the first `max_depth + 1` VM frames, then a truncation marker if
the stack was deeper. `Log.Valid()` says that every entry's chain gives exactly
the files, lines and marker of its sample, and that the reverse table is an exact
bijection. Class, function and closure line are not part of the key, so full
calls are remembered exactly when call sites agree (`Fidelity.FaithfulIff`).

**The reports** (`Collate`, `Names`, `Collapsed`, `CollapsedReader`,
`Speedscope`, `Aggregate`, `PlainReports`, `NameReader`). Each builder is a method with the
loops of the source, proved against a definition over entries and their traces.
`PlainReports` connects all three to the plain samples: each report needs call
sites to agree only on the part of a call that it shows. `NameReader` reads names
and lines back.

**The timers** (`Fifo`, `PendingList`, `TimerProtocol`, `TimerTheorems`,
`TimerLifecycle`, `TimerProgress`). `PendingList` is the intrusive ring on the heap, proved to be
a duplicate-free queue. `TimerProtocol` is a state machine whose actions are the
critical sections and the steps between them: any number of timers with a
handler thread each, the VM thread with its stack of drains, callbacks and
unfinished init or destroy calls, and the kernel. The theorems hold for every
interleaving, and `pthread_create`, `pthread_cond_wait`, `pthread_kill`,
`pthread_join`, `timer_create`, `timer_settime` and `timer_delete` may fail at any
time. Where a failure breaks a promise, the theorem says when: a failed `pthread_kill` can leave
a destroyed timer queued (`TimerLifecycle.RequeuedIff`), and a failed
`pthread_cond_wait` leaves `ready_mutex` locked, so that the handler blocks and
the join in the clean-up never returns (`TimerLifecycle.JoinReturnsIff`). The
queue operations are the functions that the ring's methods are proved against.

**The profiler** (`Rotation`, `Recording`, `Destruction`, `JointRun`, `EndToEnd`,
`Iteration`). `Profiler` records events and rotates logs. What a flush callback
does is a list of actions, which may hold further events and flushes with
callbacks of their own. The effect of such lists
is described on values (`Rotation.View`), where the laws of rotation are proved,
and the methods of the object are proved to have exactly that effect.
`Recording` says which samples are recorded under which settings.
`Destruction` says what is left behind when a profiler is destroyed and freed.
`JointRun` runs the profiler and the timer protocol together, and `EndToEnd`
follows the expirations from the handler threads into the logs.

## Assumptions

- The build without thread safety: one pending list, shared by all threads.
- The VM clears its interrupt flag before it calls the interrupt hook.
- Memory is sequentially consistent and lock-protected sections are atomic.
- A timer object whose handler thread was given up after a failed `pthread_kill`
  or `pthread_join` is not initialised again.
- A `pthread_cond_wait` that fails returns with the mutex still locked, as POSIX
  specifies for its argument errors.
- `pthread_join` returns success only after the thread has exited.
- The signals of a kernel timer that could not be deleted do not reach any thread
  other than the handler it was made for.
- A signal sent while another one is pending may be merged with it or queued.

## Where code and documentation differ

The model follows the code in every case.

- `stubs/ExcimerProfiler.php:33-37` says that a function at the depth limit
  appears to have no caller. The code adds the frame `excimer_truncated` as its
  caller, and keeps one VM frame more than the limit.
- `stubs/ExcimerLog.php:24-31` describes the collapsed report as line-based. A
  file name may contain a line break, and then a reader that goes line by line
  fails. `CollapsedReader.CollapsedRowsIff` gives the exact condition; a reader
  that goes by the first space is always right.
- `stubs/ExcimerProfiler.php:48-54` says that the callback is called once the
  given number of samples has been collected, and on destruction. Events that
  arrive during the destructor's own flush, or after it and before the object is
  freed, may never reach it. `Destruction.FreedIff` gives the exact condition.

## Model

| member | source | states |
|---|---|---|
| Text.DigitsParse | excimer_log.c:410 | a printed count reads back as the same number |
| Text.Decimal32Injective | excimer_log.c:233-236 | "%d" of a 32-bit unsigned value, which prints it as signed, still determines the value |
| Frames.FrameKeyInjective | excimer_log.c:231-237 | the key determines file, line and parent index and nothing else does, even for file names that contain NUL |
| Frames.FrameKeyNotMarker | excimer_log.c:155-184 | no frame key is the marker's key |
| Frames.KeptFromStep | excimer_log.c:190-204 | the recursion with its depth test keeps what the limit promises: the user calls of the first max_depth + 1 frames and a marker if there are more |
| Frames.KeptIs | excimer_log.c:186-227 | what is kept of a stack, in terms of its VM frames: one step for every user frame among the first max_depth + 1 frames, in order, with that frame's file, line, class and function, a closure line exactly for closures, and a marker at the end exactly when the stack is deeper |
| Frames.KeptHasFrame | excimer_log.c:186-227 | every kept call has the fields of a VM frame within the limit |
| Frames.Canonical | excimer_log.c:239-264 | two frame indices are equal if and only if their chains have the same files, lines and marker |
| Frames.ExtendsKeepsSteps | excimer_log.c:251-264 | later additions never change what an index stands for |
| Frames.AppendFrame | excimer_log.c:254-260 | adding a frame under a new key keeps the reverse table an exact bijection with the indices from 1 |
| Frames.AppendMarker | excimer_log.c:166-181 | adding the marker frame keeps it, and every chain still ends at 0 |
| Frames.TraceShowsSteps | excimer_log.c:155-184 | a chain shows exactly the kept steps, the marker as its fake call |
| SampleLog.Log.constructor | excimer_log.c:93-102 | a new log stands for the empty list of samples |
| SampleLog.Log.SetMaxDepth | excimer_log.c:128-131 | only the limit changes, and what is already recorded keeps its meaning |
| SampleLog.Log.CopyOptions | excimer_log.c:133-138 | depth limit, epoch and period are taken over, and nothing else changes |
| SampleLog.Log.TruncationMarker | excimer_log.c:155-184 | the marker's chain is the marker alone, it is created once, and the only failure is an index beyond 32 bits |
| SampleLog.Log.Intern | excimer_log.c:205-264 | the index found or added stands for this call on top of its caller's chain |
| SampleLog.Log.FindOrAddCaller | excimer_log.c:190-200 | the caller's index stands for what is kept below the first frame |
| SampleLog.Log.FindOrAddFrame | excimer_log.c:186-266 | the index stands for what is kept of the stack; every new frame is one of its suffixes |
| SampleLog.Log.Add | excimer_log.c:140-153 | the log then stands for the old samples followed by the new one; old entries and chains are untouched; the count grows by the event count; with room for one frame per stack level it succeeds, and on the 32-bit error no entry is added; every frame that is added is the marker or has the fields of a VM frame of this stack within the limit |
| SampleLog.Log.GetEntry | excimer_log.c:273-280 | there is an entry for exactly the positions of recorded samples, and it stands for the sample recorded at that position |
| SampleLog.Log.TraceToArray | excimer_log.c:596-612 | the backtrace is the whole chain, running function first |
| SampleLog.RepresentsAdd | excimer_log.c:140-153 | recording one sample in a grown table preserves the meaning of all others |
| SampleLog.FramesComeFromStacks | excimer_log.c:205-227 | every frame of a log is the marker or has the fields of a VM frame of a recorded stack |
| Fidelity.FaithfulOnIff | excimer_log.c:231-248 | for any part of a call: chains spell out that part of all samples if and only if samples that agree on files, lines and marker from a call to the root agree on that part of the call |
| Fidelity.FaithfulIff | excimer_log.c:231-248 | the same for full calls |
| Fidelity.OneLineTwoFunctions | excimer_log.c:231-248 | two functions on one line of one file: no log of these samples shows both |
| Collate.CollatedIsExact | excimer_log.c:348-358 | a table of increments lists every key once, with the exact total |
| Collate.IncrCommute | excimer_log.c:396-403 | increments of a key that already has its place commute with any other |
| Names.Sanitised | excimer_log.c:291-304 | every space and NUL, and no other character, becomes an underscore |
| Names.AppendNoSpaces | excimer_log.c:291-304 | the loop appends the sanitised string |
| Names.AppendFrameName | excimer_log.c:306-324 | the buffer grows by the call's name: closure by file and line, file-scope code by file, else class and function |
| Names.FrameNameIsClean | excimer_log.c:291-324 | no reported name contains a space or NUL, whatever the program's names are |
| Names.LineIsClean | excimer_log.c:384-394 | nor does a whole line |
| NameReader.SanitisedFuncName | excimer_log.c:306-324 | a reported name is the sanitised key of the aggregated report |
| NameReader.PlainNames | excimer_log.c:314-322 | file-scope code is named by its file and a function without a class by itself |
| NameReader.MethodFrameName | excimer_log.c:316-323 | a method is named by class, "::" and function, and the reader that cuts at the first "::" recovers both if and only if the class has no "::" and no colon at its end |
| NameReader.MethodFuncName | excimer_log.c:681-687 | the same for the unsanitised names of the aggregated report |
| NameReader.MethodNamesIff | excimer_log.c:681-687 | so two methods share a record if and only if class and function are the same |
| NameReader.ClosureNames | excimer_log.c:307-313 | a closure's name reads back as its file and the line where it is defined, for any file name |
| NameReader.ClosureNamesIff | excimer_log.c:671-677 | two closures share a record if and only if they are defined at the same place |
| NameReader.LineReadsIff | excimer_log.c:384-394 | cutting a line at its semicolons gives the names of the trace back, outermost first, if and only if no name contains a semicolon |
| NameReader.TruncatedLine | excimer_log.c:155-204 | in every log, the line of a sample with more than max_depth + 1 frames starts with "excimer_truncated" |
| Collapsed.FrameCounts | excimer_log.c:348-358 | the first stage sums the entries by frame index, in order of first appearance |
| Collapsed.WalkChain | excimer_log.c:369-382 | the walk collects the whole chain and ends |
| Collapsed.RenderLine | excimer_log.c:384-394 | the reverse run with its separator flag gives the names joined by semicolons, outermost first |
| Collapsed.CollateLines | excimer_log.c:360-405 | the second stage sums the sums by rendered line |
| Collapsed.RenderedIncr | excimer_log.c:360-405 | adding to an index and then rendering equals rendering and then adding to the line |
| Collapsed.TwoStagesEqualOne | excimer_log.c:348-405 | the two stages give the same table, in the same order, as one stage by line |
| Collapsed.Concatenate | excimer_log.c:407-412 | the text is the records in table order |
| Collapsed.FormatCollapsed | excimer_log.c:326-418 | the whole builder gives the text of the one-stage reference |
| Collapsed.LinesAreExact | excimer_log.c:326-405 | lines are distinct, each has the total of exactly the entries whose trace renders to it, and all counts add up to the log's event count |
| CollapsedReader.ReportRoundTrip | excimer_log.c:407-412 | a reader that goes by the first space recovers any list of lines without spaces |
| CollapsedReader.CollapsedRoundTrip | excimer_log.c:326-418 | every log's report reads back as its exact lines and counts |
| CollapsedReader.RowsRoundTripIff | stubs/ExcimerLog.php:24-31 | a line-by-line reader recovers a report if and only if no line contains a line break |
| CollapsedReader.FrameNameBreaks | excimer_log.c:306-324 | a reported name has a line break if and only if one of the names it is made of has |
| CollapsedReader.CollapsedRowsIff | excimer_log.c:326-418 | a line-by-line reader recovers a log's report if and only if no call on any entry's trace has a line break in the names that the report uses |
| CollapsedReader.BrokenLog | excimer_log.c:326-418 | a valid log with one sample, from a file with a line break in its name, whose report the line-by-line reader does not recover |
| Speedscope.SharedKeyInjective | excimer_log.c:437-444 | the key of a shared frame determines its name and file |
| Speedscope.BuildShared | excimer_log.c:468-486 | shared frames have no duplicates, every frame has its place among them, every place is used |
| Speedscope.CountFrames | excimer_log.c:446-453 | the length of a chain |
| Speedscope.BuildSample | excimer_log.c:508-536 | the array filled from the back holds the places of the chain's frames, outermost first |
| Speedscope.SampleIsFaithful | excimer_log.c:508-536 | looking a sample up gives name and file of every call of the trace |
| Speedscope.BuildSamples | excimer_log.c:494-543 | one faithful sample and one weight per entry, and the first and last time |
| Speedscope.GetSpeedscopeData | excimer_log.c:455-563 | the export is faithful: no duplicate and no invented frame, every sample and weight right, the end value is the elapsed time |
| Speedscope.SampleJoinsToLine | excimer_log.c:384-394 | a sample's names joined by semicolons are the entry's collapsed line |
| Speedscope.ExportedFiles | excimer_log.c:420-435 | every position of every exported sample has the file name and the name of the call at that position |
| Speedscope.AsLongExactIff | excimer_log.c:541 | a 64-bit result stored as signed is exact if and only if it is in the signed range |
| Speedscope.WeightsAddUpIff | excimer_log.c:541 | the weights never exceed event count times period, and add up to it if and only if no single entry's product overflows the signed range |
| Speedscope.OverflowingWeight | excimer_log.c:541 | one event in a period of 2^63 nanoseconds gets a negative weight |
| Aggregate.NoteEntry | excimer_log.c:658-716 | the walk over one chain notes self at the top and inclusive at the first meeting of each name |
| Aggregate.CollectByFunction | excimer_log.c:658-717 | all entries in order |
| Aggregate.EntryTotals | excimer_log.c:699-710 | one entry gives a function its count once, however often it recurs, and self only to the top |
| Aggregate.TotalsBounded | excimer_log.c:647-726 | self is at most inclusive, which is at most the log's event count |
| Aggregate.TableAggregates | excimer_log.c:658-717 | every function on any trace, and no other, is listed once with its exact totals and the first call met; self values add up to the events with a trace |
| Aggregate.SortedAggregates | excimer_log.c:629-645 | ordering loses nothing and is by descending inclusive count |
| Aggregate.AggregateByFunction | excimer_log.c:647-726 | the method's result is exact and ordered |
| PlainReports.TracesOfSamplesIff | excimer_log.c:596-612 | for any part of a call: every entry's trace has the parts that its stack shows if and only if call sites agree on that part |
| PlainReports.CollapsedOfSamples | excimer_log.c:326-418 | when the traces have the names that the stacks show, the collapsed lines are those of the plain samples |
| PlainReports.SemicolonsHideNames | excimer_log.c:384-394 | the converse fails for lines, because names with semicolons can join to the same line |
| PlainReports.SpeedscopeOfSamplesIff | excimer_log.c:494-543 | every exported sample shows its plain sample if and only if call sites agree on name and file; every weight is that of the plain sample in any case |
| PlainReports.AggregateOfSamples | excimer_log.c:647-726 | when the traces have the names that the stacks show, exactly the functions shown by some plain sample are listed, each with the totals of the plain samples |
| Fifo.RemovedAt | excimer_timer.c:95-111 | removing from any position closes the gap and keeps the order |
| PendingList.Timer.constructor | excimer_timer.c:167-172 | a cleared timer is unlinked and has no events |
| PendingList.Pending.constructor | excimer_timer.c:146-151 | the list starts empty |
| PendingList.Pending.Enqueue | excimer_timer.c:44-59 | the timer is appended if it is absent, and the ring stays mutual and in order |
| PendingList.Pending.Dequeue | excimer_timer.c:68-89 | the head is returned and removed, or null for an empty list |
| PendingList.Pending.Remove | excimer_timer.c:95-111 | the timer is taken out wherever it is, or nothing happens if it is absent |
| PendingList.Pending.PendingDequeue | excimer_timer.c:122-132 | the head with its count, which is reset; all other counts are untouched |
| PendingList.Pending.Handle | excimer_timer.c:259-266 | overrun + 1 is added to this timer only, and it is queued |
| PendingList.Pending.Unlinked | excimer_timer.h:76-84 | a ring with one timer taken out is a ring: next and prev are mutual, and links are non-null exactly for queued timers |
| PendingList.GapClosed | excimer_timer.c:95-111 | neighbours after a removal |
| PendingList.RingExtended | excimer_timer.c:44-59 | neighbours after an addition at the end |
| TimerProtocol.QueueKept | excimer_timer.c:44-111 | the queue stays duplicate-free, and each action changes only its own timer's membership |
| TimerProtocol.HandlerStepOk | timerlib/timerlib_posix.c:134-162 | each handler step keeps the per-timer invariant: counts, ready handshake, killed flag, signals |
| TimerProtocol.WakeupKept | excimer_timer.c:259-275 | each action keeps the wakeup condition |
| TimerProtocol.ActiveKept | excimer_timer.c:167-257 | each action keeps timers_active equal to the number of valid timers, up to the unlinking step of destroy |
| TimerProtocol.StepKeepsInv | excimer_timer.c:167-275 | every action of every thread keeps the whole invariant |
| TimerTheorems.ReachableInv | excimer_timer.c:146-275 | the invariant holds in every reachable state |
| TimerTheorems.NoLostWakeup | excimer_timer.c:259-275 | with a non-empty queue, the flag is up, a handler is about to raise it, or a drain has yet to find the queue empty |
| TimerTheorems.ReportsRun | timerlib/timerlib_posix.c:147-161 | over every run, the expirations that the kernel reports to a handler, overruns included, are counted, still in the handler's hands, or were thrown away by the killed check |
| TimerTheorems.Conservation | excimer_timer.c:122-132 | over every run, the expirations that the kernel reports, overruns included, equal those passed to the callback, plus the count held, plus what the handler has in hand, plus what re-initialisation wiped and the killed check threw away |
| TimerTheorems.WakeupsBounded | timerlib/timerlib_posix.c:147-161 | over every run, a handler is woken at most once for every expiration and at most once for every other signal |
| TimerTheorems.InterruptsBounded | excimer_timer.c:259-280 | over every run, the VM enters a drain at most once for every time its flag is raised |
| TimerTheorems.BooksRun | excimer_timer.c:259-275 | the sums over the history of a run are what the ghost books hold |
| TimerTheorems.PendingIffCounted | excimer_timer.c:122-132 | in every reachable state a valid timer is queued if and only if its count is positive |
| TimerTheorems.DispatchSound | excimer_timer.c:269-275 | every callback gets a count of at least one and a timer that is not destroyed, unless a pthread call failed for it |
| TimerTheorems.DeliveredPositive | excimer_timer.c:269-275 | the same for all counts delivered in a run |
| TimerTheorems.BoundedBypass | excimer_timer.c:44-89 | while a timer waits, only timers already ahead of it are dispatched, each at most once |
| TimerTheorems.DrainEmpties | excimer_timer.c:269-275 | a drain left alone dispatches the whole queue in order |
| TimerLifecycle.DestroyedIsQuiet | excimer_timer.c:228-257 | a destroyed timer is unqueued and its thread is gone, unless a pthread call failed |
| TimerLifecycle.QuietForever | excimer_timer.c:228-275 | such a timer is not queued, counted or dispatched in any later run before it is initialised again |
| TimerLifecycle.DestroySafety | timerlib/timerlib_posix.c:265-279 | destroy safety from every reachable state, also when callbacks destroy their own or other pending timers |
| TimerLifecycle.RequeuedIff | timerlib/timerlib_posix.c:265-279 | without assumptions on pthread calls, a destroyed timer can be queued again if and only if its handler is past the killed check |
| TimerLifecycle.FailedKillIsUnsafe | timerlib/timerlib_posix.c:85-98 | whenever a handler is past the killed check, a failing pthread_kill leads to that case |
| TimerLifecycle.UnsafeIsReachable | timerlib/timerlib_posix.c:85-98 | and that case is reached by a run from every initial state, for every timer |
| TimerLifecycle.ExitProgress | timerlib/timerlib_posix.c:71-111 | during the join the killed handler has exited or can step if and only if it is not waiting for a ready_mutex that a failed wait left locked |
| TimerLifecycle.ExitStep | timerlib/timerlib_posix.c:134-162 | each of its steps lowers its rank by one, and nothing else changes the rank |
| TimerLifecycle.GracefulExit | timerlib/timerlib_posix.c:85-162 | it exits after exactly its rank, at most 4 steps, with at most one notification, and only if it was past the killed check; expirations and signals do not prolong it, and it is never stuck unless a wait failed |
| TimerLifecycle.HeldForever | timerlib/timerlib_posix.c:193-201 | once a failed wait has left ready_mutex locked, no run lets the handler exit or the join return |
| TimerLifecycle.JoinReturnsIff | timerlib/timerlib_posix.c:103-111 | the join can return if and only if no pthread_cond_wait failed for the timer |
| TimerLifecycle.FailedWaitHangs | timerlib/timerlib_posix.c:193-201 | from every initial state there is a run through a failed pthread_cond_wait into a join that no later run completes |
| TimerLifecycle.StoppedIsDisarmed | excimer_timer.c:215-226 | in every reachable state outside init and destroy, a timer that is not running is disarmed, unless it was destroyed |
| TimerLifecycle.DestroyedIsArmedIff | timerlib/timerlib_posix.c:265-279 | after every run, the kernel timer of a destroyed timer is armed if and only if timer_delete failed for it while it was armed still and nothing has ended it since; so it is disarmed as long as timer_delete succeeds |
| TimerLifecycle.ArmedIsReachable | timerlib/timerlib_posix.c:265-279 | and that case is reached by a run from every initial state, also when every pthread call succeeds |
| TimerLifecycle.StopSettles | excimer_timer.c:215-226 | stopping does not cancel what is pending, but until the next start at most two more notifications are counted |
| TimerLifecycle.DestroyStops | excimer_timer.c:241-245 | after the successful stop in destroy no expiration can follow until the timer is started again |
| TimerLifecycle.RunningIff | excimer_timer.c:190-245 | after every run, is_running says that the timer was started with success while valid, and was neither stopped with success nor destroyed nor initialised again since |
| TimerLifecycle.TidIsSet | timerlib/timerlib_posix.c:193-212 | after the ready handshake the thread id given to timer_create is set |
| TimerLifecycle.ActiveIsValid | excimer_timer.c:167-257 | outside init and destroy, timers_active is the number of valid timers |
| TimerLifecycle.ShutdownSafe | excimer_timer.c:153-165 | when shutdown destroys the mutex, no handler is alive and nothing is queued, unless a pthread call failed |
| TimerProgress.DispatchRun | excimer_timer.c:269-275 | from every state of the invariant in which a queued timer is not itself being destroyed and the VM thread is not hung, a run that only finishes what is under way dispatches it |
| TimerProgress.HungDispatchesNothing | timerlib/timerlib_posix.c:193-201 | a VM thread that has begun to end a handler without ready_mutex stays there and dispatches nothing, as long as no pthread call fails |
| TimerProgress.GoingIsNotDispatched | excimer_timer.c:228-257 | a timer that is being destroyed is not dispatched before it is initialised again, as long as no pthread call fails |
| TimerProgress.DispatchableIff | excimer_timer.c:259-275 | in every reachable state, a queued timer can be dispatched without failing pthread calls if and only if it is not being destroyed and the VM thread is not hung |
| Rotation.FreshLog | excimer.c:852-856 | a rotated-in log is empty and inherits depth limit, epoch and period |
| Rotation.PerformedSound | excimer.c:818-881 | after any list of events, flushes and settings, however deeply flushes nest, the logs in order of creation hold exactly the recorded events, and the callback has seen each rotated log at most once, in that order |
| Rotation.PerformedGrows | excimer.c:818-881 | nothing recorded, closed or handed over is ever taken back or changed |
| Rotation.PerformedHanded | excimer.c:841-881 | as long as a callable callback stays set, every rotated log is passed to it |
| Rotation.PerformedCapped | excimer.c:833-837 | while max_samples stays at n, no log, current or closed, exceeds n samples, and the current one is below n between events |
| Rotation.Profiler.constructor | excimer.c:583-608 | a new profiler has one empty log with the current time as its epoch, the default options, and no callback |
| Rotation.Profiler.Rotate | excimer.c:852-856 | the old log is closed with all its samples, and the new one is empty and inherits its options |
| Rotation.Profiler.Halt | excimer.c:809-816 | the profiler stops running if the timer can be stopped, and nothing else changes |
| Rotation.Profiler.BeginFlush | excimer.c:841-870 | the old log is returned and closed, a fresh one takes its place, and an uncallable callback stops the profiler |
| Rotation.Profiler.Flush | excimer.c:841-881 | the old log is returned; the effect is exactly the flush on values: rotate, pass to a callable callback, stop on an uncallable one; the only failure is the 32-bit one |
| Rotation.Profiler.Record | excimer.c:818-831 | exactly one sample is added to the current log, and its last entry stands for what the depth limit in force keeps of this stack, with this count and time; it fails only when a frame index exceeds 32 bits, and never with room for the stack |
| Rotation.Profiler.Event | excimer.c:818-838 | the event's own stack, count and time are the last entry of the log it finds, and that log is flushed exactly when it has reached max_samples; failure as for recording |
| Rotation.Profiler.Perform | excimer.c:841-881 | any list of actions has exactly its effect on values, so the laws above hold of the log objects; it fails only when a frame index exceeds 32 bits, and the current log grows by at most one frame per stack level |
| Rotation.Profiler.PerformOne | excimer.c:776-838 | the same for one action, with the same only failure |
| Rotation.Profiler.Configure | excimer.c:641-731 | each setter changes its own option only, and no log's samples |
| Rotation.Profiler.SetOptions | excimer.c:684-695 | the current log's limit and period change, its samples and all other logs do not |
| Rotation.Profiler.Destruct | excimer.c:626-636 | a non-empty last log is flushed, and with an empty one nothing happens; the only failure is the 32-bit one |
| Recording.PerformedRecords | excimer.c:818-881 | after any list of actions, nested ones included, exactly the events that happen have been recorded, each with its own stack, count and time and under the depth limit in force, and every setting is the one last made |
| Recording.ClearedNeverRotates | excimer.c:725-731 | once the callback is cleared, no event rotates the log until a limit is set again or a flush is asked for |
| Recording.OptionsLastSet | excimer.c:641-695 | every later sample is kept under the depth limit last set and every later log has the period last set, across rotations |
| Destruction.PerformedCarries | excimer.c:818-881 | with a kept callback, how many samples are left in the current log follows from the actions and max_samples alone |
| Destruction.DestructionIff | excimer.c:626-636 | for every kept callback, the destructor has handed over every recorded event when it returns if and only if its callback leaves no sample behind, counted from its actions and max_samples |
| Destruction.FreedIff | excimer.c:611-636 | until the object is freed, nothing is lost if and only if neither the destructor's callback nor what follows it leaves a sample behind |
| Destruction.EventAfterDestructorIsLost | excimer.c:611-636 | without a size limit, one event between destructor and free is recorded and not handed to anybody |
| Destruction.LateEventIsLost | excimer.c:612-636 | without a size limit, one event during the destructor's callback is recorded and not handed to anybody |
| Destruction.UnlimitedIff | excimer.c:833-837 | without a size limit, nothing is left if and only if the last of the events and flushes is a flush |
| Destruction.LimitOneLeavesNothing | excimer.c:833-837 | with a size limit of one, nothing is ever left |
| Destruction.PerformedArrivals | excimer.c:818-831 | with a kept callback, the events counted from the actions and max_samples are the events recorded |
| Destruction.ClosedLogsAreFull | excimer.c:833-837 | with a constant limit n and no explicit flush, every log that is closed has exactly n samples, and these logs and what is left account for every recorded event |
| Destruction.RestIsModulo | excimer.c:833-837 | so what is left is the number of these events modulo n |
| Destruction.LifeIff | excimer.c:583-881 | for every life with a kept callback, also during the destructor's callback and after it: every rotated log was passed to the callback, and every recorded event is in one of these logs if and only if nothing is left at the end |
| Destruction.Lifetime | excimer.c:583-881 | the profiler object that is created, given a callback, used, destroyed and freed has lived exactly that life; the only failure is the 32-bit one |
| Destruction.HandedOnce | excimer.c:841-881 | if every rotated log was handed over, the calls got the log objects in order of creation, each once, and these still hold all their samples |
| JointRun.UnfoldedIsPerformed | excimer.c:841-881 | nested callbacks have the same effect as their steps in a row |
| JointRun.SteppedIsPerformed | excimer.c:841-881 | and steps in a row have the effect of a list of actions with quiet callbacks |
| JointRun.Follow | excimer.c:818-881 | a profiler object that takes a list of steps has exactly their effect, and fails only when a frame index exceeds 32 bits |
| JointRun.RunIsScript | excimer.c:818-881 | every joint run has, for the profiler, the effect of a list of actions |
| JointRun.RunSound | excimer.c:818-881 | in every joint run nothing recorded is lost, duplicated, reordered or taken back |
| JointRun.RunHanded | excimer.c:841-881 | in every joint run that keeps the callback, every rotated log is passed to it |
| JointRun.RunCapped | excimer.c:833-837 | in every joint run that keeps the size limit, no log exceeds it |
| JointRun.RunTied | excimer.c:787-816 | the source has one flag only, the timer's is_running; the copy of it that the profiler's values carry agrees with it in every joint run, also after a failed flush |
| JointRun.FailedFlushStops | excimer.c:862-870 | a flush with an uncallable callback stops the timer, and disarms it if it is valid, unless the kernel refuses |
| JointRun.RecordedIsDelivered | excimer.c:818-831 | under every interleaving, with drains nested in flush callbacks, the profiler records exactly the counts that the timer protocol dispatches, in order |
| JointRun.RecordedIsDispatched | excimer.c:818-831 | under every interleaving, the recorded samples are exactly the dispatched ones: stack and time of the dispatch, the count taken from the timer, and the depth limit last set |
| EndToEnd.LogTotal | excimer_log.c:140-153 | a log's event count is the total of its samples |
| EndToEnd.ExpirationsReachLogs | excimer.c:818-838 | after every joint run, every expiration that the kernel reported for the profiler's timer, overruns included, is counted in one of its logs, is still pending or in the handler's hands, or was wiped or thrown away |
| EndToEnd.Profile | excimer.c:583-881 | the profiler object that takes the steps of a joint run ends with the logs that the run describes, and fails only when a frame index exceeds 32 bits |
| EndToEnd.SizeAtMostEvents | excimer_timer.c:122-132 | after every joint run, each log has at most as many entries as events |
| EndToEnd.TimestampExactIff | excimer.c:1268-1278 | the unsigned difference is exact if and only if the time is not before the epoch |
| EndToEnd.PerformedUpToNow | excimer.c:818-831 | if the clock readings of the actions, nested ones included, do not run backwards, the recorded times are in order and not before the epoch |
| EndToEnd.NoWrapInTimes | excimer_log.c:497-552 | then the entries of every log, rotated or current, are in order of time, the subtraction of the epoch is exact, and so is the end value of a profile shorter than 2^63 nanoseconds |
| EndToEnd.RunTimes | excimer.c:818-831 | the same for the logs of every joint run whose clock does not run backwards |
| EndToEnd.RunCarries | excimer.c:833-837 | what a joint run leaves in the current log follows from its actions and max_samples |
| Iteration.LogIterator.constructor | excimer.c:940-950 | an iterator starts at the first entry with nothing cached |
| Iteration.LogIterator.SurvivesAppend | excimer.c:953-966 | a growing log keeps the cached entry coherent |
| Iteration.LogIterator.IsValid | excimer.c:940-950 | false exactly when every recorded sample has been passed, and then nothing is cached |
| Iteration.LogIterator.Key | excimer.c:969-979 | the key of the cached entry if there is one; none exactly when every recorded sample has been passed |
| Iteration.LogIterator.Current | excimer.c:953-966 | the entry at the index, created on demand, or null past the end |
| Iteration.LogIterator.Next | excimer.c:982-993 | the cache is dropped and the index stops at the end |
| Iteration.LogIterator.Rewind | excimer.c:996-1003 | back to the first entry, from any state |
| Iteration.LogIterator.VisitAll | excimer.c:940-1003 | a foreach over a quiet log visits every entry once, in order, under its own key |

## Left out

- SampleLog.Log.Add: event counts are unbounded, so the wrap-around of a `zend_long` total after 2^63 events is not modelled.
- TimerProgress.DispatchableIff: not for a timer that is being destroyed and whose handler was already given up; TimerLifecycle.RequeuedIff says when such a timer is queued again.
- PlainReports.CollapsedOfSamples: one direction only, because different names can join to the same line, as PlainReports.SemicolonsHideNames shows.
- PlainReports.AggregateOfSamples: one direction only, because totals by name do not determine the names of single entries.
- Aggregate.SortedAggregates: the order among functions with equal inclusive counts, which the source leaves to the engine's sort.
- PHP module glue in `excimer.c`: class registration, arginfo, INI entries, parameter parsing, `ArrayAccess` on logs, the `ExcimerTimer` object, and how the event type and the need to re-initialise decide the outcome of `start`. They wrap the Zend API.
- Reference counts, allocation and string ownership: strings are values and hashtables are insertion-ordered lists or maps.
- Fatal errors, bailouts and exceptions that escape a callback: the 32-bit index error is a failed result, after which nothing is promised.
- `timerlib/timerlib_kqueue.c`, `timerlib/timerlib_common.c`, signal masks, clock selection and time arithmetic: kernel calls and short linear arithmetic.
- Zero durations in `excimer_timer_start` and `excimer_timer_get_time`: starting is an action that succeeds or fails.
- The thread-safe build, where each PHP thread has a list of its own.
- The random stagger of the first expiration.
- The field arrays of `excimer_log_frame_to_array` and the constant fields of the Speedscope document.
