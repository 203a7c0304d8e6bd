# ZeOS kernel: a verified model

ZeOS is a small 32-bit x86 teaching kernel. Its handlers and system calls run with interrupts off, so
each of them is one atomic step, and the kernel is a state machine. This project models four parts of
it and proves what holds in every run.

- **Scheduler and queues.** Round-robin scheduling, the blocking queues, the keyboard protocol and the
  semaphores, as a machine over sequences (`Scheduler`) and as a class over the kernel's intrusive
  linked lists (`Lists`, `Queues`, `Kernel`). `Kernel.Kernel.Handle` shows that the linked version
  takes exactly the machine's step for every interrupt and system call, and keeps its invariant.
  `Partition`, `Reachable`, `Waiting`, `Quanta`, `Tasks`, `Boot`, `SemaphoreRuns`, `Keys`, `Pending`,
  `Readers` and `ReaderRuns` hold the theorems about runs.
- **Memory.** The frame map, the page tables and their users: fork, thread creation, exit, dynamic
  regions. `Frames`, `Paging` and `MemoryManager` work in place on arrays; `Memory` is the machine
  they refine (`MemoryManager.Manager.Handle`); `Ownership`, `MemoryInv`, `MemoryRuns`, `MemoryBoot`,
  `MemoryTheorems`, `LowPages`, `Regions` and `RegionRuns` hold the theorems.
- **The two together.** `WholeKernel` runs both machines on one state: the free queue and the memory
  agree on which slots are free, and the theorems about runs of either machine carry over to runs of
  the whole kernel.
- **Small kernels.** Ring buffer, 64-bit division, byte copies, time accounting, decimal conversion
  (`CircularBuffers`, `Utils`, `Accounting`, `Buckets`, `Libc`).

Runs are sequences of events, each enabled in the state it happens in. A task that is switched to
while it is inside `getKey` finishes the call before any other event, because interrupts are still
off; the machine has `GetKey` and `Resume` events for the two halves of the call. Datatype fields
described as history (call logs of semaphores, accepted characters, how a reader was released, the
claim log of the memory machine) are not kernel state; they only serve to state properties.

Numbers of tasks, quantum, buffer size and number of semaphores are parameters of the boot state. The
page and frame counts are those of `Layout.SIZES`, a constant of which nothing is known but that the
first process fits; `Layout.ZEOS` holds the values of the kernel as it is, and theorems give the
resulting numbers for `SIZES == ZEOS`.

Some promises turn out to hold only under a condition. For these the model follows the code, and a
lemma states when the code keeps the promise:

- Fork maps the child's pages 16 pages further on than the gap it searched for. It keeps every frame
  owned exactly when those pages were absent (`ForkKeepsOwnedIff`), and a run of three region calls
  from boot leads to a state where they are not (`ForkWindowCanBeBlocked`).
- `pending_to_service` is described as the number of ready processes with a character to collect. It
  is that number plus a drift that every call which does not block, and every call without time left
  that a key wakes, adds to (`PendingCounts`, `DriftFromBoot`).
- `blocked_ticks` is never charged: the time a reader was blocked is booked as system time
  (`RunConserves`, `StepReads`).
- `block` has a counter of pending unblocks that no code raises, so every call blocks for good
  (`BlockBlocks`). The semaphore calls leave the state field alone, so tasks that wait there are marked
  Run (`MarksEveryRun`).
- Fork opens the kernel and code pages of the child to the user, for writing too (`ForkShares`); in the
  first process they are as boot left them (`BootPages`, `LowPagesStay`).
- A reader that a key press releases is meant to find a character. It finds none exactly if the
  characters used, stolen and dropped exceed the spare ones by those of all the readers still waiting
  for theirs (`KeyReaderServedIff`), and nobody is ever short exactly if none is stolen by a call that did
  not block, or dropped on a full buffer, while nothing is spare (`ShortIff`, `NeverShortIff`); both
  happen in runs from boot (`StolenFromBoot`, `DroppedFromBoot`).
- A semaphore may be created with a negative value. Then a signal is safe, that is, finds a task to wake,
  exactly if more waits than signals were made before it (`SignalSafeIff`, `HistorySafeIff`), and the
  count no longer gives the queue length (`QueueLengthIff`). A signal that is not safe makes the anchor of
  the empty queue the last entry of the ready queue (`WakeNobody`, `UnsafeSignal`).
- Exit gives back every frame of a task exactly if it has no region left (`ExitFreesAllIff`). A region
  that is left stays mapped until somebody deletes it, and only until then (`RegionsStay`,
  `RegionLivesIff`). Somebody can exactly while a process occupies the slot whose table it is in
  (`RecoverableIff`): a thread's process (`MasterFrees`, `ThreadLeavesRegion`), or a process forked into
  the slot later.
- A forked child is meant to have only the pages it shares and its own data. It has exactly those if no
  region was left in its slot (`ChildMapsOnlyItsOwnIff`), and a run from boot leads to one that has more
  (`ChildInheritsRegion`).
- A freed run of pages is given back exactly only if frame 256 was not among its frames
  (`RoundTripIff`); frame 256 never is (`Frame256Permanent`).

## Model

| member | source | states |
|---|---|---|
| Lists.InitListHead | list.c:6-10 | the anchor becomes a ring with no entries |
| Lists.ListAddBetween | list.c:18-26 | inserting between two neighbours puts the entry at that place of the list; the ring stays consistent both ways |
| Lists.ListAdd | list.c:36-39 | the new entry is first, the others follow in order; only the entry, the anchor and the old first entry are written |
| Lists.ListAddTail | list.c:50-53 | the new entry is last; only the entry, the anchor and the old last entry are written |
| Lists.ListDel | list.c:62-79 | exactly that entry leaves the list, the others keep their order, its own links are cleared; only it and its neighbours are written |
| Lists.Unlink | list.c:62-79 | the writes of list_del for any neighbours, also for an anchor that is its own neighbour |
| Lists.RingRotates | list.c:18-79 | seen from its last entry, a ring is the ring of the anchor and the other entries |
| Lists.WakeNobody | sched.c:344-348 | waking the first of nobody: the empty queue's anchor becomes the last ready entry, and the whole ready queue appears in the semaphore's queue |
| Lists.ListEmpty | list.c:96-99 | true exactly for the list without entries |
| Lists.ListFirst | include/list.h:131-132 | the first entry, or the anchor itself if there is none |
| Lists.RingFrame | list.c:18-79 | a list none of whose links were written is the same list |
| Queues.QueueSet.constructor | sched.c:252-259 | all anchors empty, all task entries unlinked |
| Queues.QueueSet.AddTail | list.c:50-53 | given a task linked nowhere, it becomes last in that queue and every other queue is untouched |
| Queues.QueueSet.Del | list.c:74-79 | given a task linked at that place, it leaves that queue, is linked nowhere, and every other queue is untouched |
| Queues.QueueSet.WakeNobody | sched.c:344-348 | the same among all queues: the new last entry belongs to no task, and the queues are no longer valid |
| Queues.QueueSet.AddAll | sched.c:231-243 | the free queue holds every task in slot order |
| Queues.QueueSet.Boot | sched.c:166-199 | the first two slots leave the free queue for idle and the first process |
| Queues.QueueSet.TakeFirst | sched.c:137-142 | the head of the queue is removed and returned |
| Queues.QueueSet.Following | include/list.h:114-125 | the successor in the current list, the anchor after the last entry |
| Queues.QueueSet.Reset | sched.c:323 | re-initialising an anchor nobody queues at changes no queue |
| Kernel.Kernel.constructor | sched.c:166-259 | the linked kernel boots into the machine's initial state |
| Kernel.Kernel.CurrentUnlinked | sched.c:116-121 | the running task is in no queue, so it may be appended without unlinking |
| Kernel.Kernel.UpdateProcessState | sched.c:116-130 | a task not marked Run is unlinked first; then it is last in the target queue with the matching state; nothing else changes |
| Kernel.Kernel.SchedNext | sched.c:132-154 | switches to the first ready task, or to idle, with a fresh quantum |
| Kernel.Kernel.Reschedule | sched.c:104-164 | one tick of the quantum; a switch exactly when it is used up and somebody is ready |
| Kernel.Kernel.Yield | sched.c:308-313 | the caller goes last in the ready queue and the next task runs |
| Kernel.Kernel.Block | sys.c:368-378 | blocks the caller, or uses up a pending unblock |
| Kernel.Kernel.Exit | sys.c:475-480 | the caller's slot goes to the free queue and the next task runs |
| Kernel.Kernel.Spawn | sys.c:69-193 | a free slot becomes a ready copy of the caller, or goes back to the end of the free queue when memory is short |
| Kernel.Kernel.VisitReader | interrupt.c:49-55 | one reader ages by a tick and moves to the ready queue exactly if its timeout expires |
| Kernel.Kernel.NextReader | include/list.h:123-125 | the saved successor is the next reader to visit even if the current one was unlinked |
| Kernel.Kernel.SweepOne | interrupt.c:49-55 | after visiting i readers the queues are those of the i-th prefix of the sweep |
| Kernel.Kernel.WalkReaders | interrupt.c:48-56 | the walk visits every reader exactly once although it unlinks from the list it walks |
| Kernel.Kernel.KeyTimeoutSweep | interrupt.c:42-57 | every blocked reader ages, exactly the expiring ones join the ready queue in order, the rest keep their order |
| Kernel.Kernel.ClockRoutine | interrupt.c:60-68 | a tick is the sweep followed by scheduling |
| Kernel.Kernel.WakeReader | interrupt.c:87-91 | the first blocked reader becomes the last ready task |
| Kernel.Kernel.PushKey | interrupt.c:82-84 | the character is buffered unless the buffer is full |
| Kernel.Kernel.KeyboardRoutine | interrupt.c:75-98 | every other interrupt buffers a character and wakes one reader |
| Kernel.Kernel.GetKey | sys.c:384-396 | the caller blocks exactly if readers are pending or queued or nothing is buffered |
| Kernel.Kernel.ResumeGetKey | sys.c:398-408 | the return code and character of the call, and what it takes from the buffer |
| Kernel.Kernel.SemCreate | sched.c:317-326 | hands out the first free semaphore with the given value, or -22 |
| Kernel.Kernel.SemWait | sched.c:328-338 | counts down; below zero the caller queues and the next task runs |
| Kernel.Kernel.SemSignal | sched.c:340-351 | counts up; at zero or below the first waiter becomes ready |
| Kernel.Kernel.UnsafeSignal | sched.c:340-351 | what a signal does that is not safe: counts up and puts the queue's anchor into the ready queue |
| Kernel.Kernel.Handle | sys_call_table.ss:4-40 | every interrupt and call on the linked queues is exactly a step of the machine and keeps its invariant; so every list_del finds a linked entry and every list_add_tail an unlinked one |
| Partition.StepConserves | sched.c:116-164 | no step loses or duplicates a task; only idle enters, when nothing is ready |
| Partition.StepKeepsPlaces | sched.c:116-164 | each task but idle keeps exactly one place, idle at most one |
| Reachable.QueuePartition | sched.c:231-259 | a task is running or in exactly one of the ready, blocked, key and free queues or one semaphore's queue |
| Reachable.StepKeepsTcbs | sched.c:116-130 | the running task is marked Run, parked ones are not; quanta stay as set; readers in the key queue are those waiting inside getKey |
| Reachable.StepKeepsKeyboard | interrupt.c:80-84 | accepted characters are the taken ones followed by the buffered ones |
| Reachable.StepKeepsSems | sched.c:317-351 | every semaphore keeps its accounting and its order |
| Reachable.StepKeepsInv | sched.c:104-164 | every step keeps the whole invariant |
| Reachable.RunKeepsInv | sched.c:104-164 | every run keeps the whole invariant |
| Semaphores.CreateFair | sched.c:317-326 | a new semaphore keeps its books, whatever its value |
| Semaphores.WaitFair | sched.c:328-338 | a wait keeps count, released calls and queued calls in call order |
| Semaphores.SignalFair | sched.c:340-351 | so does a signal that is safe |
| Semaphores.BracketedHolders | sched.c:328-351 | after any history whose signals come from tasks that got through, at most max(v, 0) holders; one for v = 1 |
| Semaphores.SignalSafeIff | sched.c:344-348 | after any history of waits and safe signals, a signal is safe exactly if v >= 0 or waits outnumber signals |
| Semaphores.HistorySafeIff | sched.c:328-351 | a whole history of waits and signals is safe exactly if v >= 0 or no prefix has more signals than waits |
| Semaphores.QueueLengthIff | sched.c:328-351 | the queue length is max(0, -count) exactly for v >= 0; below 0 the count is too low by v for ever |
| Semaphores.UnsafeHistory | sched.c:344-348 | a single signal after creation with a negative value is unsafe |
| Semaphores.ByHistory | sched.c:317-351 | created with v, after any safe history: count, who got through and who queues, in terms of v and the calls made |
| SemaphoreRuns.StepSem | sched.c:328-351 | only calls on a semaphore change it, once created |
| SemaphoreRuns.RunPlays | sched.c:328-351 | after any run a semaphore is what the run's calls on it make of it |
| SemaphoreRuns.CreateGives | sched.c:317-326 | a new semaphore has exactly the value asked for, nobody waiting, and is no longer free |
| SemaphoreRuns.CreatedSemaphore | sched.c:317-351 | in every run after SemCreate(v): count = v + signals - waits; the first min(waits, max(v, 0) + signals) waits are through, in call order, the others queue |
| SemaphoreRuns.FirstWaitsPass | sched.c:317-338 | without a signal exactly the first max(v, 0) waits pass; for v = 1 the second one queues |
| SemaphoreRuns.Exclusion | sched.c:317-351 | in every run with bracketed signals at most max(v, 0) tasks are in the critical section, one for v = 1 |
| SemaphoreRuns.CreateInTurn | sched.c:245-250 | from boot semaphores are handed out in order, each with its own value |
| SemaphoreRuns.NoneLeft | sched.c:319 | when none is left the call changes nothing |
| SemaphoreRuns.TenSemaphores | sched.c:40-41 | with the kernel's constants ten can be created |
| Waiting.StepAdvances | sched.c:104-164 | the waiting measure of a ready task never rises and drops on each tick |
| Waiting.BoundedWaiting | sched.c:104-164 | the task at position k gets the CPU within remaining_quantum + q*k ticks of any run |
| Waiting.BoundAttained | sched.c:104-164 | with nothing but ticks the task does not run any earlier, so the bound is exact |
| Waiting.ReadyFits | include/sched.h:15 | at most n - 1 tasks are ready |
| Waiting.ReadyMeasure | sched.c:104-154 | so the measure is at most q*(n - 1) |
| Quanta.StepQuantum | sched.c:104-147 | what is left of the quantum after a step: a full one exactly if the task stepped aside or used it up, else less one per tick |
| Quanta.StepKeepsCpu | sched.c:104-164 | otherwise the task keeps the CPU |
| Quanta.KeepsCpu | sched.c:104-164 | over any run a task keeps the CPU for as many ticks less one as its quantum has left, unless it steps aside |
| Quanta.FullQuantum | sched.c:110-147 | a task that gets the CPU or a fresh quantum is not switched away from for q - 1 ticks unless it steps aside |
| Quanta.QuantumEnds | sched.c:108-164 | the last tick of a quantum: the first ready task, or a reader timing out now, takes over and the task goes last; with nobody ready it goes on |
| Quanta.Alone | sched.c:108-114 | a task alone is taken round its quantum by the ticks and never away from the CPU |
| Quanta.BootQuantum | sched.c:199-222 | the first process starts with a full quantum |
| Tasks.StepKeepsMarks | sched.c:116-144 | running tasks are marked Run, blocked ones Blocked, ready ones not Blocked; those at a semaphore keep the mark Run |
| Tasks.MarksEveryRun | sched.c:116-144 | so in every run from boot |
| Tasks.JoinsReady | sched.c:122-127 | a task that joins the ready queue is marked Ready, unless a signal put it there |
| Tasks.UnblocksAreUsed | sys.c:368-378 | n pending unblocks let n calls of block return at once, and the next one blocks |
| Tasks.NegativeUnblocks | sys.c:368-378 | a negative counter blocks nobody and stays as it is |
| Tasks.BlockBlocks | sys.c:368-378 | in every run from boot every call of block blocks its caller |
| Tasks.ChildStarts | sys.c:78-193 | a new task is last in line, with its creator's quantum, no pending unblocks, no call in progress; nobody else's control block changes |
| Tasks.FailedChild | sys.c:96-107 | when memory is short the tried slot holds a copy of the caller's control block and goes to the end of the free queue; nothing else changes |
| Tasks.AlwaysEnabled | sys_call_table.ss:4-40 | a task inside getKey finishes it; otherwise interrupts can come and any call can be made, with any arguments |
| Tasks.SelectConcat | interrupt.c:48-56 | the sweep sorts released and kept readers in queue order |
| Tasks.SweepReaders | interrupt.c:48-56 | a tick takes one off each positive timeout, releases exactly those at one, and keeps the rest in order |
| Waiting.StepAwaits | interrupt.c:42-57 | a blocked reader waits on, a tick closer after each tick, or is released by its last sweep or by a key |
| Waiting.LeavesKeyQueue | interrupt.c:42-57 | a blocked reader leaves the key queue within its timeout |
| Waiting.TimedReaderRuns | interrupt.c:42-68 | it has the CPU again within its timeout plus q*(n - 1) ticks |
| Waiting.TimedOutIff | sys.c:398 | a resumed call reports a timeout exactly if it asked for no time or was released by the sweep |
| Waiting.TimeoutIffSwept | interrupt.c:42-91 | over any run, a blocked call with time left reports a timeout exactly when a tick and not a key took it out of the queue |
| Boot.BootedInv | sched.c:166-259 | the initial state satisfies the invariant |
| Boot.EveryRun | sched.c:104-164 | the invariant holds in every run from boot |
| Boot.ReadyWithin90 | include/sched.h:15 | with 10 tasks and quantum 10 a ready task runs within 90 ticks |
| Boot.GetKeyWithinTimeoutAnd90 | sys.c:384-396 | a blocked getKey with a positive timeout runs again within timeout + 90 ticks |
| Boot.ZeosLimits | include/circular_buffer.h:12 | with the kernel's constants at most three characters are buffered and at most nine of ten tasks are ready |
| Boot.SemaphoresEveryRun | sched.c:317-351 | in every run and for every initial value: count, no overtaking, when a signal is safe, when the queue length is max(0, -count) |
| Boot.KeyboardEveryRun | circular_buffer.c:21-54 | accepted = taken ++ buffered, and what was delivered, in every run |
| Keys.ResumeDelivers | sys.c:398-408 | getKey returns a character exactly if it is the one handed to the process |
| Keys.ResumeTakes | sys.c:398-404 | it takes the oldest character, or nothing on a timeout or an empty buffer |
| Keys.RunReturns | sys.c:402-407 | over any run the characters returned, in order, are those handed over |
| Keys.StepAccepts | interrupt.c:80-96 | a key that goes down while there is room is accepted with its own character; interrupts take turns |
| Keys.RunAccepts | interrupt.c:80-84 | over any run the accepted characters are those of the keys pressed while there was room |
| Keys.EndToEnd | interrupt.c:75-96 | in every run from boot: returned characters followed by the buffered ones are the pressed ones, in order, but for the error value |
| Keys.GetKeyRecords | sys.c:387-396 | a call records the timeout it was made with and whether it blocked |
| Keys.UntimedWaits | interrupt.c:48-56 | a reader without a timeout waits until a key releases it |
| Keys.AskedUntilRun | sys.c:384-398 | what a call asked for stays on record until it has the CPU again |
| Keys.DirectCallTimesOutIff | sys.c:387-398 | a getKey(timeout) that does not block reports a timeout exactly for timeout <= 0 |
| Keys.BlockedCallTimesOutIff | sys.c:387-398 | one that blocks does so exactly if timeout <= 0 or a tick, not a key, took it out of the queue |
| Pending.StepDrifts | sys.c:398-400 | how one step changes pending_to_service against the number of woken readers |
| Pending.PendingCounts | interrupt.c:70-90 | pending_to_service is the number of woken readers plus the drift of the run |
| Pending.DriftFromBoot | sys.c:393-400 | a key press and one getKey leave it at -1 with nobody woken |
| Readers.StepCredit | interrupt.c:80-91 | how one step changes the characters in the buffer against the released readers they are owed to |
| Readers.RunCredit | interrupt.c:80-91 | over every run that difference is what was spare and went without, less what was used, stolen and dropped |
| Readers.KeyReaderServedIff | sys.c:398-408 | in every run, a reader released by a key with time left returns -EAGAIN for an empty buffer exactly if used, stolen and dropped characters exhaust the rest; never if none was stolen or dropped while nothing was spare |
| Readers.TakesWithoutBlockingIff | sys.c:393-396 | in every run, a getKey does not block exactly if nobody queues, a character is there and the drift cancels the released readers; it takes an owed character only after negative drift |
| Readers.ShortIff | interrupt.c:82-90 | a step makes a released reader short exactly if it steals a character or drops one while nothing is spare; a dropped one meets a buffer whose every character is owed |
| Readers.NeverShortIff | interrupt.c:80-91 | over any run no released reader is ever short exactly if no character is stolen or dropped while nothing is spare |
| ReaderRuns.StolenFromBoot | sys.c:393-404 | ten steps from boot to a released reader whose character another call took; one theft, no drop |
| ReaderRuns.DroppedFromBoot | interrupt.c:82-90 | for every buffer size, a run from boot in which one character is dropped, none is stolen, and a released reader goes without |
| CircularBuffers.CircularBuffer.constructor | circular_buffer.c:11-15 | the empty buffer, tail at -1 |
| CircularBuffers.CircularBuffer.Push | circular_buffer.c:40-54 | appends unless full, and says which |
| CircularBuffers.CircularBuffer.Pop | circular_buffer.c:21-34 | removes and returns the oldest element, or -1 |
| CircularBuffers.WrapIsMod | circular_buffer.c:24-28 | stepping round the array is arithmetic modulo its size |
| CircularBuffers.CircularBuffer.TailFollows | circular_buffer.c:11-48 | the place after the tail is num_elem places after the head, modulo the size, also while the tail is -1 |
| CircularBuffers.PushedWindow | circular_buffer.c:42-48 | writing one past the window extends it by that element |
| CircularBuffers.PoppedWindow | circular_buffer.c:23-30 | moving the head round drops the oldest element |
| Accounting.UpdateStats | p_stats.c:3-13 | the bucket grows by the ticks since the last update, modulo 2^32 |
| Accounting.ChargedConserves | p_stats.c:9-11 | an update keeps the buckets' sum equal to the elapsed time |
| Accounting.RunConserves | sched.c:125-151 | in every run, whatever the clock reads, a task's buckets add up to its age and none is blocked time |
| Accounting.RunConservesLive | sched.c:125-151 | the same for the tasks that exist, whatever unused slots hold |
| Accounting.ConservedFromBoot | sched.c:166-229 | in every run from boot, the buckets of every task that exists add up to the time since its init_stats |
| Accounting.StepGrants | sched.c:146-153 | a step books a dispatch exactly for the task it switches to |
| Accounting.RunCountsDispatches | sched.c:151 | total_trans counts the dispatches of the run |
| Accounting.DispatchesFromBoot | sched.c:151 | from boot, total_trans of idle and of the first process is the number of switches to it |
| Accounting.DispatchesSinceSpawn | sys.c:184-193 | for a task created in a run, total_trans is the number of switches to it since, and its time adds up, whatever the accounts held before |
| Buckets.ChargeExact | p_stats.c:3-13 | a charge adds the time since the last reading to its own bucket and to no other |
| Buckets.StepReads | sched.c:122-151 | who is charged what in each step: user time at an interrupt, system time on joining the ready queue, on handing over and on going back, ready time on dispatch |
| Buckets.StepTimes | sys.c:36-44 | user time grows exactly for the task an interrupt meets, ready time for the task dispatched, by the time since the reading before |
| Buckets.RunTimes | sched.c:149-150 | over every run user_ticks and ready_ticks are the sums of those times, as 32-bit numbers |
| Buckets.StartsFresh | sched.c:43-52 | a new task starts with nothing booked and the clock reading of its creation |
| Buckets.FailedCopies | sys.c:78 | the slot of a task for which memory was short holds a copy of the caller's account |
| Frames.InitFrames | mm.c:198-210 | exactly the kernel frames are in use |
| Frames.AllocFrame | mm.c:214-227 | the lowest free candidate frame, -1 exactly if there is none; nothing else changes |
| Frames.FreeFrame | mm.c:242-246 | frees that frame, except frame 256 and frames out of range |
| Frames.FreeFrames | mm.c:217-223 | exactly the free frames at even places past the kernel, in increasing order |
| Frames.TakeLeaves | mm.c:214-227 | handing out the first n free frames leaves the others, in order |
| Paging.FirstFit | sys.c:540-558 | the least start with room for n pages below the last page, -1 exactly if there is none |
| Paging.FindGap | sys.c:242-266 | the skip-ahead search terminates and agrees with trying every start, for every table and size |
| Paging.ReleasePages | sys.c:605-608 | the frame of each page is freed and the pages are wiped |
| Paging.AllocPages | sys.c:562-578 | the n lowest free frames are mapped in order, or a rollback when there are too few |
| Paging.MapThenRelease | sys.c:570-574 | what mapping and releasing a run of pages leaves behind |
| Paging.RoundTripIff | mm.c:242-263 | it is the identity exactly if the pages were wholly zero and frame 256 was not handed out |
| Ownership.MapKeepsOwned | mm.c:214-257 | mapping absent pages to free frames keeps each frame in use exactly when one page maps it |
| Ownership.ReleaseKeepsOwned | mm.c:242-263 | so does releasing present pages |
| MemoryInv.GetKeeps | sys.c:530-591 | memRegGet keeps ownership, layout and disjointness |
| MemoryInv.NewThreadKeeps | sys.c:227-296 | so does thread creation |
| MemoryInv.DelKeeps | sys.c:593-611 | so does memRegDel of a region that is still mapped, by any task that shares the table |
| MemoryInv.ThreadExitKeeps | sys.c:484-499 | so does a thread's exit |
| MemoryInv.ProcessExitKeeps | sys.c:453-477 | so does the exit of a process without threads |
| MemoryInv.WindowRestored | sys.c:154-160 | with a clear window the parent's table ends as it began |
| MemoryInv.ForkTables | sys.c:83-118 | what a successful fork does to frame map and tables |
| MemoryInv.ForkKeeps | sys.c:83-160 | fork keeps ownership and layout |
| MemoryInv.StepKeepsInv | sys.c:63-611 | every memory step keeps the invariant |
| MemoryRuns.ReleaseFrees | sys.c:605-608 | releasing n owned pages makes exactly n more frames free |
| MemoryRuns.StepBalances | sys.c:63-611 | no step creates or loses a frame |
| MemoryRuns.RunBalances | sys.c:63-611 | free, data and claimed frames add up to the same number throughout a run |
| MemoryBoot.CodeFramesTaken | mm.c:88-95 | the code pages get the first eight candidate frames, 256 among them |
| Layout.ZeosLayout | include/mm_address.h:6-12 | the page and frame counts of the kernel as it is |
| MemoryBoot.BootedInv | mm.c:55-106 | the memory the kernel boots with satisfies the invariant; all frames alloc_frame looks at but the code frames are accounted for |
| LowPages.BootPages | mm.c:55-106 | every page of every table at boot: presence, protection and frame |
| LowPages.BootKernel | mm.c:55-76 | at boot every table has the kernel's pages but page 0 and the guards |
| MemoryTheorems.EveryRun | sys.c:63-611 | invariant and frame count hold in every run from boot; the count is 376 for the kernel's sizes |
| MemoryTheorems.FrameOwnership | mm.c:198-246 | a frame is in use exactly if it is a code frame or exactly one page maps it; frames at odd places never are |
| LowPages.CodeIsThere | mm.c:88-95 | in every state a live task's code pages are present, open to the user, page i on code frame i |
| LowPages.LowPagesStay | mm.c:248-263 | only fork writes to kernel and code pages, and only to the child's |
| LowPages.ForkShares | sys.c:109-118 | the child's kernel and code pages map what the parent's map, present, user and writable |
| LowPages.RunKeepsKernel | sys.c:109-118 | in every run every table keeps the kernel's pages, mapped to themselves |
| LowPages.GetGives | sys.c:530-591 | memRegGet(n) gives n + 1 pages at the first place with room, present and writable |
| LowPages.NewThreadGives | sys.c:242-296 | thread creation gives a stack of exactly n pages in the caller's table |
| LowPages.ForkGives | sys.c:83-193 | fork makes the slot a process without threads and claims nothing |
| LowPages.DelTakes | sys.c:593-611 | memRegDel leaves nothing of the region and touches no other |
| MemoryTheorems.Frame256Permanent | mm.c:242-246 | frame 256 stays in use and is never passed to free_frame: not by exit or memRegDel, and not by a rollback, which only frees frames just handed out |
| MemoryTheorems.CapacityExact | mm.c:214-227 | allocation fails exactly when every candidate frame is in use |
| MemoryTheorems.FailedCallChangesNothing | sys.c:86-107 | all or nothing: a fork, threadCreateWithStack or memRegGet that fails leaves frame map, page tables, slots and regions exactly as they were |
| MemoryTheorems.FailsIff | sys.c:242-287 | each of them fails exactly if its size is refused, no gap is wide enough, or frames are too few |
| MemoryTheorems.RegionsDisjoint | sys.c:536-558 | regions and stacks of a table share no page and lie in pages 284..1022 |
| MemoryTheorems.RegionAccounting | sys.c:530-611 | over region calls, frames no longer free are those of the pages claimed since |
| MemoryTheorems.GetThenDel | sys.c:530-611 | memRegGet then memRegDel is the identity on frame map and tables |
| MemoryTheorems.ExitFrees | sys.c:453-460 | of the frames that belong to a task, its exit frees exactly those not in a region |
| MemoryTheorems.ExitFreesAllIff | sys.c:453-499 | exit frees every frame that belongs to the task exactly if it has no region left |
| MemoryTheorems.ForkIsolates | sys.c:83-160 | the child's data frames were free and no other page of any table maps them; the parent's table is unchanged |
| MemoryTheorems.ForkKeepsOwnedIff | sys.c:154-160 | fork keeps every frame owned exactly when its window was absent |
| MemoryTheorems.ForkWindowCanBeBlocked | sys.c:120-160 | three region calls after boot the window is not absent, for all sizes with room for those calls |
| MemoryTheorems.ForkWindowBlockedInZeos | sys.c:120-160 | with the kernel's sizes: the gap is at 284 and the window is not absent |
| Regions.RegionStays | sys.c:63-611 | a step that does not delete a region keeps its pages and frames, also when the task that asked for it exits |
| Regions.RegionsStay | sys.c:63-611 | through every run in which nobody deletes a region its pages stay mapped to the same frames, which stay in use |
| Regions.DelFrees | sys.c:593-611 | memRegDel frees every frame of the region and wipes its pages, whoever asked for it |
| Regions.RegionLivesIff | sys.c:593-611 | a region is mapped after a run exactly if the run did not delete it |
| Regions.RecoverableIff | sys.c:593-611 | some task can delete a region exactly while a process occupies the slot whose table it is in |
| Regions.MasterFrees | sys.c:484-499 | after a thread's exit its process can delete the thread's regions and gets every frame back |
| Regions.StepKeepsTidy | sys.c:63-611 | every step keeps: a mapped page above the process image belongs to a stack or region; regions lie in the table of the task that asked |
| Regions.RunKeepsTidy | sys.c:63-611 | so does every run |
| Regions.BootedTidy | mm.c:55-106 | and it holds at boot |
| Regions.ChildMapsOnlyItsOwnIff | sys.c:83-118 | a forked child maps nothing above the process image exactly if no region was left in its slot |
| RegionRuns.ThreadLeavesRegion | sys.c:484-611 | from boot: a thread's region outlives it and its process gives the frame back |
| RegionRuns.ChildInheritsRegion | sys.c:83-118 | from boot: a process forked into a used slot has its predecessor's region mapped |
| MemoryManager.InitTablePages | mm.c:55-76 | a table that maps the kernel onto itself except page 0 and the guard pages |
| MemoryManager.SetUserPages | mm.c:81-106 | code and data pages get the lowest frames; code is not writable |
| MemoryManager.SetUserPage | mm.c:89-95 | one turn of those loops: the next page maps the next lowest frame |
| MemoryManager.CopyPage | sys.c:158 | the target frame holds the source's bytes, every other frame is unchanged |
| MemoryManager.ShareLow | sys.c:109-118 | kernel and code pages of the child map what the parent's do |
| MemoryManager.FreshFramesOwn | sys.c:86-92 | the child's frames are distinct and none is a data frame of the parent |
| MemoryManager.CopyThrough | sys.c:155-159 | one page is copied through a temporary mapping, which is wiped |
| MemoryManager.CopyDataPages | sys.c:154-160 | each data frame of the child gets the parent's bytes; the window is wiped; other frames are unchanged |
| MemoryManager.FillChild | sys.c:109-160 | sharing, search and copying together: the child's table, the parent's table and memory afterwards |
| MemoryManager.ForkPages | sys.c:83-160 | all loops of fork on arrays: frame map, both tables and memory afterwards, also when frames run out |
| MemoryManager.Manager.constructor | mm.c:134-142 | boots into the memory machine's initial state |
| MemoryManager.RegionFits | sys.c:590 | the address is right after the header and the pages asked for fit after it; it gives the first page back |
| Errno.KnownNumbers | include/errno.h:14-68 | the error numbers |
| MemoryManager.PidGiven | sys.c:164 | a new task gets an identifier nobody has; all stay distinct |
| MemoryManager.PidReturned | sys.c:477 | an exiting task's slot has no identifier; the others stay distinct |
| MemoryManager.Manager.MemRegGet | sys.c:530-591 | takes the machine's step; returns the region's address or the right error |
| MemoryManager.Manager.MemRegDel | sys.c:593-611 | takes the machine's step; the address gives back the first page |
| MemoryManager.Manager.ThreadCreate | sys.c:227-296 | takes the machine's step; returns the new PID or the right error |
| MemoryManager.Manager.Enroll | sys.c:289-326 | the new task is a thread with that stack and a PID nobody has; its creator has threads now |
| MemoryManager.Manager.Exit | sys.c:453-499 | takes the machine's step |
| MemoryManager.Manager.Fork | sys.c:83-164 | takes the machine's step and returns the new PID or the right error; the child's data pages hold the caller's bytes and no frame in use before changes |
| MemoryManager.Manager.Handle | sys.c:63-611 | every memory call in place is a step of the machine and keeps its invariant |
| WholeKernel.Runners | sys.c:69-75 | the running task has memory, and the head of the free queue is a free slot, once |
| WholeKernel.StepKeepsInv | sys.c:63-611 | every step keeps both invariants and the agreement between free queue and memory |
| WholeKernel.CallsGive | sys.c:63-611 | what fork, threadCreate, memRegGet and memRegDel give when they succeed, with the slot, the pages and the place in the ready queue |
| WholeKernel.FailedCallChangesNothing | sys.c:96-107 | a fork, threadCreateWithStack or memRegGet that fails leaves the memory as it was and the free slots the same, with at most the free queue rotated and the tried slot's control block overwritten |
| WholeKernel.BootedInv | system.c:86-101 | the kernel boots with all of them |
| WholeKernel.Projects | sys.c:63-611 | the scheduler's part of a run of the whole kernel is a run of the scheduler |
| WholeKernel.ProjectsMemory | sys.c:63-611 | the memory's part of a run of the whole kernel is a run of the memory machine |
| WholeKernel.EveryRun | sys.c:63-611 | in every run of the whole kernel from boot all invariants hold and the frame count is constant, 376 for the kernel's sizes |
| WholeKernel.EveryReadyTaskRuns | sched.c:104-164 | in every run of the whole kernel a ready task runs within q*(n - 1) ticks |
| Utils.CopyData | utils.c:6-20 | exactly the given bytes are copied and nothing else changes |
| Utils.TwoStep | utils.c:106-118 | the two 32-bit steps make up the 64-bit division, and the second quotient fits 32 bits |
| Utils.DivHalves | utils.c:106-118 | quotient and remainder from the register halves; the upper half is always below the base |
| Utils.DoDiv | utils.c:106-135 | the true quotient and remainder of a 64-bit number |
| Libc.ParseDecimal | libc.c:10-32 | the decimal form parses back to the number and has no leading zero |
| Libc.DecimalParse | libc.c:10-32 | every numeral without a leading zero is the decimal form of its value |
| Libc.Digits | libc.c:17-23 | the digit loop writes the decimal form backwards |
| Libc.ReverseInPlace | libc.c:25-30 | the swapping loop reverses the first n characters in place |
| Libc.Itoa | libc.c:10-32 | writes the decimal form and a terminator; the empty string for negative numbers |
| Libc.Strlen | libc.c:34-43 | the place of the first terminator |
| Libc.DigitCount | libc.c:10-43 | itoa followed by strlen counts the digits |

## Left out

- Exit of a process that has created threads, and its list of threads: the loop there follows a list it re-initialises.
- The rollback after fork finds no gap for its temporary mappings (sys.c:138-149): runs require that the gap exists.
- Fork with a window that reaches past the last page of the table, which writes outside it: runs require the window in range.
- The region list a child inherits from fork: region calls are modelled for tasks whose list was initialised.
- MemoryManager.Manager.Fork: requires a gap for the temporary mappings and a window inside the table, as the two lines above say.
- MemoryTheorems.ForkKeepsOwnedIff: stated where the window lies inside the table.
- MemoryManager.CopyDataPages: stated where the window lies inside the table.
- MemoryManager.FillChild: as `MemoryManager.Manager.Fork`.
- MemoryManager.ForkPages: as `MemoryManager.Manager.Fork`.
- MemoryManager.Manager.Handle: for the calls that are enabled; a fork whose window is not clear is covered by `MemoryManager.Manager.Fork`.
- Kernel.Kernel.SemSignal: for safe signals; `Kernel.Kernel.UnsafeSignal` says what the others do.
- Kernel.Kernel.Handle: for safe signals, as after any other the queues are no longer task queues.
- Boot.SemaphoresEveryRun: over runs whose signals are all safe.
- Kernel.Kernel.SemCreate: the list of free semaphores is a sequence, and the creator's PID is not recorded.
- MemoryManager.Manager.MemRegGet: the header and the list links written into the region's first page (sys.c:580-585) are not modelled.
- MemoryManager.Manager.ThreadCreate: the values written onto the new stacks and the list of threads are not modelled.
- Kernel.Kernel.UpdateProcessState: every caller passes a queue, so the NULL destination is left out; the call of update_stats is part of `Accounting`.
- MemoryManager.Manager.MemRegDel: the page count read from the region's header is a parameter, taken to be intact; the list links are not modelled.
- Kernel.Kernel.Spawn: whether memory was found is a parameter here; `WholeKernel` takes it from the memory machine.
- Kernel.Kernel.KeyboardRoutine: the scan code's table lookup is left out; the character is a parameter and may be any value.
- Utils.CopyData: not stated for a range moved up onto itself, where the code repeats its beginning; no call does that.
- Paging.FindGap: integers are unbounded, so sizes that overflow the sums of the search are not modelled.
- Libc.Itoa: stated for a buffer that has room for the digits and the terminator.
- Looking tasks up by PID, `sys_get_stats`, `sys_write`, the clock counter and other calls that only read or print.
- `sys_semDestroy`, which is not in the system call table.
- `access_ok` and the other argument checks: arguments count as valid.
- The `unblock` side of `pending_unblocks`, which no code sets: tasks in `blocked` stay there.
- Context switch assembly, stack forging, segment and interrupt tables, page directory and TLB effects: hardware.
- Screen drawing and printing.
