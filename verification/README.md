# A verified model of a small x86 teaching kernel

The project models three parts of the kernel and proves what they promise, for every run.

**Threads, scheduler, semaphores and locks.** `Machine` is a step machine over any number of threads and
locks. A step is one C statement that may run with interrupts on, or one stretch of code between `intr_disable`
and either `intr_set_status` or the switch to another thread; a timer interrupt can come between any two steps
while the interrupt flag is set. `Scheduler` holds the scheduling functions, `Invariants`, `StepSafety`, `SwitchSafety`
and `SemaSafety` the invariant and why each step keeps it, `Runs` the theorems about reachable states, `KernelCalls` what the calls of
a run amount to and what each does by itself, `TimeSlices` and `Waiting` the theorems about time, `Nesting` the limit of the 32-bit repeat count, `Holding` what a lock does that is never released. `Kernel` is
the same code as a class that updates its fields, with the interrupt flag of `Interrupts`, proved equal to the machine. `Lists` are the
intrusive lists as they rewrite links in place; `TagLinks` runs the machine on the links of the tags that all lists share,
`thread_all_list` included. `ContextSwitch` is `switch_to` and the creation of a thread on words of memory, and `ThreadPages` runs the machine on those words.

**Physical and virtual memory.** `Paging` is the two-level walk of 32-bit paging (section 4.3 of the Intel SDM, Volume 3A) over a
memory of words, with the pointer arithmetic of the self-map. `Bitmap`, `PoolLayout`, `LowMemory` and `Boot` are the bitmaps, the pools, the
memory below 1 MB and the loader's page tables. `Memory` gives the allocation calls as functions; `MemorySafety`, `Mapping`, `Allocation`,
`MallocSafety` and `MemoryRuns` prove the invariant call by call, and `Outcomes` forecasts what each call does from what a caller could look up;
`MemoryTheorems` and `LinearHeap` state what holds over whole runs, `MissingTable` when the invariant is lost, and `KernelHalf` what holds
in every run even then: mapped addresses stay mapped as they were, and the directories agree on the kernel half. `Contents` is about the
words of allocated pages, `Rights` about who may access them, `Accounts` about the bits and frames that a call takes. `Exhaustion` gives runs from boot in which frames run out, `PallocRace` and `PallocGuard` what becomes of `palloc` when it is interrupted. `Window`,
`PageWrites` and `KernelMemory` prove that the code, which reaches page tables only through virtual addresses, does what those functions say and never faults.

**Keyboard, queue and consumers.** `Keyboard` is the scancode handler, `IoQueue` the ring buffer, `Consumers` the consumer
threads running on `Machine`, from scancodes to the screen, and `ConsumerTurn` one turn of their loop.

An ASSERT that fails is a halt of the model, named by its line; where a property says that an ASSERT holds, that is proved.

## Where the code differs from its comments

- `ioq_full` (device/ioqueue.c:25) compares the position after `tail` with `head`, although `head` is where bytes are written: the queue
  counts as full with one unread byte (`IoQueue.FullMeansOne`), so one byte is what it holds (`IoQueue.QueueIsFifo`), and with 63
  it would not count as full (`IoQueue.PutOverruns`).
- `ioq_wait` (device/ioqueue.c:36) requires a waiter to be recorded already, and only `ioq_wait` records one: whoever reaches it halts.
- `malloc_page` does not roll back (kernel/memory.c:146-149). A call that returns NULL has changed nothing if and only if no run of pages was free; otherwise it leaks the
  pages it reserved, of which only as many are mapped as there were frames (`Outcomes.NullIsCleanExactly`, `Outcomes.MallocExactly`, and a run from boot in `Exhaustion.RequestLeaks`).
  It keeps the invariant and loses no frame. It goes on with address 0 when `vaddr_get` fails, so it then halts in line 101 exactly if a frame is free.
- `page_table_add` does not look at its own `palloc` (kernel/memory.c:119). The memory invariant survives `malloc_page` if and only if the missing page tables among the pages it
  reaches are no more than the free kernel frames (`MissingTable.LoopInvariantExactly`); otherwise a table lies on frame 0, and a second such table unmaps the page
  of the first (`Exhaustion.MissingTableIsReached`, `Exhaustion.PageIsLost`). Over whole runs the invariant holds if and only if no call was short of page tables (`KernelHalf.RunKeepsMemoryExactly`).
  Even then no run undoes a translation that does not go through a table on frame 0 (`KernelHalf.RunKeepsSoundTranslations`), and the kernel halves of all directories agree (`KernelHalf.RunKeepsKernelHalf`).
- `get_a_page` returns with the pool's lock held when `palloc` fails (kernel/memory.c:212-213): the depth of the lock is what it was if and only if the pool had a free frame
  (`KernelMemory.PageManager.GetAPage`). A run from boot gets there (`Exhaustion.GetAPageFindsNoFrame`), and from then on no other thread gets the lock (`Holding.HolderShutsOut`).
- `get_kernel_pages` takes no lock, although `palloc` says that its scan and its setting of the bit have to be atomic (kernel/memory.c:86): frames are distinct if and only if no call
  finds a frame between the scan and the mark of another (`PallocRace.DistinctExactlyIfAtomic`), which interrupts off or the pool's lock ensure (`PallocGuard.GuardedFramesAreDistinct`) and the timer can bring about without them (`PallocGuard.UnguardedFramesClash`).
- `setup_page` clears the directory but not the kernel page tables: the memory invariant holds after boot if and only if memory held no
  present entry there (`Boot.BootInvExactly`). Directory entries 0 and 768 share a table, so a heap page below 0xc0400000 also appears in the kernel directory 3 GB lower (`Mapping.AddChangesExactly`).
- kernel/memory.c:12 speaks of 512 MB. The page counts fit up to there, but the bitmaps reach main's PCB beyond 87391 free pages
  (`PoolLayout.SupportedRange`, `PoolLayout.FullRangeOverlapsMain`). Below 2 MB the subtraction wraps around and the pools hold frames that do not exist. Boot leaves main's page
  alone and hands out existing frames exactly when neither is the case (`Boot.BootIsSoundExactly`), and the theorems that start from boot assume that.
- `thread_create` subtracts structure sizes from a `uint32_t*`, so it reserves four times the bytes; the initial stack pointer is page + 3664.
- `holder_repeat_nr` is a `uint32_t`: the lock theorems hold for nesting below 2^32 - 1, and one more acquisition breaks them, in every state (`Nesting.NestingCountExactly`, `Nesting.NestingOverflow`).

## Model

| member | source | states |
|---|---|---|
| `Scheduler.YieldKeepsInv` | osproject/thread/thread.c:100-124 | `schedule` by a running thread never halts: the ASSERTs of lines 107 and 117 hold, exactly one thread runs, the ready list stays duplicate-free and holds exactly the ready threads, and tick accounts are kept |
| `Scheduler.BlockKeepsInv` | osproject/thread/thread.c:127-136 | `thread_block` keeps the partition and the accounts, and halts exactly when no thread is ready |
| `Scheduler.BlockExactly` | osproject/thread/thread.c:100-136 | `thread_block` of any status: the ASSERT it halts in, or else the caller waits in that status, the first ready thread runs, and nothing else changes |
| `Scheduler.UnblockKeepsInv` | osproject/thread/thread.c:138-149 | `thread_unblock` of a blocked thread passes the ASSERTs of lines 141 and 144 and keeps the partition and the accounts |
| `Scheduler.StartThreadKeepsInv` | osproject/thread/thread.c:71-86 | a new thread joins both lists once and keeps the partition and the accounts |
| `Scheduler.TimerTickKeepsInv` | osproject/device/timer.c:43-54 | the timer handler never halts, keeps the partition, and the global tick count stays the sum of all elapsed counts modulo 2^32 |
| `TimeSlices.ReadyThreadStartsExactlyAfterWait` | osproject/device/timer.c:43-54 | in a timer-only run the thread at position i of the ready list starts after exactly (ticks + 1) of the current thread plus those of the threads before it, and not earlier |
| `TimeSlices.UnblockedRunsNext` | osproject/thread/thread.c:138-149 | an unblocked thread starts exactly when the current slice ends |
| `TimeSlices.OneSlice` | osproject/device/timer.c:43-54 | ticks + 1 interrupts end a slice: the queue rotates by one and the thread is charged that many elapsed ticks and gets a new slice of its priority |
| `TimeSlices.FullRotationIsFair` | osproject/thread/thread.c:104-121 | with full slices, one rotation returns the scheduler to the same state and adds exactly priority + 1 to each thread's elapsed ticks |
| `TimeSlices.SlicesBecomeFull` | osproject/thread/thread.c:104-121 | from any state one rotation, of exactly the ticks that are left plus one for each thread, makes every slice full and restores the order of the queue |
| `Runs.StepKeepsInv` | osproject/thread/sync.c:20-78 | every step of every thread keeps the whole invariant, and the kernel halts exactly when the last runnable thread must wait |
| `Runs.AssertsHold` | osproject/thread/sync.c:20-78 | in every reachable state no ASSERT of sync.c or thread.c has failed, except thread.c:117 when every thread waits |
| `Runs.MutualExclusion` | osproject/thread/sync.c:50-78 | at most one thread is between its completed `sema_down` and its `sema_up`; value 0 if and only if there is one; `holder` and the repeat count name it and its depth outside the two update windows; value 1 means no holder and count 0 |
| `KernelCalls.DepthCountsCalls` | osproject/thread/sync.c:50-78 | in every run from boot, a thread that runs its own code has called `lock_acquire` on a lock exactly as many times more than `lock_release` as its depth says; it owns the lock, with `holder` naming it and the repeat count equal to that number, if and only if the number is positive |
| `KernelCalls.RepeatCountsCalls` | osproject/thread/sync.c:60-72 | between two states in which a thread runs its own code and owns the lock, whatever others do in between, `holder_repeat_nr` grows by its `lock_acquire` calls and falls by its `lock_release` calls, one for each |
| `KernelCalls.AcquireFree` | osproject/thread/sync.c:20-64 | in every safe state `lock_acquire` of a free lock, statement by statement, gives it to the caller with count 1 and changes nothing else |
| `KernelCalls.AcquireAgain` | osproject/thread/sync.c:50-64 | `lock_acquire` by the holder adds exactly one to the count and changes nothing else |
| `KernelCalls.AcquireHeld` | osproject/thread/sync.c:20-56 | `lock_acquire` of a lock that another thread holds queues the caller behind all waiters, blocks it and runs the first ready thread; the kernel halts in thread.c:117 if there is none |
| `KernelCalls.ReleaseOnce` | osproject/thread/sync.c:66-73 | `lock_release` of a nested hold takes exactly one from the count and changes nothing else |
| `KernelCalls.ReleaseLast` | osproject/thread/sync.c:35-78 | the last `lock_release` leaves the lock free with nobody recorded and count 0, and its first waiter ready ahead of all other threads |
| `KernelCalls.BlockGivesUp` | osproject/thread/thread.c:127-136 | `thread_block` in every safe state: the caller's frame holds its flag, interrupts are off, and nothing but the scheduler changes |
| `KernelCalls.WakeMakesFirst` | osproject/thread/thread.c:138-149 | `thread_unblock` of a sleeping thread makes it ready ahead of all others and changes nothing else |
| `Runs.NoLostWakeUp` | osproject/thread/sync.c:20-48 | a free semaphore with waiters always has a thread that was popped, can run, and has not yet tested the loop condition again |
| `Runs.OneRunningThread` | osproject/thread/thread.c:100-149 | exactly the current thread is running; the ready list holds exactly the ready threads, once each |
| `Runs.TagsAreInOneList` | osproject/thread/sync.c:20-48 | a waiter's tag is in one waiters list, once, and never in the ready list |
| `Runs.WaitersAreFifo` | osproject/thread/sync.c:24-46 | every step leaves a waiters list alone, appends the current thread, or makes its first element ready ahead of all other ready threads |
| `Runs.BlockedThreadsAreQueued` | osproject/thread/sync.c:24-29 | every thread blocked in `sema_down` is in the waiters list of its semaphore |
| `Runs.TicksAreConserved` | osproject/device/timer.c:43-54 | in every reachable state the global ticks equal the sum of all elapsed ticks modulo 2^32 |
| `Runs.InterruptFlagDiscipline` | osproject/kernel/interrupt.c:103-146 | the flag is off whenever a thread has just been switched to, and is the thread's own whenever it runs its own code |
| `Runs.OwnFlagChangesOnlyByOwner` | osproject/kernel/interrupt.c:127-146 | no step changes a thread's own flag except that thread's own setting of it |
| `Runs.CallsReturnWithCallersFlag` | osproject/thread/thread.c:127-149 | lock, semaphore and thread calls return with the caller's interrupt flag, however many threads ran in between |
| `Runs.RetestIsAtomic` | osproject/thread/sync.c:24-32 | a thread back from `thread_block` in `sema_down` tests and takes the semaphore in one step with interrupts off |
| `Runs.IdleMainNeverHalts` | osproject/thread/thread.c:117 | if main never blocks, no ASSERT fails in any run |
| `Waiting.BoundedWaiting` | osproject/thread/thread.c:100-136 | over any run that wakes nobody, with blocking and thread creation, a ready thread has run by the time the delivered interrupts reach its wait |
| `Nesting.DepthIsReachable` | osproject/thread/sync.c:60-63 | every nesting depth up to 2^32 - 1 is reachable |
| `Nesting.NestingOverflow` | osproject/thread/sync.c:60-63 | at depth 2^32 - 1 one more acquisition wraps the count to 0 |
| `Nesting.ReleaseAtZeroHalts` | osproject/thread/sync.c:66-78 | from there `lock_release` halts in line 74 |
| `Nesting.NestingCountExactly` | osproject/thread/sync.c:50-64 | in every safe state one more nested acquisition keeps the count equal to the depth if and only if the depth is below 2^32 - 1 |
| `Holding.HolderShutsOut` | osproject/thread/sync.c:50-78 | in every run in which the holder of a lock does not release it, no other thread gets it, and one that waits in `lock_acquire` is still there at the end |
| `TagLinks.StepKeepsLinks` | osproject/lib/kernel/list.c:14-52 | every step of the kernel, done by the list functions on the links of the shared tags, leaves every list well formed in both directions and holding exactly the machine's threads |
| `TagLinks.LinksShowTheLists` | osproject/thread/thread.c:12-14 | in every run from boot the links show the ready list, the list of all threads and all waiters lists, and no tag is in two of them |
| `TagLinks.FindsExactly` | osproject/lib/kernel/list.c:54-65 | the walk of `elem_find` meets a node if and only if it is one of the list, from where the walk starts to the tail |
| `TagLinks.ThreadStartAsserts` | osproject/thread/thread.c:78-79 | in every run from boot `elem_find` meets the `general_tag` of a thread to be created in neither list, so both ASSERTs hold |
| `Interrupts.Eflags.IntrEnable` | osproject/kernel/interrupt.c:111-124 | sets the flag and returns what it was |
| `Interrupts.Eflags.IntrDisable` | osproject/kernel/interrupt.c:127-140 | clears the flag and returns what it was |
| `Interrupts.Eflags.IntrSetStatus` | osproject/kernel/interrupt.c:143-146 | sets the flag to the given status and returns what it was |
| `Kernel.Kernel.Schedule` | osproject/thread/thread.c:100-124 | updates the kernel's fields exactly as the machine's switch does |
| `Kernel.Kernel.ThreadBlock` | osproject/thread/thread.c:127-136 | refines the machine's blocking step |
| `Kernel.Kernel.ThreadUnblock` | osproject/thread/thread.c:138-149 | puts a blocked thread in front of the ready list, or halts in the ASSERT the specification names |
| `Kernel.Kernel.ThreadStart` | osproject/thread/thread.c:71-86 | appends a new thread to both lists, as specified |
| `Kernel.Kernel.TimerHandler` | osproject/device/timer.c:43-54 | refines the machine's timer step |
| `Kernel.Kernel.DownLoopOnce` | osproject/thread/sync.c:20-33 | refines one turn of the loop of `sema_down` up to its return or its switch |
| `Kernel.Kernel.SemaUp` | osproject/thread/sync.c:35-48 | refines the machine's `sema_up` |
| `Kernel.Kernel.AcquireStatement` | osproject/thread/sync.c:50-64 | each statement of `lock_acquire`, as an update of the lock and the thread, refines the machine's step |
| `Kernel.Kernel.ReleaseStatement` | osproject/thread/sync.c:66-78 | the same for `lock_release` |
| `Kernel.Kernel.LockStatement` | osproject/thread/sync.c:50-78 | the statement that the thread has reached, with the two semaphore calls, refines the machine's step |
| `Kernel.Kernel.Advance` | osproject/thread/sync.c:20-78 | any step of the running kernel is the machine's step, keeps the invariant, and halts only when the last runnable thread must wait |
| `Lists.InsertBefore` | osproject/lib/kernel/list.c:14-23 | the four link writes, with interrupts off; the interrupt flag is the caller's again afterwards |
| `Lists.Unlink` | osproject/lib/kernel/list.c:35-44 | the neighbours are linked to each other, and the interrupt flag is the caller's again afterwards |
| `Lists.List.Insert` | osproject/lib/kernel/list.c:14-23 | inserting before position k is insertion into the sequence, with forward and backward links kept inverse, whatever the stale links of the element; the interrupt flag is kept |
| `Lists.List.Push` | osproject/lib/kernel/list.c:25-28 | puts the element first |
| `Lists.List.Append` | osproject/lib/kernel/list.c:30-33 | puts the element last |
| `Lists.List.Remove` | osproject/lib/kernel/list.c:35-44 | takes the element out of the sequence; the element keeps its stale links, and the interrupt flag is kept |
| `Lists.List.Pop` | osproject/lib/kernel/list.c:46-52 | returns and removes the first element; on an empty list it returns the tail sentinel and breaks the list |
| `Lists.List.Find` | osproject/lib/kernel/list.c:54-65 | terminates with membership |
| `Lists.List.Traverse` | osproject/lib/kernel/list.c:67-80 | returns the first element that satisfies the condition, or NULL exactly when none does |
| `Lists.List.Len` | osproject/lib/kernel/list.c:82-93 | terminates with the length modulo 2^32 |
| `Lists.List.IsEmpty` | osproject/lib/kernel/list.c:95-99 | true exactly for the empty sequence |
| `Lists.MoveFirst` | osproject/lib/kernel/list.c:30-52 | moving a tag between two lists keeps both well formed and leaves every disjoint third list untouched |
| `ContextSwitch.SwitchResumes` | osproject/thread/switch.S:4-20 | one call of `switch_to`: the next thread gets exactly its own registers, return address and stack, all other contexts stay suspended, and `running_thread()` is `next` (also when it is the caller itself) |
| `ContextSwitch.RoundTrip` | osproject/thread/switch.S:4-20 | over any run in between, a thread that is resumed has the ebp, ebx, edi, esi, return address and stack it had when it switched out |
| `ContextSwitch.NewThreadStarts` | osproject/thread/thread.c:37-49 | over any run in between, a new thread enters `kernel_thread` with its own function and argument as the first two arguments on its stack |
| `ContextSwitch.MainAlone` | osproject/thread/thread.c:88-98 | main on its own page is a state from which such runs start |
| `ContextSwitch.RunningThreadIsCurrent` | osproject/thread/thread.c:20-26 | in every run `running_thread()` is the thread switched to last |
| `ContextSwitch.Processor.SwitchTo` | osproject/thread/switch.S:4-20 | the instructions compute the switch that the run theorems are about |
| `ContextSwitch.Processor.CurrentThread` | osproject/thread/thread.c:20-26 | masks esp to the page that contains it |
| `ContextSwitch.Processor.InitThread` | osproject/thread/thread.c:51-68 | writes every field of the PCB, the name and stack_magic included, as specified |
| `ContextSwitch.PcbWritten` | osproject/thread/thread.c:51-68 | afterwards status, priority, `self_kstack`, ticks, elapsed ticks, page directory and stack_magic read back as assigned, and nothing outside the PCB has changed |
| `ContextSwitch.Processor.ThreadCreate` | osproject/thread/thread.c:37-49 | from any `self_kstack` with room, writes the thread stack 432 bytes below it, and the new `self_kstack` |
| `ContextSwitch.Processor.MakeThread` | osproject/thread/thread.c:74-75 | the two together make the suspended thread that the run theorems start from, its stack at page + 3664 |
| `ThreadPages.TurnKeepsLinked` | osproject/thread/thread.c:71-124 | every step of the machine is something that the processor can do, with one `switch_to` exactly where the machine changes threads, and keeps each thread on its own page with the context it left |
| `ThreadPages.RunningThreadIsCurrent` | osproject/device/timer.c:45-46 | in every run from boot `running_thread()` is the page of the machine's current thread, threads have distinct pages, and every stack_magic is intact, so the ASSERT of timer.c:46 holds |
| `ThreadPages.ThreadGoesOn` | osproject/thread/switch.S:4-20 | over any run of the machine in between, a thread that gave up the processor in `schedule` goes on behind its `switch_to` with the registers and the stack that it had |
| `ThreadPages.NewThreadEnters` | osproject/thread/thread.c:29-49 | over any run of the machine in between, a thread made by `thread_start` enters `kernel_thread` with its own function and argument |
| `ThreadPages.NewPcbShowsTable` | osproject/thread/thread.c:51-68 | the PCB in memory shows the status, priority and tick counts that the machine's table has for a new thread |
| `ThreadPages.MainPcbShowsTable` | osproject/thread/thread.c:88-98 | the same for main's PCB: running, priority 8, no ticks |
| `Bitmaps.BitmapScan` | osproject/lib/kernel/bitmap.c:19-53 | returns the least start of cnt consecutive clear bits, and -1 exactly when there is none or cnt is 0 |
| `Bitmaps.BitmapSet` | osproject/lib/kernel/bitmap.c:56-66 | changes exactly one bit, and halts exactly on an index past the end |
| `Bitmaps.BitmapScanTest` | osproject/lib/kernel/bitmap.c:11-16 | reads the bit |
| `Bitmaps.BitmapInit` | osproject/lib/kernel/bitmap.c:5-9 | clears every bit |
| `Bitmaps.TakeRun` | osproject/kernel/memory.c:39-48 | scan and set together take exactly the first fitting run and no other bit |
| `Paging.PtePtrTwice` | osproject/kernel/memory.c:71-82 | the entry pointer of the entry pointer is the directory-entry pointer |
| `Paging.PdePtrHitsPde` | osproject/kernel/memory.c:78-82 | an access through `pde_ptr(v)` hits the directory entry that the MMU uses for v |
| `Paging.PtePtrHitsPte` | osproject/kernel/memory.c:71-76 | an access through `pte_ptr(v)` hits the table entry that the MMU uses for v, and faults exactly when there is no table |
| `Paging.TablePageIsTable` | osproject/kernel/memory.c:123 | the page around `pte_ptr(v)` is the whole page table of v |
| `Paging.AddrV2PAgreesWithWalk` | osproject/kernel/memory.c:219-225 | `addr_v2p` agrees with the MMU on every mapped address |
| `Paging.AddrV2PFaults` | osproject/kernel/memory.c:219-225 | `addr_v2p` faults exactly where the page table is missing |
| `Mapping.AddMapsOnePage` | osproject/kernel/memory.c:99-127 | on a reserved page `page_table_add` never halts and, unless line 119 finds no frame, maps it and keeps the invariant |
| `Mapping.AddChangesExactly` | osproject/kernel/memory.c:99-127 | of all pages of all directories below the window it then changes exactly these: a user page in its own address space; a kernel page in all of them, and its low alias in the kernel directory; the other pages of a fresh table stay unmapped |
| `MemorySafety.LowAlias` | osproject/boot/loader.S:221-225 | below the kernel half the kernel directory maps its first 1024 pages as the first 1024 pages of the kernel half, and no others |
| `Mapping.PallocTakes` | osproject/kernel/memory.c:84-96 | `palloc` takes one free frame and no other, and fails exactly when the pool is full |
| `MissingTable.InvariantExactlyWithTable` | osproject/kernel/memory.c:119-120 | the memory invariant survives `page_table_add` if and only if no table was missing with the kernel pool empty |
| `MissingTable.LoopInvariantExactly` | osproject/kernel/memory.c:119-152 | the loop of `malloc_page` keeps the memory invariant if and only if the missing tables among the pages it reaches are no more than the free kernel frames |
| `Outcomes.TablesExactly` | osproject/kernel/memory.c:119-152 | exactly then no page table is put on frame 0 |
| `Exhaustion.KernelPoolIsDrained` | osproject/userprog/process.c:65-86 | a run from boot after which a process has no page table, no page is mapped for it and no kernel frame is free |
| `Exhaustion.MissingTableIsReached` | osproject/kernel/memory.c:119-120 | there `get_user_pages(1)` is short of page tables: `page_table_add` is called for a reserved page and line 119 finds no frame |
| `Exhaustion.PageIsLost` | osproject/kernel/memory.c:119-125 | from there `get_user_pages(1)` and then `get_a_page` for a page of another table both return their pages, and the second has unmapped the first |
| `MissingTable.SecondMissingTableLosesPage` | osproject/kernel/memory.c:119-125 | the second table on frame 0 unmaps the page of the first and aliases the new page |
| `MallocSafety.VaddrGetReserves` | osproject/kernel/memory.c:32-67 | the pages handed out were unreserved, are marked now, and are not mapped; nothing else changes |
| `KernelHalf.LoopKeepsHalf` | osproject/kernel/memory.c:143-152 | in every reachable state the loop keeps the kernel-half invariant, every directory, and each present entry of a directory or of a page table not on frame 0, also when it stops half-way or a table is missing |
| `Outcomes.LoopExactly` | osproject/kernel/memory.c:143-152 | when no table is missing it maps every page if and only if there are frames for all of them |
| `MallocSafety.MallocPageSafe` | osproject/kernel/memory.c:130-154 | a successful call maps cnt consecutive pages that were free and unmapped to unused frames and keeps all earlier allocations; a failed one keeps them too |
| `Accounts.LoopCharges` | osproject/kernel/memory.c:143-152 | when frames and tables suffice the loop draws exactly one frame for each page, and one kernel frame for each directory entry of the run without a table |
| `Accounts.GetPagesTakes` | osproject/kernel/memory.c:32-67 | a successful call marks the first fitting run of pages and no other page of any process, and draws exactly those frames |
| `Accounts.GetPagesFailing` | osproject/kernel/memory.c:138-149 | a call that returns NULL has marked the run it found, or nothing, and no other page |
| `Accounts.GetAPageTakes` | osproject/kernel/memory.c:187-217 | `get_a_page` marks its page and no other, whether or not it finds a frame |
| `Accounts.CreateTakes` | osproject/userprog/process.c:65-86 | `create_page_dir` marks one kernel page and gives its process the page range |
| `Outcomes.MallocExactly` | osproject/kernel/memory.c:130-154 | for both pools, success, clean failure, leaking failure, each halt and a missing table are decided by the request, the free pages, the free frames and the page tables before the call |
| `Outcomes.KernelSuccessExactly` | osproject/kernel/memory.c:130-154 | a request for kernel pages succeeds if and only if it is in range, a run of pages is free, and as many frames are |
| `Outcomes.NullIsCleanExactly` | osproject/kernel/memory.c:138-149 | a call that returns NULL has changed nothing if and only if no run of pages was free |
| `Exhaustion.RequestLeaks` | osproject/kernel/memory.c:146-149 | a run from boot, stated with its calls, in which a request for nine pages returns NULL with nine pages reserved and the ninth mapped nowhere |
| `MemoryRuns.GetPagesSafe` | osproject/kernel/memory.c:157-184 | whole calls do what `malloc_page` is forecast to do, and the new pages are zero |
| `MemoryRuns.GetAPageSafe` | osproject/kernel/memory.c:187-217 | a page at a chosen address: each outcome is decided by the request, the free frames, whether the page is mapped (the halt in line 111) and the missing tables; earlier allocations are kept |
| `MemoryRuns.GetANullExactly` | osproject/kernel/memory.c:211-213 | it returns NULL if and only if the pool has no free frame |
| `Exhaustion.GetAPageFindsNoFrame` | osproject/kernel/memory.c:212-213 | a run from boot, stated with its calls, after which `get_a_page` finds no frame and returns NULL |
| `MemoryRuns.CreatePageDirSafe` | osproject/userprog/process.c:65-86 | the new directory lies on a fresh frame, maps itself, shares all kernel tables, has an empty user half and the page range of its process; every earlier allocation is kept; success and failure are those forecast for one kernel page |
| `MemorySafety.KernelHalfAgreement` | osproject/userprog/process.c:75-83 | every directory translates 0xc0000000 up to 0xffc00000 exactly as the kernel directory does |
| `MemoryTheorems.ShortageExactly` | osproject/kernel/memory.c:119 | a call puts a page table on frame 0 if and only if it was short of tables beforehand |
| `KernelHalf.RunKeepsMemoryExactly` | osproject/kernel/memory.c:84-217 | over every run of allocation calls, directory creations, activations and data writes, failed calls included, the memory invariant holds at the end if and only if no call of the run was short of page tables, and then nothing allocated is lost |
| `MemoryTheorems.FrameBacksOneThing` | osproject/kernel/memory.c:84-154 | a frame backs at most one page or page table, never both, and is marked in its pool and its virtual bitmap |
| `MemoryTheorems.NoFrameIsLost` | osproject/kernel/memory.c:84-154 | every frame handed out backs a page or a page table |
| `KernelHalf.RunKeepsKernelHalf` | osproject/kernel/memory.c:109-126 | after every run, short of tables or not, all directories agree on the kernel half |
| `KernelHalf.AddKeepsHalf` | osproject/kernel/memory.c:99-127 | `page_table_add` keeps what that needs, whether or not line 119 finds a frame |
| `KernelHalf.RunKeepsLowMemory` | osproject/kernel/memory.c:9-14 | no run of memory calls writes to the frames of the bitmaps or to main's PCB and stack |
| `KernelHalf.RunKeepsTranslations` | osproject/kernel/memory.c:99-127 | from a sound memory, every run, short of tables or not, leaves every address below the window that was mapped in some directory mapped there as before |
| `KernelHalf.RunKeepsSoundTranslations` | osproject/kernel/memory.c:99-127 | the same from every state that a run can reach, for addresses whose page table does not lie on frame 0 |
| `Contents.CallKeepsData` | osproject/kernel/memory.c:99-217 | in every state that a run can reach, no call changes a word of an allocated page, short of tables or not; a write changes the word it names and no other |
| `Contents.RunKeepsContents` | osproject/kernel/memory.c:99-217 | over every run a word of an allocated page holds the last value that the run wrote to it, or what it held before |
| `Contents.LoadsLastWritten` | osproject/kernel/memory.c:99-217 | so does an address in any address space that maps it through a page table not on frame 0, whatever is called in between |
| `Contents.GotPagesAreZero` | osproject/kernel/memory.c:157-184 | in every state that a run can reach, all pages of a successful `get_kernel_pages` or `get_user_pages` are mapped and read as zero |
| `Contents.GetAPageKeepsData` | osproject/kernel/memory.c:187-217 | `get_a_page` maps its page to a frame without a use and does not clear it |
| `Rights.AddedPageIsOpen` | osproject/kernel/memory.c:109-126 | the page that `page_table_add` maps can be read and written by the kernel and by user programs, by the bits of both levels |
| `Rights.OpenAccess` | osproject/boot/loader.S:217-253 | in every open memory that holds for all mapped user pages, the first megabyte and the heap, in every directory |
| `Rights.RunKeepsOpen` | osproject/kernel/memory.c:99-127 | every run keeps memory open: the twelve low bits of each present entry of a directory, a page table or a known kernel page are US, RW and P and no others |
| `Rights.BootRunIsOpen` | osproject/userprog/process.c:75-83 | so from boot on, after every run, every page mapped by the loader, by `page_table_add` or in a new directory, and the entries of all directories, the one for itself included |
| `LinearHeap.LinearGetPages` | osproject/kernel/memory.c:130-171 | on a linear heap `get_kernel_pages` succeeds exactly when the request fits, with no failing `palloc` on the way and no page table drawn, and the heap stays linear |
| `LinearHeap.HeapIsBumpPointer` | osproject/kernel/memory.c:130-171 | over every run in which only `get_kernel_pages` draws on the kernel pool, whatever else is called, written or activated, both bitmaps are prefixes of the same length, and kernel requests halt exactly where a bump pointer says |
| `LinearHeap.HeapAddressIsLinear` | osproject/kernel/memory.c:219-225 | `addr_v2p(K_HEAP_START + 4096 k)` is `kp_start + 4096 k` for every allocated page k |
| `PoolLayout.CountsFitExactly` | osproject/kernel/memory.c:241-249 | the 16-bit page counts do not truncate exactly up to 131070 free pages |
| `PoolLayout.FewPagesAreLost` | osproject/kernel/memory.c:247-281 | each bitmap covers its half of the pages but for less than eight, and the heap has as many pages as the kernel pool has frames |
| `PoolLayout.PoolsDisjoint` | osproject/kernel/memory.c:250-262 | for every memory size the pools are disjoint and clear of the loader's tables |
| `PoolLayout.PoolsAreRealExactly` | osproject/kernel/memory.c:237-262 | every frame of the pools lies in [0x200000, all_mem) if and only if all_mem is at least 0x200000 |
| `PoolLayout.BitmapsFitExactly` | osproject/kernel/memory.c:263-296 | the three bitmaps end at or below main's PCB exactly up to 87391 free pages |
| `PoolLayout.SupportedRange` | osproject/kernel/memory.c:228-297 | all of this for 2 MB to 512 MB |
| `PoolLayout.FullRangeOverlapsMain` | osproject/kernel/memory.c:10-14 | with 512 MB the bitmaps run over main's PCB |
| `Boot.BootMapsFirstMegabyte` | osproject/boot/loader.S:217-238 | the first megabyte is mapped at 0 and at 0xc0000000, and the directory maps itself |
| `Boot.BootIsSoundExactly` | osproject/kernel/memory.c:228-297 | `mem_pool_init` leaves main's PCB and stack alone and hands out existing frames only if and only if there are 2 MB and the bitmaps end below the PCB |
| `Boot.BootInvExactly` | osproject/boot/loader.S:207-253 | when the memory fits, the memory invariant holds after boot if and only if no table word of a heap page was stale |
| `Boot.BootIsLinear` | osproject/kernel/memory.c:284-296 | then the heap is linear with nothing handed out |
| `Boot.BootHeapIsLinear` | osproject/kernel/memory.c:157-171 | from boot on, in every such run heap addresses translate linearly from 0x200000 |
| `Boot.BootRunIsSafeExactly` | osproject/kernel/memory.c:84-217 | from boot on, a run of memory calls leaves the invariant if and only if no call of it was short of tables |
| `Boot.BootRunKeepsKernelHalf` | osproject/userprog/process.c:75-83 | from boot on, in every run of memory calls all directories agree on the kernel half |
| `Exhaustion.SmallBoots` | osproject/kernel/memory.c:228-297 | a machine with 16 free pages boots |
| `Boot.StaleWordHalts` | osproject/kernel/memory.c:109-113 | a stale word for the first heap page halts the first `get_kernel_pages` in line 111 |
| `KernelMemory.PageManager.Palloc` | osproject/kernel/memory.c:84-96 | the bitmap code is the specified `palloc` |
| `KernelMemory.PageManager.ClearPage` | osproject/kernel/memory.c:123 | clearing a page through the MMU clears exactly its frame |
| `KernelMemory.PageManager.PageTableAdd` | osproject/kernel/memory.c:99-127 | editing through `pde_ptr` and `pte_ptr` never faults and does to memory what the walk needs |
| `KernelMemory.PageManager.AddNewTable` | osproject/kernel/memory.c:119-125 | the same for the branch with a new table: the ASSERT of line 124 holds |
| `KernelMemory.PageManager.VaddrGet` | osproject/kernel/memory.c:32-67 | the bitmap code is the specified `vaddr_get` |
| `KernelMemory.PageManager.MallocPage` | osproject/kernel/memory.c:130-154 | the loop is the specified `malloc_page` for every outcome |
| `KernelMemory.PageManager.ClearRun` | osproject/kernel/memory.c:164 | clearing reserved pages through the MMU clears exactly their frames, up to the first that is not mapped; it faults exactly if there is one |
| `KernelMemory.PageManager.GetPages` | osproject/kernel/memory.c:157-184 | in every state that a run can reach, the call is the specified one for every outcome, the page fault of the memset included, and keeps the depth of the user pool's lock when it returns |
| `KernelMemory.PageManager.GetAPage` | osproject/kernel/memory.c:187-217 | the call is the specified one for every outcome; it returns with the lock depth it found if and only if the pool had a free frame |
| `KernelMemory.PageManager.MapMarked` | osproject/kernel/memory.c:211-217 | its second part, with the page marked and the lock held: without a frame it changes nothing and keeps the lock |
| `KernelMemory.PageManager.MarkPage` | osproject/kernel/memory.c:191-210 | marks the page in the bitmap it belongs to and nothing else, or halts in the specified line |
| `PallocRace.DistinctExactlyIfAtomic` | osproject/kernel/memory.c:84-96 | over every run of interruptible `palloc`s by any number of threads in which all calls finish, the frames are pairwise distinct if and only if no call scanned and found a free frame while another was between its scan and its mark |
| `PallocRace.TwoThreadsOneFrame` | osproject/kernel/memory.c:86-93 | two threads that both scan before either marks get one frame |
| `PallocGuard.GuardedFramesAreDistinct` | osproject/kernel/memory.c:86-93 | over every interleaving of the kernel machine from boot, if every caller of `palloc` has interrupts off, or every caller holds the pool's lock, the frames handed out are pairwise distinct |
| `PallocGuard.UnguardedFramesClash` | osproject/kernel/memory.c:157-171 | a run of the machine from boot in which two timer interrupts make two threads get one frame |
| `KernelMemory.PageManager.AddrV2P` | osproject/kernel/memory.c:219-225 | returns the MMU's translation of a mapped address |
| `KernelMemory.PageManager.CopyHalf` | osproject/userprog/process.c:77 | copies the upper quarter of the active directory, read through the window, to the new page |
| `KernelMemory.PageManager.CreatePageDir` | osproject/userprog/process.c:65-86 | in every state that a run can reach, the call is the specified one for every outcome |
| `KernelMemory.PageManager.SetupPage` | osproject/boot/loader.S:207-253 | leaves the directory and the first 256 table entries as described, and all other memory alone |
| `KernelMemory.PageManager.ClearLow` | osproject/lib/kernel/bitmap.c:5-9 | `memset` below 1 MB through the MMU clears exactly the bytes of the range |
| `KernelMemory.PageManager.constructor` | osproject/kernel/memory.c:228-297 | after `setup_page` and `mem_pool_init` the memory is the boot memory that the theorems start from, and main's page is untouched when the memory fits |
| `IoQueue.FullMeansOne` | osproject/device/ioqueue.c:22-32 | `ioq_full` holds exactly with one unread byte, `ioq_empty` exactly with none |
| `IoQueue.PutAppends` | osproject/device/ioqueue.c:80-81 | a put appends one byte, up to 63 unread |
| `IoQueue.PutOverruns` | osproject/device/ioqueue.c:74-81 | with 63 unread bytes the full test does not hold and a put would lose all of them |
| `IoQueue.GetTakes` | osproject/device/ioqueue.c:59-60 | a get takes the oldest byte |
| `IoQueue.QueueIsFifo` | osproject/device/ioqueue.c:22-86 | over every run of guarded puts and gets, what was stored is what was read followed by at most one unread byte |
| `IoQueue.RingIsSlot` | osproject/device/ioqueue.c:22-86 | over every run of guarded puts and gets the ring stores, refuses and gives back exactly the bytes that a slot for one byte does |
| `IoQueue.IoqueueBuffer.IoqPutchar` | osproject/device/ioqueue.c:70-86 | appends the byte; with interrupts on or a full buffer it halts; the waiter pointers stay NULL |
| `IoQueue.IoqueueBuffer.IoqGetchar` | osproject/device/ioqueue.c:48-68 | takes the oldest byte; with interrupts on or an empty buffer it halts |
| `IoQueue.IoqueueBuffer.IoqFull` | osproject/device/ioqueue.c:22-26 | halts exactly with interrupts on, and is true exactly with one unread byte |
| `IoQueue.IoqueueBuffer.IoqEmpty` | osproject/device/ioqueue.c:28-32 | halts exactly with interrupts on, and is true exactly with no unread byte |
| `Consumers.NextKeeps` | osproject/kernel/main.c:34-62 | every step of every thread, the timer and the keyboard keeps the consumer invariant |
| `Consumers.ConsumersAreSafe` | osproject/kernel/main.c:34-62 | over every run no ASSERT fails, those of ioqueue.c included, so `ioq_wait` is never reached; bytes are read in the order they were stored with at most one unread, and the console lock is free whenever interrupts are on |
| `Consumers.ScreenIsPaired` | osproject/device/console.c:24-35 | over every run each tag is followed by its byte at once, reports of unknown keys stand only between such pairs, and the bytes shown are those read, in order |
| `Consumers.LossExactlyOnOverrun` | osproject/device/keyboard.c:195-199 | characters are lost if and only if one arrives while the last is unread |
| `Consumers.StoredIsInTime` | osproject/device/keyboard.c:195-199 | over every run exactly the characters that arrive while none is unread are stored, in order |
| `Consumers.EveryCodeCounts` | osproject/device/keyboard.c:112-218 | over every run the handler has seen the scancodes of the events, all and in order: its flags are the fold over their key events, and the screen has one more report for each press of an unknown key |
| `ConsumerTurn.TurnPrints` | osproject/kernel/main.c:34-62 | with a byte in the queue, one turn of a consumer's loop, alone, prints its tag and the oldest byte, takes it from the queue, and is back at the top with interrupts on |
| `ConsumerTurn.TurnIdles` | osproject/kernel/main.c:34-62 | with an empty queue it is back at the top with screen and queue unchanged |
| `ConsumerTurn.NothingBetween` | osproject/kernel/main.c:38-45 | from the first statement of a turn to the last, nothing but the consumer's own statements can happen |
| `Consumers.SecondKeyIsLost` | osproject/device/keyboard.c:195-199 | a run from boot: with interrupts on and nobody reading, of two typed characters the second is lost |
| `Consumers.CheckStillHolds` | osproject/kernel/main.c:39-42 | the emptiness test of a consumer still holds at its `ioq_getchar` |
| `Consumers.LockStatement` | osproject/device/console.c:14-22 | inside a consumer's section `lock_acquire` and `lock_release` never wait |
| `Consumers.TypedStringIsPrinted` | osproject/device/keyboard.c:194-200 | end to end: if the scancodes of the run's events are those that type a string, and none overruns, that string is what the consumers read, and print |
| `Keyboard.HandlerIsFold` | osproject/device/keyboard.c:112-218 | for every byte stream the handler equals parsing 0xe0-prefixed key events and folding over them, for the flags and for the characters offered |
| `Keyboard.HandleIsEvent` | osproject/device/keyboard.c:130-217 | for one byte the handler's branches do to the flags, offer and report exactly what the key event means |
| `Keyboard.ModifierIsLast` | osproject/device/keyboard.c:137-150 | shift, ctrl and alt equal the last make or break of their family |
| `Keyboard.CapsIsParity` | osproject/device/keyboard.c:210-214 | caps lock is the parity of the unprefixed 0x3a bytes |
| `Keyboard.LetterCase` | osproject/device/keyboard.c:180-191 | a letter key offers the capital exactly when shift xor caps lock is on |
| `Keyboard.SymbolListIsExact` | osproject/device/keyboard.c:160-164 | the handler's list of symbol keys leaves out exactly the letters and keys with one character |
| `Keyboard.KeymapRows` | osproject/device/keyboard.c:46-108 | the rows of the keyboard carry the letters, digits and symbols in their order, without and with shift |
| `Keyboard.KeymapOthers` | osproject/device/keyboard.c:46-108 | the keys between and behind the rows |
| `Keyboard.ReportsAreUnknownKeys` | osproject/device/keyboard.c:215-217 | over every byte stream the handler reports exactly the presses of keys that it does not know |
| `Keyboard.TypingRoundTrip` | osproject/device/keyboard.c:46-218 | encoding any typable string to scancodes and decoding it, whatever the caps lock, offers exactly that string and restores the flags |
| `Keyboard.Driver.Handler` | osproject/device/keyboard.c:112-218 | the handler, statement by statement, is the specified reply and the meaning of its key event |

## Left out

- Scheduler.StartThreadKeepsInv: `thread_start` is modelled with interrupts off, as main.c:20-23 calls it; with interrupts on, a timer interrupt between its two list appends is not modelled. The ASSERTs of lines 78 and 79 are in TagLinks.ThreadStartAsserts.
- Scheduler.TimerTickKeepsInv: without the stack_magic ASSERT of timer.c:46, which is in ThreadPages.RunningThreadIsCurrent.
- Kernel.Kernel.TimerHandler: the same.
- Kernel.Kernel.ThreadStart: with interrupts off, and without the ASSERT of line 79, as above.
- Runs.MutualExclusion: holds for callers that release only locks they hold and nest below 2^32 - 1; `Nesting` shows what happens beyond.
- Runs.StepKeepsInv: interleaving is by C statement; instructions inside one statement, compiler reordering and other processors are not modelled.
- Waiting.BoundedWaiting: says nothing about runs in which a thread is unblocked to the front of the ready list.
- ContextSwitch.RoundTrip: assumes that a running thread leaves the saved stacks of other threads alone and does not run its own stack into its PCB.
- ThreadPages.RunningThreadIsCurrent: assumes the same, that C code leaves every stack_magic alone and room for `switch_to` on the stack, that a new thread gets a page of its own, and that names are shorter than 16 characters; that a stack never overflows its page is not proved.
- ContextSwitch.PcbWritten: memory holds one value for each address of a field; that a word spans four bytes is not modelled.
- Bitmaps.BitmapScan: for maps of at most 2^31 - 1 bits, because the C function returns an int.
- KernelHalf.RunKeepsSoundTranslations: says nothing of addresses whose page table lies on frame 0, which a second such table unmaps (Exhaustion.PageIsLost).
- Rights.OpenAccess: leaves out kernel pages beyond the heap, whose table words neither the loader nor a memory call writes.
- Contents.LoadsLastWritten: a write is named by its frame and word; that it goes through an address that maps there is left to the caller.
- KernelMemory.PageManager.SetupPage: the directory is cleared word by word instead of byte by byte.
- KernelMemory.PageManager.VaddrGet: the user bitmap of a process is a value and not an array in memory.
- KernelMemory.PageManager.MarkPage: the same.
- KernelMemory.PageManager.GetAPage: the same, and the pool's lock is a counter of its depth; who waits for it is in Holding.HolderShutsOut.
- KernelMemory.PageManager.constructor: clears the bitmaps both in memory and in the arrays that stand for them afterwards; no memory call writes to their frames otherwise (KernelHalf.RunKeepsLowMemory).
- Memory calls are atomic steps of a run; what an interrupt inside `palloc` does is shown by itself, in modules PallocRace and PallocGuard.
- Consumers.ConsumersAreSafe: the endless loops are steps of a machine, and put_str and put_char append to an abstract screen.
- ConsumerTurn.TurnPrints: one turn once the consumer has the processor; when it gets it is the matter of modules TimeSlices and Waiting.
- Physical memory consists of aligned 32-bit words; thread control blocks are not laid out in it.
- The TLB, caches and faults raised by the MMU other than a missing entry are not modelled.
- The boot sector, disk and memory probing, ELF loading and protected-mode entry are not part of this model.
- PIC, PIT, IDT, exception and TSS setup, print.S and string.c are not part of this model.
- The rest of process.c (start_process, process_execute, the user bitmap's creation) is not part of this model.
- An older copy of the timer driver, kernel/timer.c, is not part of this model.
