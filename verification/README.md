# Xinu kernel: verified model

A model in Dafny of the core of the Embedded Xinu kernel and of what is built on
its tables: the thread queues, the scheduler, semaphores, messages and the delta
sleep queue; mailboxes and buffer pools; the kernel heap and the region allocator;
the write-back cache of the flash driver; and two arithmetic cores, the checksum
of TRX images and the download plan of the LPC boot loader tool.

`dafny verify dfyconfig.toml` checks all of it. Every lemma carries
`{:induction false}`: no proof relies on automatic induction.

## How the model is laid out

The kernel is described twice. `KernelState` gives each call as a function on a
state in which queues are sequences of thread ids; a call is atomic up to its
resched, and a call that blocks is finished by a later step of the same thread.
`KernelTables` holds the imperative code over the arrays `quetab`, `thrtab` and
`semtab`, with their head and tail sentinels; every method there is proved to
change the tables as the function says. `KernelInv` and `KernelSteps` prove what
every step keeps, `KernelRuns`, `SemaphoreLedger`, `Messages`, `SleepChanges`,
`SleepTimes` and `Scheduling` what holds in every state of every run from boot.
`ThreadModes`, `SemaphoreRuns`, `ThreadRecords`, `Reschedules` and `MessageRuns`
say, from the call and the state alone, what each call does to every thread and
every semaphore, and show that the kernel does just that; over runs, counts,
priorities, parents and answered messages follow from the calls. `TableRuns`
carries any run out on the tables. `ThreadLists`,
`DeltaQueue` and `QueueLinks` are the list level below: sorted insertion, delta
keys, and doubly linked chains in one table. The numbers of threads and of
semaphores are arbitrary.

`Mailboxes` and `BufferPools` are client protocols: any number of threads, each
with its place in the call, interleaved in any order. Their semaphores are those
of `Counters`, which are shown to be what the kernel calls do; `Waiters` holds
what both protocols share.

`FreeList` describes a free list by the set of bytes it covers and shows that the
set determines the list. `HeapRuns` and `RegionLists` build the two allocators on
it, `HeapMemory` and `RegionTable` (with `RegionLinks`) hold their pointer code,
over memory words and over the descriptor table.

`FlashCache` and `FlashRuns` relate the eight cached erase blocks to a flat disk;
`FlashRanges` says by address which bytes no run can change,
`FlashDevice` is the driver code with its shared buffers. `Crc32` and
`IspDownload` stand alone. `Multiples` is the arithmetic that the flash cache and
the download share.

## Where the code departs from its intent

- `kill` of a sleeping thread marks it free before it calls `unsleep`, which then
  refuses; a timed receiver falls to the default case. Both stay on the sleep
  queue. Runs exclude these two cases; `KillFinishExactly` shows that they are
  the only ones that break the invariant, `StrandedSleeper` what they leave.
- `chprio` does not move a ready thread to its new place: `ChPrioOrder` says when
  the ready list is still in order, `ChPrioExactly` when the next resched runs a
  thread that nobody ready outranks.
- `unsleep`, called by a program, takes a sleeper off its queue and leaves it
  marked asleep: `UnsleepExactly`. Runs have it inside `send` only.
- The null thread must not block: `NullBlocks` says which calls it may make.
- `insert` runs over the tail for the least integer as key: `ScanStops`.
- `queinit` accepts a table that has no room left for a pair: `RoomTest`.
- `semcreate` with a negative count answers SYSERR and keeps the entry it took.
- `recvtime(0)` puts a key of zero in front, and then a tick passes that no other
  sleeper sees: `ZeroTimeout`, `FrontExactly`, and over runs `FrontInRun` and
  `SleepsExactly`.
- `roundmb` wraps for the last seven sizes, and `memget` and `stkget` then hand out
  memory that stays free: `WrappedRequest`, `WrappedStack`.
- `memfree` links in any range that touches no free byte, aligned or not, inside
  the heap or not: `MergedExactly`.
- `memRegionAlloc` of zero bytes, or of a size that wraps in `roundpage`, splits
  a region into itself and loses its pages: `SplitTakesOwnDescriptor`,
  `ZeroLosesPages`, `AllocCallExactly`; it also never takes a region
  of exactly the size asked for: `AllocExactly`, `ExactFitRefused`.
  `memRegionInit` needs a page aligned start: `InitExactly`.
- Two threads that free the same buffer at once both pass the test of `buffree`:
  `FreedByTwo`, `FreedTwice`. `bfpalloc` accepts three sizes that wrap: `AcceptableExactly`.
- `physicalWrite` drops dirty erase blocks that start inside the boot loader:
  `RefinesExactly`, `WriteReachesDevice`. The full sync writes everything and then always answers
  SYSERR: `SyncAll`.

## Model

| member | source | states |
|---|---|---|
| `ThreadLists.InsertPos` | system/insert.c:30-34 | the scan of a queue stops before the first entry with a smaller key, behind all entries with the same key |
| `ThreadLists.InsertDescending` | system/insert.c:30-41 | inserting there keeps the keys of the queue non-increasing |
| `ThreadLists.RemoveDescending` | system/getitem.c:61-72 | taking any entry out keeps them non-increasing |
| `ThreadLists.DeltaPos` | system/insertd.c:30-37 | the delta scan stops after exactly those sleepers that are due no later than the new one |
| `DeltaQueue.DueAfterInsert` | system/insertd.c:30-46 | every prefix sum of the sleep queue after an insertion, in terms of those before it |
| `DeltaQueue.InsertMovesNobody` | system/insertd.c:30-46 | an insertion leaves the remaining ticks of every sleeper unchanged |
| `DeltaQueue.InsertIsMapUpdate` | system/insertd.c:30-46 | insertd is the update of the map from sleeper to remaining ticks: the new thread gets its key, all others keep theirs |
| `DeltaQueue.InsertNonNegative` | system/insertd.c:30-46 | keys stay non-negative, and the front key positive when it was and the new key is |
| `DeltaQueue.DueBeforeRemoved` | system/unsleep.c:42-48 | every prefix sum of the sleep queue up to a removed thread stays |
| `DeltaQueue.DueBehindRemoved` | system/unsleep.c:42-48 | every prefix sum behind it stays too, since the next thread inherits its key |
| `DeltaQueue.RemoveMovesNobody` | system/unsleep.c:42-48 | a removal leaves the remaining ticks of every other sleeper unchanged |
| `DeltaQueue.RemoveIsMapDelete` | system/unsleep.c:42-48 | unsleep deletes one thread from the map from sleeper to remaining ticks and nothing else |
| `DeltaQueue.RemoveNonNegative` | system/unsleep.c:42-48 | keys stay non-negative, and the front key positive when it was |
| `KernelInv.ReadyKeeps` | system/ready.c:24-31 | a thread on no queue becomes ready: placement, sortedness of the ready list and the other queues are kept |
| `KernelInv.DispatchKeeps` | system/resched.c:54-60 | dequeuing the first ready thread and making it current keeps the invariant; the queue is never empty there |
| `KernelInv.ReschedKeeps` | system/resched.c:24-73 | resched re-establishes exactly one current thread from any state in which the caller has been put on a queue or stopped, and leaves semaphores, messages and sleepers alone |
| `KernelSteps.ResumeKeeps` | system/resume.c:17-35 | resume keeps the kernel invariant |
| `KernelSteps.SuspendKeeps` | system/suspend.c:17-48 | suspend of a ready or of the current thread keeps the kernel invariant |
| `KernelSteps.CreateKeeps` | system/platforms/arm-qemu/create.c:66-67 | the step from a free to a suspended thread keeps the kernel invariant if and only if the priority is above the least integer |
| `KernelSteps.ChPrioKeeps` | system/chprio.c:17-34 | chprio keeps the kernel invariant, with the ready list sorted by the old key, if and only if the thread is bad or the priority is above the least integer |
| `KernelSteps.WaitKeeps` | system/wait.c:16-39 | wait keeps the kernel invariant, blocking or not, unless the null thread would have to block |
| `KernelSteps.ReleaseKeeps` | system/signal.c:28-31 | releasing the first waiter takes exactly it off the semaphore queue and makes it ready |
| `KernelSteps.SignalKeeps` | system/signal.c:16-34 | signal keeps the kernel invariant |
| `KernelSteps.SignalNKeeps` | system/signaln.c:17-39 | signaln keeps the kernel invariant for any count |
| `KernelSteps.SemFreeKeeps` | system/semfree.c:19-43 | semfree releases every waiter and keeps the kernel invariant |
| `KernelSteps.SemCreateKeeps` | system/semcreate.c:19-35 | semcreate keeps the kernel invariant, with a free entry or without |
| `KernelSteps.NextFreeExactly` | system/semcreate.c:43-59 | the round-robin search fails exactly when every semaphore is in use |
| `KernelSteps.SleepKeeps` | system/sleep.c:21-46 | sleep keeps the kernel invariant, under the same condition |
| `KernelSteps.ClockKeeps` | system/clkhandler.c:34-64 | a clock tick, with all the wake-ups it causes, keeps the kernel invariant |
| `KernelSteps.SendKeeps` | system/send.c:17-49 | send keeps the kernel invariant in every state of the receiver |
| `KernelSteps.ReceiveKeeps` | system/receive.c:15-32 | receive keeps the kernel invariant, under the same condition |
| `KernelSteps.RecvTimeKeeps` | system/recvtime.c:19-58 | recvtime keeps the kernel invariant, under the same condition |
| `KernelSteps.KillFinishKeeps` | system/kill.c:49-67 | the state switch of kill keeps the kernel invariant unless the victim sleeps |
| `KernelSteps.KillFinishExactly` | system/kill.c:49-67 | it does so if and only if the victim is neither sleeping nor receiving with a timeout |
| `KernelSteps.StrandedSleeper` | system/kill.c:51-53 | otherwise the victim ends up free and still on the sleep queue, because unsleep refuses a free thread |
| `KernelSteps.UnsleepExactly` | system/unsleep.c:21-51 | unsleep called by a program keeps the kernel invariant if and only if it finds no sleeper, and then changes nothing; a sleeper it finds is on no list any more and its entry still says asleep |
| `KernelSteps.NullBlocks` | system/resched.c:54-56 | a call that may block keeps the kernel invariant when the null thread makes it if and only if it does not block |
| `KernelSteps.ContinueKeeps` | system/receive.c:24-29 | a blocked call that is resumed keeps the kernel invariant |
| `KernelSteps.StepKeeps` | include/queue.h:9-15 | every kernel call and every clock tick keeps the kernel invariant |
| `KernelRuns.InitInv` | system/initialize.c:189-230 | the tables that sysinit builds satisfy the kernel invariant, for any number of threads and semaphores |
| `KernelRuns.BootedQueues` | include/queue.h:9-15 | in every state of every run from boot: a thread is on the ready list iff ready, on semaphore queue k iff waiting on k, on the sleep queue iff sleeping or timed receiving, on nothing otherwise; exactly one thread is current; no queue holds a thread twice |
| `KernelRuns.BootedNullThread` | system/resched.c:54-56 | in every such state the null thread is current or ready, so that the dequeue in resched finds a thread |
| `SemaphoreLedger.StepLedger` | system/wait.c:30-36 | every step keeps the ledger of every semaphore: count against signals and waits, arrivals against releases |
| `SemaphoreLedger.BootedSemaphores` | system/signal.c:28-31 | in every state of every run: as many threads wait as the count is below zero; the count is the initial value plus signals minus waits not cancelled by kill; the threads released are a prefix of those that blocked, in order, and the rest is the queue |
| `Messages.StepMail` | system/send.c:29-46 | every step keeps, for every thread, the messages taken and the pending one equal to those sent |
| `Messages.ContinueMail` | system/receive.c:23-29 | a blocked receive that goes on finds a message |
| `Messages.BootedMessages` | system/recvclr.c:23-31 | in every state of every run: the messages a thread took are a prefix, in order, of those sent to it in its lifetime; at most one is pending, and it is the rest |
| `MessageRuns.TakesPending` | system/receive.c:28-29 | with a message pending receive, recvtime, recvclr and their resumed halves empty the slot, log exactly that message as taken, and change nothing else |
| `MessageRuns.StepLog` | system/send.c:29-46 | every step adds to the log of each thread exactly what the call answers it and what it accepts for it, as read off the call |
| `MessageRuns.LogsAreCalls` | system/recvtime.c:47-50 | over every run from boot the log is the answers and the accepted messages since the thread was created |
| `MessageRuns.AnsweredOnce` | system/recvclr.c:23-31 | in every run from boot, in terms of the calls alone: the messages accepted for a live thread are those it was answered, once each and in order, and then the pending one |
| `SemaphoreRuns.StepSem` | system/wait.c:30-36 | every step changes count, queue and use of every semaphore as the call says, and no other way |
| `SemaphoreRuns.SignalNExactly` | system/signaln.c:29-36 | signaln raises the count by n, takes the first n waiters or all off the queue, leaves each ready or current, and changes no other semaphore |
| `SemaphoreRuns.SemCreateAfter` | system/semcreate.c:25-34 | semcreate takes the entry that is found, with the count asked for, or zero for a negative one, and an empty queue |
| `SemaphoreRuns.SemFreeAfter` | system/semfree.c:32-40 | semfree empties the queue, zeroes the count and gives the entry back |
| `SemaphoreRuns.CancelAfter` | system/kill.c:59-66 | kill of a waiter gives the count back and takes it off the queue |
| `SemaphoreRuns.LogIsTally` | system/signal.c:28-31 | over every run from boot the ledger is what the calls since the creation add up to |
| `SemaphoreRuns.CountIsTally` | system/signal.c:28-31 | so the count of a semaphore is its first value plus what was signalled minus what was waited for and not cancelled by kill, and as many threads wait as it is below zero |
| `ThreadModes.StepMode` | system/resched.c:24-73 | every step takes every thread to the mode that the call says: which threads come to live, are suspended, wait, sleep, receive or die, for all calls and the clock tick |
| `ThreadModes.ReschedMode` | system/resched.c:42-60 | resched changes nothing but which live thread is current |
| `ThreadModes.ResumeMode` | system/resume.c:17-35 | resume brings a suspended thread to live, and does nothing else |
| `ThreadModes.SuspendMode` | system/suspend.c:31-44 | suspend holds a ready or current thread, and does nothing else |
| `ThreadModes.SignalManyMode` | system/signaln.c:29-35 | n signals bring exactly the first n waiters to live |
| `ThreadModes.SemFreeMode` | system/semfree.c:33-37 | semfree brings exactly the waiters to live |
| `ThreadModes.ClockMode` | system/clkhandler.c:51-55 | a tick brings exactly those queued threads to live that have no time left |
| `ThreadModes.SendMode` | system/send.c:29-46 | a send brings its receiver to live if and only if the message is accepted and it waits for one |
| `ThreadModes.KillFinishMode` | system/kill.c:49-67 | kill ends its victim and nobody else |
| `ThreadRecords.StepRecord` | system/platforms/arm-qemu/create.c:65-74 | every step leaves priority and parent of every thread as the call says: only create and chprio set them |
| `ThreadRecords.RecordsAreCalls` | system/chprio.c:23-31 | in every run from boot the priority is that of the last create or chprio, and the parent is the thread that called create |
| `ThreadRecords.NullRunsLast` | system/initialize.c:196-199 | in every run from boot without chprio the null thread comes to run only when no ready thread has a priority above zero |
| `Reschedules.StepPasses` | system/resched.c:24-73 | every step passes through resched once or not at all, exactly as the call says |
| `Reschedules.ReschedExactly` | system/resched.c:42-60 | a running thread keeps the processor if and only if it outranks every ready thread; else the first one runs and it is queued behind those it does not outrank |
| `SleepChanges.CallChange` | system/insertd.c:30-46 | every step but a clock tick leaves the sleep queue alone, adds the running thread by insertd, or takes one thread out by unsleep; which of them, from the call and the state |
| `SleepChanges.AfterWait` | system/unsleep.c:42-48 | none of these moves the time at which any other queued thread is due, and one that joins is due after exactly what it asked for |
| `SleepChanges.CallWait` | system/insertd.c:30-46 | so over a whole call any thread, sleeping or in recvtime, stays queued and due as before unless a message takes it out, and joins only by its own sleep or recvtime |
| `SleepChanges.CallAsleep` | system/insertd.c:30-46 | no call but a clock tick changes the remaining ticks of a thread asleep, or puts a zero in front unless it is recvtime(0) |
| `SleepTimes.ClockLeft` | system/clkhandler.c:51-55 | a clock tick takes one off the remaining ticks of every queued thread, asleep or in recvtime, exactly when the front key is positive, and readies those with none left |
| `SleepTimes.ClockFront` | system/wakeup.c:17-23 | after a tick the front key is positive |
| `SleepTimes.NeverEarly` | system/clkhandler.c:51-55 | in every run a sleeper is still asleep as long as fewer ticks passed than it had left |
| `SleepTimes.ZeroTimeout` | system/recvtime.c:31-39 | recvtime(0) leaves a zero in front exactly when it finds no message, or there was one already |
| `SleepTimes.FrontExactly` | system/recvtime.c:31-39 | every other step keeps the front key positive: it stops being so exactly at a recvtime(0) without a message |
| `SleepTimes.FrontStaysPositive` | system/recvtime.c:31-39 | between two points of a run without recvtime(0) the front key stays positive |
| `SleepTimes.LeftExactly` | system/clkhandler.c:51-55 | in every run the remaining ticks of a sleeper go down by exactly the ticks at which the front key was positive |
| `SleepTimes.WakesExactly` | system/wakeup.c:17-23 | in every run a sleeper is readied by a tick if and only if that tick makes those as many as it had left |
| `SleepTimes.TicksExactly` | system/sleep.c:27-27 | the ticks of a request are those whole ticks that fit into it, in 32 bits |
| `SleepTimes.TicksOfSeconds` | include/clock.h:20-20 | k seconds are k times the ticks of a second, unless the product wraps |
| `SleepTimes.SleepsSeconds` | system/clkhandler.c:40-47 | in every run from boot a thread that sleeps k seconds is asleep until the tick that makes clktime k greater with the same clkticks, and is readied on it if and only if no recvtime(0) hid one of the ticks |
| `SleepTimes.FellAsleep` | system/sleep.c:27-40 | a thread that sleeps has, right after the call, exactly the ticks of its request left |
| `SleepTimes.WakesOnTime` | system/wakeup.c:17-23 | a sleeper with n ticks left is readied on the n-th tick if and only if the front key was positive at each of the n |
| `SleepTimes.FrontByLeft` | system/clkhandler.c:51-55 | the front key is positive if and only if every queued thread has time left |
| `SleepTimes.FrontInRun` | system/recvtime.c:31-39 | in every state of every run from boot the front key is positive if and only if no thread that called recvtime(0) without a message has been queued ever since, with no tick in between |
| `SleepTimes.SleepsExactly` | system/sleep.c:27-40 | in every run from boot a thread that sleeps n > 0 ticks is not readied before the n-th later tick, and is readied on it if and only if at none of the n ticks such a recvtime(0) was still queued |
| `SleepTimes.SleepsOnTime` | system/sleep.c:27-40 | so in every run from boot without a recvtime(0) before it, the n-th later tick readies the thread |
| `Scheduling.StepTop` | system/resched.c:42-56 | every step but chprio keeps the ready list sorted by priority, and after a resched no ready thread outranks the current one |
| `Scheduling.BootedTop` | system/resched.c:42-56 | in every run from boot without chprio, after every resched the running thread has at least the priority of every ready thread |
| `Scheduling.StepAhead` | system/insert.c:30-41 | with each resched a ready thread of highest priority has at least one thread fewer ahead of it, unless it runs |
| `Scheduling.MovesUp` | system/insert.c:30-41 | the same over a whole run |
| `Scheduling.RunsWithin` | system/resched.c:42-56 | a ready thread of highest priority with k threads ahead of it runs within k + 1 rescheds |
| `Scheduling.ChPrioOrder` | system/chprio.c:31-31 | chprio leaves the ready list in the order of priorities if and only if the new priority still lies between those of the neighbours |
| `Scheduling.ChPrioExactly` | system/chprio.c:31-31 | after chprio on a ready thread and the next resched no ready thread outranks the running one if and only if: the new priority does not pass the caller, if the caller keeps the processor; does not pass the first of the queue, if that is another thread; is not below the caller and the second of the queue, if the thread itself is the first |
| `Scheduling.ChPrioElsewhere` | system/chprio.c:31-31 | a change for a thread that is not ready is always respected by the next resched |
| `QueueLinks.LinkChains` | system/queue.c:21-38 | linking an entry between two neighbours is insertion into one list; all the other chains stay as they are |
| `QueueLinks.UnlinkChains` | system/getitem.c:61-72 | unlinking an entry is removal from its list; all the other chains stay as they are |
| `QueueLinks.AddQueue` | system/queinit.c:15-35 | a new head and tail pair is one more empty chain |
| `QueueLinks.ScanStops` | system/insert.c:31-34 | the scan of insert meets a smaller key inside its queue if and only if the new key is above the least integer |
| `QueueLinks.RoomTest` | system/queinit.c:21-24 | in a table with k queues the room test never refuses, but some table of its size holds one queue more if and only if two entries are left |
| `KernelTables.Kernel.constructor` | system/initialize.c:189-230 | the loops of sysinit build tables whose links and states are the initial state; the queue table is then used up, and the room test of queinit still passes |
| `KernelTables.Kernel.QueInit` | system/queinit.c:15-35 | carves the next head and tail pair out of the table, or answers SYSERR and changes nothing |
| `KernelTables.Kernel.EmptyTest` | include/queue.h:65-66 | the isempty macro tells whether the list is empty |
| `KernelTables.Kernel.Enqueue` | system/queue.c:21-38 | appends to the list behind the links; errors change nothing |
| `KernelTables.Kernel.Dequeue` | system/queue.c:45-70 | removes the first entry of the list, or answers EMPTY |
| `KernelTables.Kernel.GetFirst` | system/getitem.c:17-30 | the same for the entry behind the head |
| `KernelTables.Kernel.GetItem` | system/getitem.c:61-72 | removes an entry from wherever it is |
| `KernelTables.Kernel.Insert` | system/insert.c:20-43 | the list gets the entry at its sorted place |
| `KernelTables.Kernel.InsertD` | system/insertd.c:20-49 | the sleep queue gets the entry at its place with its delta, the successor the rest |
| `KernelTables.Kernel.Resched` | system/resched.c:24-73 | the table operations amount to the specified dispatch |
| `KernelTables.Kernel.Ready` | system/ready.c:18-37 | the thread becomes ready, with a resched if asked for |
| `KernelTables.Kernel.Yield` | system/yield.c:15-23 | gives up the processor |
| `KernelTables.Kernel.Resume` | system/resume.c:17-35 | readies a suspended thread and answers its priority, or SYSERR |
| `KernelTables.Kernel.Suspend` | system/suspend.c:17-43 | suspends a ready thread and answers its priority, stops the current one, or answers SYSERR |
| `KernelTables.Kernel.SuspendReturn` | system/suspend.c:45-47 | a thread that suspended itself answers the priority it has when it runs again |
| `KernelTables.Kernel.Create` | system/platforms/arm-qemu/create.c:65-74 | the thread entry of a new thread |
| `KernelTables.Kernel.ChPrio` | system/chprio.c:17-34 | sets the priority and answers the old one |
| `KernelTables.Kernel.Wait` | system/wait.c:16-39 | counts down and blocks on the queue below zero |
| `KernelTables.Kernel.Signal` | system/signal.c:16-34 | counts up and readies the first waiter |
| `KernelTables.Kernel.SignalN` | system/signaln.c:17-39 | the loop signals count times and reschedules once; its effect is that of SignalNExactly |
| `KernelTables.Kernel.SemFree` | system/semfree.c:19-43 | the loop readies all waiters; the entry becomes free |
| `KernelTables.Kernel.SemAlloc` | system/semcreate.c:43-59 | the loop finds the next free entry round-robin, or SYSERR |
| `KernelTables.Kernel.SemCreate` | system/semcreate.c:19-35 | takes a free entry and sets its count |
| `KernelTables.Kernel.Sleep` | system/sleep.c:21-46 | puts the current thread to sleep for the ticks of ms, with 32-bit multiplication |
| `KernelTables.Kernel.Unsleep` | system/unsleep.c:21-51 | takes a sleeper off and hands its key to its successor |
| `KernelTables.Kernel.Wakeup` | system/wakeup.c:17-23 | the loop readies all sleepers whose key is not positive |
| `KernelTables.Kernel.ClkHandler` | system/clkhandler.c:34-64 | counts the tick, the second, and the front key down, and wakes sleepers |
| `KernelTables.Kernel.Send` | system/send.c:17-49 | deposits the message and readies a receiver, or answers SYSERR |
| `KernelTables.Kernel.Receive` | system/receive.c:15-32 | answers the message and empties the slot, or blocks |
| `KernelTables.Kernel.ReceiveReturn` | system/receive.c:28-31 | a blocked receive answers the message and empties the slot when it goes on |
| `KernelTables.Kernel.RecvTime` | system/recvtime.c:19-58 | answers the message and empties the slot, or joins the sleep queue |
| `KernelTables.Kernel.RecvTimeReturn` | system/recvtime.c:47-57 | a timed receive answers the message or TIMEOUT; the slot is empty |
| `KernelTables.Kernel.RecvClr` | system/recvclr.c:15-34 | answers the message or that there is none; the slot is empty |
| `KernelTables.Kernel.Kill` | system/kill.c:22-48 | checks the victim and informs its parent |
| `KernelTables.Kernel.KillReturn` | system/kill.c:49-71 | takes the victim off its queue and frees it |
| `KernelTables.Kernel.CancelWait` | system/kill.c:59-65 | a waiting victim gives its count back and leaves the queue |
| `Counters.WaitIsP` | system/wait.c:30-36 | on the count and the queue of its semaphore, the kernel call wait is the P step of the client protocols |
| `Counters.SignalIsV` | system/signal.c:28-31 | and signal is the V step |
| `Mailboxes.StoreRing` | mailbox/mailboxSend.c:41-43 | writing into a ring with room puts the message last and moves no other |
| `Mailboxes.TakeRing` | mailbox/mailboxReceive.c:41-44 | reading from a ring that is not empty takes the first message |
| `Mailboxes.StoreInv` | mailbox/mailboxSend.c:36-48 | a granted sender finds room, and its store keeps the mailbox invariant |
| `Mailboxes.TakeInv` | mailbox/mailboxReceive.c:36-49 | a granted receiver finds a message, and its take keeps the mailbox invariant |
| `Mailboxes.StepInv` | mailbox/mailboxSend.c:36-48 | every step of every thread keeps the mailbox invariant: places equal free count, granted senders, messages and unsignalled receives; messages equal the receiver count, granted receivers and unsignalled sends |
| `Mailboxes.AllocInv` | mailbox/mailboxAlloc.c:47-63 | a new mailbox satisfies it |
| `Mailboxes.RunInv` | mailbox/mailboxSend.c:36-48 | so does every state of every interleaving of any number of senders and receivers |
| `Mailboxes.StoresItsMessage` | mailbox/mailboxSend.c:41-42 | in every such run a thread at the ring stores the message of its own last mailboxSend, once, and no other step stores any |
| `Mailboxes.AnswersInOrder` | mailbox/mailboxReceive.c:36-49 | in terms of the calls alone: the ring holds what was sent and not taken, in order, and the n-th message answered is the n-th one sent |
| `Mailboxes.Delivers` | mailbox/mailboxReceive.c:36-49 | in every such run at most max messages are held, no message is overwritten, no empty place is read, and the messages received are a prefix, in order, of those stored |
| `Mailboxes.NoLostWakeup` | mailbox/mailboxReceive.c:36-49 | in every run a thread waits only while every message, or every free place, is spoken for |
| `Mailboxes.Mbox.constructor` | mailbox/mailboxAlloc.c:47-63 | the ring of a new mailbox |
| `Mailboxes.Mbox.PutMessage` | mailbox/mailboxSend.c:41-43 | the array code of mailboxSend: the place behind the last message gets the one sent, and no other place changes |
| `Mailboxes.Mbox.GetMessage` | mailbox/mailboxReceive.c:41-44 | the array code of mailboxReceive is the take step and answers the oldest message not yet received |
| `BufferPools.PopInv` | system/bufget.c:32-36 | a granted thread finds a buffer, never the link behind the last one |
| `BufferPools.MarkInv` | system/bufget.c:38-39 | the buffer it hands out is not live already |
| `BufferPools.MarkedIsLive` | system/buffree.c:32-35 | a buffer links to itself exactly when it is live or some thread is just freeing it |
| `BufferPools.FreeTestInv` | system/buffree.c:25-35 | buffree accepts exactly the live buffers |
| `BufferPools.PushInv` | system/buffree.c:39-42 | pushing a freed buffer keeps the chain |
| `BufferPools.FreedByTwo` | system/buffree.c:32-42 | the test of buffree keeps the pool sound if and only if no other thread is freeing the same buffer |
| `BufferPools.FreedTwice` | system/buffree.c:32-42 | two threads that both passed the test and pushed leave the buffer first and linked to itself, and then every pop takes it, after any number of pops |
| `BufferPools.StepInv` | system/bufget.c:30-39 | every step of every thread keeps the pool invariant: each buffer is in the chain, live, or with exactly one thread |
| `BufferPools.AllocInv` | system/bfpalloc.c:58-69 | the pool that bfpalloc builds satisfies it |
| `BufferPools.RunInv` | system/bufget.c:30-39 | so does every state of every interleaving |
| `BufferPools.HandsOutOnce` | system/bufget.c:30-39 | in every run no live buffer is handed out, no pop takes the link behind the last buffer, and the chain is as long as the positive count, the granted threads and the unsignalled frees together |
| `BufferPools.NoLostWakeup` | system/buffree.c:39-43 | in every run a thread waits only while every free buffer is spoken for |
| `BufferPools.AcceptableExactly` | system/bfpalloc.c:27-33 | the sizes accepted are those up to 2040 and the three that wrap around; only the former give a buffer as large as asked for |
| `BufferPools.BufferPool.constructor` | system/bfpalloc.c:58-67 | the loop links every buffer to the next, the last one past the end |
| `BufferPools.BufferPool.TakeFirst` | system/bufget.c:34-36 | the pointer code of bufget is the pop step |
| `BufferPools.BufferPool.MarkTaken` | system/bufget.c:38-38 | and the mark step |
| `BufferPools.BufferPool.IsTaken` | system/buffree.c:32-35 | the self-link test answers whether the buffer is live or being freed |
| `BufferPools.BufferPool.PutFirst` | system/buffree.c:39-41 | the pointer code of buffree is the push step |
| `FreeList.FirstFit` | system/memget.c:34-58 | memget takes the first block that is large enough |
| `FreeList.LastFit` | system/stkget.c:40-56 | stkget takes the last one |
| `FreeList.Canonical` | system/memfree.c:64-84 | two sorted lists without touching blocks that cover the same bytes are the same list |
| `FreeList.TakeLowCovers` | system/memget.c:36-55 | memget takes exactly the low bytes of its block off the free bytes, and their number off the total |
| `FreeList.TakeHighCovers` | system/stkget.c:58-71 | stkget does so with the high bytes |
| `FreeList.FitsExactly` | system/memfree.c:46-62 | the two neighbour tests of memfree accept a range if and only if none of its bytes is free |
| `FreeList.MergedWf` | system/memfree.c:64-84 | after joining, the list is sorted and no two blocks touch; the total grows by the length |
| `FreeList.MergedCovers` | system/memfree.c:64-84 | the free bytes grow by exactly the range |
| `FreeList.MergedAligned` | system/memfree.c:64-84 | addresses and lengths stay multiples of 8 |
| `FreeList.MergedExactly` | system/memfree.c:26-62 | of the ranges that pass the tests exactly the aligned ones that end inside the heap leave a sorted, aligned and coalesced list inside it |
| `HeapRuns.RoundMb` | include/memory.h:15-16 | rounding to a multiple of 8 with its 32-bit wrap-around: exact up to the last 7 sizes, 0 for those |
| `HeapRuns.GetKeeps` | system/memget.c:17-61 | memget keeps the heap invariant for every size |
| `HeapRuns.GetStackKeeps` | system/stkget.c:19-72 | stkget keeps the heap invariant for every size |
| `HeapRuns.LiveFits` | system/memfree.c:46-62 | every live allocation that holds bytes passes the neighbour tests of memfree |
| `HeapRuns.ReleaseKeeps` | system/memfree.c:19-87 | memfree of a live allocation keeps the heap invariant and frees exactly its bytes |
| `HeapRuns.StackRange` | include/memory.h:21-24 | the range that stkfree computes from the top word is the one that stkget took |
| `HeapRuns.StepKeeps` | system/memget.c:28-60 | every request keeps the heap invariant: free list sorted, aligned and coalesced; live allocations disjoint from each other and from free bytes; free and live bytes are the heap |
| `HeapRuns.BootInv` | system/initialize.c:181-187 | the heap that sysinit builds satisfies it |
| `HeapRuns.RunInv` | system/initialize.c:181-187 | so does every state of every run of memget, stkget, memfree and stkfree, with requests of any size |
| `HeapRuns.GetThenFree` | system/memget.c:34-58 | memget followed by memfree restores the very same list |
| `HeapRuns.StackThenFree` | include/memory.h:21-24 | stkget followed by stkfree restores the very same list |
| `HeapRuns.WrappedRequest` | include/memory.h:16-16 | memget gives a block as large as asked for if and only if the size does not wrap in roundmb; otherwise it hands out the first free block without taking it |
| `HeapRuns.WrappedStack` | system/stkget.c:30-71 | the same for stkget, which then answers the last word of the last free block |
| `HeapMemory.Memory.constructor` | system/initialize.c:181-187 | the list head and the one block of a new heap, in memory words |
| `HeapMemory.Memory.MemGet` | system/memget.c:17-61 | the pointer code over memory words is first fit and taking the low bytes; errors change no word |
| `HeapMemory.Memory.StkGet` | system/stkget.c:19-72 | the pointer code is last fit and taking the high bytes; the answer is the top word; errors change no word |
| `HeapMemory.Memory.MemFree` | system/memfree.c:19-87 | the pointer code accepts exactly what the neighbour tests accept and then links and joins, for any range; the list is a proper one again if and only if the range is aligned and ends inside the heap; a rejected call changes no word |
| `HeapMemory.Memory.JoinNext` | system/memfree.c:79-84 | joining with the next block |
| `HeapMemory.Memory.StkFree` | include/memory.h:21-24 | the macro is memfree of the range below the top word, and keeps the list proper under the same condition |
| `RegionLists.RoundPage` | include/safemem.h:19-19 | rounding to pages with its 32-bit wrap-around; 0 exactly for 0 and for sizes that wrap |
| `RegionLists.SplitIsFresh` | mem/memRegionSplit.c:42-51 | the page at which a free region is split is not the first page of any region on either list |
| `RegionLists.AllocKeeps` | mem/memRegionAlloc.c:25-67 | an allocation of at least one page keeps the region invariant |
| `RegionLists.ZeroLosesPages` | mem/memRegionAlloc.c:46-61 | after a request that rounds to no page exactly the pages of the first free region are on neither list |
| `RegionLists.AllocCallExactly` | mem/memRegionAlloc.c:20-68 | so for every size, memRegionAlloc keeps the region invariant if and only if nothing is free or the size does not round to zero |
| `RegionLists.AllocCallForm` | mem/memRegionAlloc.c:29-44 | where it does, it serves the low pages of the first strictly larger region, or nothing |
| `RegionLists.AllocOwned` | mem/memRegionAlloc.c:61-67 | the caller owns the region it was served; no other region changes hands |
| `RegionLists.AllocExactly` | mem/memRegionAlloc.c:29-44 | a request is served if and only if some free region is strictly larger |
| `RegionLists.ExactFitRefused` | mem/memRegionAlloc.c:31-31 | so a request for the size of the largest free region is refused |
| `RegionLists.FreeOneKeeps` | mem/memRegionReclaim.c:28-32 | freeing an allocated region keeps it and frees exactly its pages |
| `RegionLists.ReclaimKeeps` | mem/memRegionReclaim.c:22-36 | reclaiming keeps it, and leaves exactly the regions of other threads, in order |
| `RegionLists.ReclaimFreesAll` | mem/memRegionReclaim.c:22-36 | afterwards the thread owns nothing |
| `RegionLists.BootInv` | mem/memRegionInit.c:43-56 | one free region of all pages satisfies the invariant |
| `RegionLists.RunInv` | mem/memRegionAlloc.c:25-67 | in every state of every run each page is in exactly one region, free or allocated, both lists are sorted, and no two free regions touch |
| `RegionLists.DiscoverAt` | mem/memRegionSplit.c:65-83 | the address of page i finds descriptor i |
| `RegionLists.SplitTakesOwnDescriptor` | mem/memRegionSplit.c:42-51 | the remainder of a split has a descriptor of its own if and only if the request does not round to zero |
| `RegionLists.InitExactly` | mem/memRegionInit.c:31-33 | the size that is managed is whole pages if and only if the start is page aligned; the managed range stays inside the memory given if and only if moving the start up to a page is no longer than the rest of the last page |
| `RegionLinks.ListedSplice` | mem/memRegionInsert.c:47-64 | relinking around one region is replacing a run of regions by it, in both directions of the list |
| `RegionLinks.ListedRemove` | mem/memRegionRemove.c:17-39 | unlinking a region is removal from its list |
| `RegionLinks.MergedIsTwoJoins` | mem/memRegionInsert.c:78-111 | joining with the next region and then with the previous one is the same merge as that of the kernel heap |
| `RegionLinks.CutAndPutBack` | mem/memRegionAlloc.c:46-59 | removing a free region and putting back its rest is taking its low pages |
| `RegionTable.RegionAllocator.Remove` | mem/memRegionRemove.c:17-39 | the region leaves its list and its links are cleared; nothing else changes |
| `RegionTable.RegionAllocator.Insert` | mem/memRegionInsert.c:22-71 | the region is put at its sorted place; on the free list it joins what it touches |
| `RegionTable.RegionAllocator.Coalesce` | mem/memRegionInsert.c:78-111 | joins with the next, then with the previous region, if they touch |
| `RegionTable.RegionAllocator.Split` | mem/memRegionSplit.c:22-57 | cuts a region; the result for too short, exact, longer and zero requests |
| `RegionTable.RegionAllocator.Alloc` | mem/memRegionAlloc.c:20-68 | takes the first strictly larger region; the new lists and owners; for every request that keeps the invariant |
| `RegionTable.RegionAllocator.Reclaim` | mem/memRegionReclaim.c:17-37 | the loop frees every region of the thread |
| `RegionTable.RegionAllocator.constructor` | mem/memRegionInit.c:24-61 | from a page aligned start, one free region of all whole pages |
| `FlashCache.EraseApart` | device/flash/logical.c:181-242 | erase blocks are disjoint or the same |
| `FlashCache.MapsToOne` | device/flash/logical.c:181-242 | a logical block lies in one erase block only |
| `FlashCache.SafeGeometry` | device/flash/physicalIntel.c:99-103 | it is enough for safe writing that the erase blocks which start inside the boot loader end before the first block that may be written |
| `FlashCache.CleanEqualsFlash` | device/flash/physicalIntel.c:58-66 | a clean slot holds what the device holds |
| `FlashCache.FlushKeeps` | device/flash/physicalIntel.c:94-170 | writing a slot back changes neither the disk nor any other slot, and leaves it not dirty |
| `FlashCache.LoadKeeps` | device/flash/physicalIntel.c:26-69 | reading an erase block into the current slot does not change the disk |
| `FlashCache.FetchKeeps` | device/flash/logical.c:45-73 | an access leaves the erase block in memory and the disk unchanged, whether it hit or evicted |
| `FlashCache.StoreKeeps` | device/flash/logical.c:161-167 | storing into a dirty slot is storing to the disk |
| `FlashRuns.ReadRefines` | device/flash/logical.c:29-86 | logicalRead answers the bytes of the flat disk, or SYSERR exactly where there are none |
| `FlashRuns.WriteRefines` | device/flash/logical.c:99-170 | logicalWrite changes exactly the bytes of its block on the flat disk, or is refused |
| `FlashRuns.SyncRefines` | device/flash/flashControl.c:79-86 | after a full sync the device equals the disk |
| `FlashRuns.SyncBlockRefines` | device/flash/flashControl.c:58-77 | after a sync of one block that is answered, the device equals the disk over its erase block |
| `FlashRuns.RunInv` | device/flash/logical.c:29-170 | in every state of every run slots have distinct start positions and the cache with the device holds the disk |
| `FlashRuns.DiskRemembers` | device/flash/logical.c:99-170 | the disk remembers, for every block, the last accepted write |
| `FlashRuns.ReadsLastWrite` | device/flash/logical.c:29-86 | in every run a read answers the bytes last written to its block, or those first on the device |
| `FlashRuns.SyncedFlash` | device/flash/flashControl.c:79-86 | in every run a full sync leaves the whole disk on the device |
| `FlashRuns.RefinesExactly` | device/flash/physicalIntel.c:99-103 | over all runs reads answer the bytes last written and full syncs leave the disk on the device if and only if no block that may be written lies in an erase block that starts inside the boot loader |
| `FlashRuns.WriteReachesDevice` | device/flash/physicalIntel.c:99-103 | whatever the geometry, a write and a sync reach the device if and only if the erase block starts behind the boot loader or there was nothing to change |
| `FlashRanges.ProtectedBytes` | device/flash/logical.c:108-123 | a block is refused exactly when its bytes lie in the boot loader, the kernel or the NVRAM settings, by address; none does so in part |
| `FlashRanges.MapsOnto` | device/flash/logical.c:181-242 | a block has an erase block if and only if its 512 bytes lie on the device |
| `FlashRanges.AcceptsExactly` | device/flash/logical.c:99-130 | by addresses alone, logicalWrite accepts a block if and only if its 512 bytes lie on the device and outside the two ranges |
| `FlashRanges.AnswersExactly` | device/flash/logical.c:29-43 | by addresses alone, logicalRead answers if and only if the 512 bytes lie on the device, with them |
| `FlashRanges.DiskKeeps` | include/flash.h:27-32 | no run of calls changes a byte of the two ranges on the disk |
| `FlashRanges.DeviceKeeps` | include/flash.h:27-32 | in every state of every run from boot, whatever the geometry, the device itself holds what it first held there |
| `FlashDevice.Flash.constructor` | device/flash/flashInit.c:33-36 | eight free slots |
| `FlashDevice.Flash.LogicalMap` | device/flash/logical.c:181-242 | the two loops find the erase block of a block, and fail exactly behind the end of the device |
| `FlashDevice.Flash.Locate` | device/flash/logical.c:45-59 | the search from the oldest slot finds the slot of an erase block if it is in memory |
| `FlashDevice.Flash.PhysicalRead` | device/flash/physicalIntel.c:26-69 | the loop copies the erase block into a fresh buffer of the current slot, which moves on |
| `FlashDevice.Flash.PhysicalWrite` | device/flash/physicalIntel.c:81-174 | erases and programs the device with a dirty slot; answers SYSERR for free slots and the boot loader |
| `FlashDevice.Flash.LogicalRead` | device/flash/logical.c:29-86 | the buffer gets the bytes of the disk; nothing of the disk changes |
| `FlashDevice.Flash.LogicalWrite` | device/flash/logical.c:99-170 | the disk changes by exactly the block, through the shared buffer of the slot; accepted if and only if the 512 bytes lie on the device and outside the kept ranges |
| `FlashDevice.Flash.SyncAll` | device/flash/flashControl.c:79-86 | the device equals the disk, although the answer is always SYSERR |
| `FlashDevice.Flash.SyncLogical` | device/flash/flashControl.c:58-77 | writes back the slot of one block |
| `Crc32.StepsLinear` | device/flash/validateTrx.c:111-119 | eight steps of the shift register are linear in its value |
| `Crc32.StepsAreBits` | device/flash/validateTrx.c:132-132 | the bits of a byte may be added to the register all at once |
| `Crc32.LookupIsBits` | device/flash/validateTrx.c:132-132 | one table lookup is eight bits of polynomial division, for every register and byte |
| `Crc32.PromoteLow` | device/flash/validateTrx.c:132-132 | the sign that char carries upwards does not matter |
| `Crc32.Checksum.Init` | device/flash/validateTrx.c:95-120 | the loops fill the table with eight steps of every byte value; without memory there is no table |
| `Crc32.Checksum.Buf` | device/flash/validateTrx.c:122-136 | the loop equals the bit-at-a-time division of the whole buffer, from all ones and without a final complement; without a table it answers all ones |
| `IspDownload.CopyCovers` | compile/lpc21isp-ipre.c:2378-2399 | the length of a copy command covers its chunk, is at most the largest copy, and is 512, 1024, 4096, 8192 or that |
| `IspDownload.RoomForOne` | compile/lpc21isp-ipre.c:2223-2247 | a copy that starts at a multiple of the largest copy stays in its sector |
| `IspDownload.ContiguousOnce` | compile/lpc21isp-ipre.c:2223-2247 | chunks that follow one another hold every byte exactly once |
| `IspDownload.SendChunk` | compile/lpc21isp-ipre.c:2249-2273 | the transfers of a chunk send exactly as many bytes as the write command announced, and the chunk is in RAM |
| `IspDownload.ProgramChunk` | compile/lpc21isp-ipre.c:2236-2401 | each chunk is copied inside its prepared sector, after all announced bytes arrived |
| `IspDownload.ProgramSector` | compile/lpc21isp-ipre.c:2185-2247 | the chunks of a sector cover its part of the image and are the copy commands sent, in order; other sectors are untouched and not named |
| `IspDownload.ProgramUpper` | compile/lpc21isp-ipre.c:2430-2441 | the sectors from 1 on, up to the end of the image or of the device, without a command for sector 0 |
| `IspDownload.Download` | compile/lpc21isp-ipre.c:2154-2163 | it succeeds if and only if the image fits into the sectors; then the copy commands partition the image and the flash holds it; no command for another sector comes after one for sector 0; an image that does not fit leaves sector 0 without any command and its bytes unchanged |
| `TableRuns.Perform` | system/resched.c:24-73 | every enabled call or interrupt, carried out on the tables, is the step of the run |
| `TableRuns.QueueOf` | include/queue.h:9-15 | following the links of a queue both ways gives its list |
| `TableRuns.ReadyTable` | include/queue.h:9-15 | the ready list, followed through the table, holds exactly the threads whose entry says ready |
| `TableRuns.SleepTable` | system/sleep.c:27-40 | the sleep queue holds exactly those whose entry says asleep or in recvtime |
| `TableRuns.SemTable` | include/semaphore.h:26-31 | the queue of a semaphore holds exactly its waiters, and a negative count says how many |
| `TableRuns.MessageTable` | system/send.c:29-46 | the messages accepted for a thread in the run are those it was answered, in order, and the one in its entry |
| `TableRuns.Execute` | system/initialize.c:189-230 | any run from boot, call by call on the tables: they end as the run does, with all of the above; clktime and clkticks are the ticks of the run in seconds and rest |

## Left out

- The context switch, interrupt masks and `resdefer`: steps run with interrupts
  disabled and `resdefer` zero; a switch is an assignment to the current thread.
- `thrcount`, `xdone`, and the stack and region release inside `kill`.
- `create` beyond the step from a free to a suspended thread: stack building, the
  search for a free thread entry and the argument checks.
- 32-bit overflow of semaphore counts, delta keys, `clktime` and priorities.
- Runs with an `unsleep` called by a program that finds a sleeper; `UnsleepExactly`
  shows what it breaks.
- `getlast`, and the queue macros besides those the modelled calls use.
- Runs with a thread of the least integer as priority, which `insert` cannot queue.
- KernelTables.Kernel.Insert: needs a key above the least integer; `ScanStops` shows that it must.
- KernelTables.Kernel.QueInit: must not be called with fewer than two entries left unless none of the last pair is; `RoomTest` shows when its own test is wrong.
- KernelTables.Kernel.Wait: must not block the null thread, as the other calls that may block; `NullBlocks` shows that it must not.
- KernelTables.Kernel.Kill: does not model `thrcount`, `xdone` and the release of the victim's stack and regions.
- KernelTables.Kernel.KillReturn: does not model the release of the victim's stack and regions.
- Heap runs that free what a wrapped request was given; no bytes were.
- HeapMemory.Memory.MemFree: asks for a range whose end is an address below 2^32 and whose size does not round to zero; beyond that the tests of the code wrap around.
- HeapMemory.Memory.StkFree: the same.
- Mailboxes: freeing a mailbox while it is used, killing a thread inside a mailbox
  call, and the table of mailboxes with its lock.
- Buffer pools: `bfpfree`, the table of pools, and a failing `memget` in `bfpalloc`,
  which the code does not test.
- RegionTable.RegionAllocator.Alloc: requires a request that does not round to zero, unless nothing is free; `AllocCallExactly` shows that it must.
- RegionLists.AllocCall: for a request that rounds to zero, gives the lengths on the two lists but not the links of the one descriptor that is then on both.
- RegionTable.RegionAllocator.constructor: takes a page aligned start and a managed range inside one 512 MB segment, where the address mask of the page lookup changes nothing.
- The unmapping of reclaimed pages, `memRegionTransfer` and `memRegionValid`.
- `flashControl` besides the two forms of FLASH_SYNC that are modelled: its case FLASH_BLOCK is
  `physicalWrite` of the block given.
- Flash: status polling, lock bits, the AMD command set and failing commands; the
  region sizes are taken to be the block size times the number of blocks, and
  block sizes to be multiples of 512; the buffer of an evicted block is not freed,
  in the code as in the model; `nvram` and the device lock.
- FlashDevice.Flash.constructor: requires that no block that may be written lies in an erase block that starts inside the boot loader; `RefinesExactly` shows that it must.
- IspDownload.Download: is the flash mode without wiping, for sector sizes that are multiples of the largest copy, with an image buffer that may be read up to the end of the last transfer; serial lines, line checksums and the compare commands are not modelled.
- The header tests of `validateTrx`.
- File systems, network, shell, user threads' page tables and device drivers other
  than the flash cache.
