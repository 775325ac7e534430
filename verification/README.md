# The NeMOS kernel: stateful algorithms and what they keep

A Dafny model of the kernel part of the repository: the dynamic heap, the timing wheel and the software timers, the blocking
protocols (semaphore, mutex, event, queue, mail), fixed-block pools, the rounding square root and the table-driven CRC-16.
`dafny verify dfyconfig.toml` checks everything.

## How the kernel is modelled

* **Memory.** The heap and the block pools work on a map from 4-aligned byte addresses to 32-bit words, and every C store is one
  map update. A node header is four words; a pool starts with two words and 27 list heads, as in `los_memory.inc` and
  `los_multipledlinkhead.inc`. Beside the words, a ghost sequence holds the chain of nodes and another one the free lists, and the
  invariant says that the words mean exactly these.
* **Locked sections.** What stands between `LOS_IntLock` and `LOS_IntRestore` is one atomic step. A blocking call is two steps,
  one that ends at `LOS_Schedule` with the caller waiting and one that begins when it runs again. `LOS_Schedule` is a step of its
  own. Ticks, interrupts (`isr`) and steps of other tasks come between in any order and number.
* **Tasks.** A control block holds the status bits, the priority and the call in progress. `TaskSystem` owns the lists to which
  `stPendList` can be linked (ready queues and wait lists) and the timing wheel. Ghost fields record who has been handed something
  and has not resumed, how each call has been resolved, and when it began.
* **Books.** Beside the C state stand ledgers that are counted on their own: posts and pends of each semaphore, granted pends and
  posts of each task on each mutex, messages written and values read of each queue, the order in which a task got its mutexes, and
  its own priority. `Ledger.Follows` says what each step adds to them, how each call in progress moves on, and who leaves and joins
  the ready lists; `Ledger.Answer` says what each call hands back; `Soundness.Sound` says how the books agree with the C state; and
  `Runs`, `ReadyRuns` and `EventRuns` say what follows for whole runs, in terms of steps and of what the calls returned.
* **Bit fields.** `UWROLLNUM` and `UWSORTINDEX` are the low 27 and high 5 bits of `uwIdxRollNum` (`los_task.inc`). The wheel keeps
  them as two maps; `Wheel.StoredFields` and its neighbours, with `RollsFit`, show that the packed word behaves the same.
* **Configuration.** Used-node checking is the walk of `LOS_DLNK_SAFE_CHECK`; fixed-block pools are built with `LOS_MEMBOX_CHECK`.
  Free lists of control blocks, clocks, caller memory and interrupt context are parameters.
* **Assumptions.** Pools are 4-aligned, request sizes do not wrap when rounded up, timer creation is atomic, no event with waiters
  is initialised again, `LOS_Schedule` runs the task that `LOS_PriqueueTop` names unless scheduling is locked, and nobody locks
  scheduling between a pend and its `LOS_Schedule`.

Files follow the modules of the repository: `MultiHead`, `HeapState` (pure facts about chains, lists and words), `Heap` (the
operations), `HeapRuns`; `Membox`, `Mail`; `DeltaList`, `Wheel`, `SwTimer`, `SwTimerRuns`; `Tasks` (the task invariant), `Steps` (what a
step may do to tasks that it is not about), `TaskSystem`, `Semaphore`, `Mutex`, `Event`, `Queue`; `Ledger` (what each step does, by the
books), `Soundness` (what holds throughout), `Runs`, `ReadyRuns`, `EventRuns` (theorems about runs), `Kernel` (all modules interleaved);
`Sqrt`; `Crc`; `Errno`.

## Where the code differs from its own comments, or from what one expects

* `osMemFindSuitableFreeBlock` says best fit and does first fit, from the list of the size upwards (`Heap.MemPool.FindSuitableFreeBlock`).
* A node of 2^30 bytes or more cannot be freed through its plain pointer, because its size word reads as a gap word
  (`Heap.MemPool.UsedPointerOwned`, an equivalence). If a used node stands at the address that comes out instead, that node is freed
  (`Heap.MemPool.PlainPointerFrees`, for all sizes); for 3 * 2^29 bytes it is the next node (`Heap.MemPool.OversizedFreesNext`).
* A mutex released out of order can leave a task lifted that holds nothing (`Mutex.OutOfOrderStaysLifted`, an instance). Exactly when:
  if the mutex that it gave up last had saved another priority than its own (`Runs.FreeTaskPriority`, over runs
  `Runs.FreeTasksAtOwn`, both equivalences). It is never left less urgent than its own, in whatever order mutexes are released
  (`Runs.NeverBelowOwn`), unless its priority is set above one that a mutex has saved (`Mutex.SetKeepsBound`, an equivalence;
  `Mutex.SetAboveSaved`, an instance).
* The 65536th nested pend makes a held mutex free (`Mutex.NestedPendFits`, an equivalence; `Mutex.NestedTooOften`, an instance).
* `osQueueMailAlloc` does not ask whether scheduling is locked; under the lock its caller returns and stays a waiter, exactly if it has
  to wait (`Mail.LockedWaitStrands`, an equivalence; `Mail.StrandedOnce`, an instance).
* `osQueueMailFree` accepts a block that has been handed to a task which has not run yet; then two owners share it (`Mail.HandedOn`,
  an equivalence; `Mail.SharedOnce`, an instance).
* With more than 32767 software timers the identifier of a timer that has fired is not retired (`SwTimer.FiredIdIsStale`, an equivalence).

## Model

| member | source | states |
|---|---|---|
| MultiHead.Log2IsFloorLog2 | kernel/base/mem/los_multipledlinkhead.c:16-52 | The decision tree is the floor of the binary logarithm on all of 1..2^31-1, and answers "no bit" exactly from 2^31 on |
| MultiHead.HeadMonotone | kernel/base/mem/los_multipledlinkhead.c:66-82 | A larger size is never filed in a lower list, and every size below 2^31 has a list |
| HeapState.ListAddRings | kernel/include/los_list.h:129-135 | The four stores of an insertion behind a head turn the circular doubly linked lists in memory into the lists with one more entry, all other lists as they were |
| HeapState.ListDeleteRings | kernel/include/los_list.h:183-189 | The stores of an unlinking remove exactly that entry and leave all other lists as they were |
| HeapState.SearchComplete | kernel/base/mem/los_memory.c:46-63 | If no list from the one of the size upwards holds a large enough node, there is no such free node at all |
| HeapState.AllocKeepsIndex | kernel/base/mem/los_memory.c:360-382 | After an allocation, cut or not, the lists hold exactly the free nodes, each in the list of its size, and no two neighbours are free |
| HeapState.FreeKeepsIndex | kernel/base/mem/los_memory.c:144-191 | After a free that joins either neighbour, both or none, the lists hold exactly the free nodes, each in the list of its new size, and no two neighbours are free |
| HeapState.MergesCoalesce | kernel/base/mem/los_memory.c:144-191 | The merges that the branches perform amount to one node in place of the freed one and its free neighbours |
| HeapState.ResizeKeepsIndex | kernel/base/mem/los_memory.c:394-428 | The same for shrinking and for growing into the next node |
| HeapState.AllocOthers | kernel/base/mem/los_memory.c:360-382 | An allocation touches no payload in use |
| HeapState.FreeOthers | kernel/base/mem/los_memory.c:576-609 | A free touches no other payload in use |
| HeapState.ResizeOthers | kernel/base/mem/los_memory.c:394-428 | Resizing in place touches no other payload in use |
| HeapState.CopiedPrefix | kernel/base/mem/los_memory.c:672-683 | The words of the old node that fit are found in the new one after copying and after the old one has been freed |
| HeapState.PayloadsDisjoint | kernel/base/mem/los_memory.c:86-134 | An address lies in the payload of at most one node, inside the pool |
| HeapState.BytesConserved | kernel/base/mem/los_memory.c:438-479 | Used and free nodes together always have the size of the pool behind its heads: no byte is lost |
| HeapState.AllocThenFree | kernel/base/mem/los_memory.c:360-382 | Freeing what has just been allocated restores the chain, whether or not the node was cut |
| HeapState.PlainRecovery | kernel/base/mem/los_memory.c:586-596 | From a pointer straight behind a used header the header is recovered if and only if the node is smaller than 2^30 bytes; which address is recovered otherwise |
| HeapState.GapRecovery | kernel/base/mem/los_memory.c:555-562 | From a pointer behind a gap word the header is always recovered |
| Heap.MemPool.ListAdd | kernel/include/los_list.h:129-135 | Enters a node at the head of one free list of the pool, in memory |
| Heap.MemPool.ListDelete | kernel/include/los_list.h:183-189 | Takes a node off its free list, in memory |
| Heap.MemPool.MergeNode | kernel/base/mem/los_memory.c:86-91 | The previous node absorbs this one: the words mean the chain with one node less |
| Heap.MemPool.SplitNode | kernel/base/mem/los_memory.c:106-134 | Cuts a node and files the rest, joined with a free successor |
| Heap.MemPool.FreeNode | kernel/base/mem/los_memory.c:144-191 | The words afterwards mean the coalesced chain and the lists that go with it; only headers and heads change |
| Heap.MemPool.FindSuitableFreeBlock | kernel/base/mem/los_memory.c:46-63 | Returns the first fit counting from the list of the size upwards; NULL only if no free node is large enough |
| Heap.MemPool.MemInit | kernel/base/mem/los_memory.c:438-479 | Succeeds exactly for a pool that is there, large enough, and not too large for a list; then the two words of pool information hold its address and size, and one free node covers the rest |
| Heap.MemPool.AllocWithCheck | kernel/base/mem/los_memory.c:360-382 | Allocates at the first fit, or says that there is none and changes nothing |
| Heap.MemPool.MemAlloc | kernel/base/mem/los_memory.c:489-511 | NULL only for size 0, a size with the top bit, or no fit, and then nothing changes; otherwise a first-fit node with room for the bytes and not for another node more, all payloads in use untouched, invariant kept, pool information included |
| Heap.MemPool.MemAllocAlign | kernel/base/mem/los_memory.c:522-565 | For a power-of-two boundary the result is a multiple of it, its bytes and gap word lie in the payload of the first fit, and that node's header is recovered from it |
| Heap.MemPool.CheckUsedNode | kernel/base/mem/los_memory.c:202-222 | The walk accepts an address if and only if it is that of a used node of the chain before the sentinel |
| Heap.MemPool.MemFree | kernel/base/mem/los_memory.c:576-609 | Succeeds if and only if a used node of the chain is recovered from the pointer; frees exactly that node; on failure nothing changes |
| Heap.MemPool.UsedPointerOwned | kernel/base/mem/los_memory.c:576-609 | When a plain pointer to a live node is accepted, for all sizes: exactly below 2^30 bytes |
| Heap.MemPool.PlainPointerFrees | kernel/base/mem/los_memory.c:576-609 | Which node a plain pointer frees, for all sizes: its own below 2^30 bytes, from there on any used node at another address that depends on the size |
| Heap.MemPool.OversizedFreesNext | kernel/base/mem/los_memory.c:576-609 | The plain pointer to a node of 3 * 2^29 bytes frees the used node behind it |
| Heap.MemPool.ReAllocSmaller | kernel/base/mem/los_memory.c:394-403 | Shrinks in place, the rest going to the free lists if it is worth a node |
| Heap.MemPool.MergeNodeForReAllocBigger | kernel/base/mem/los_memory.c:416-428 | Grows in place into the free node behind |
| Heap.MemPool.MemRealloc | kernel/base/mem/los_memory.c:620-691 | In place when node and free successor suffice, else moved to the first fit; the words that fit are kept on all paths, all other payloads untouched, and a failed call changes nothing |
| HeapRuns.Perform | kernel/base/mem/los_memory.c:438-691 | Any request does exactly what its answer says (an allocation, plain or aligned, at the first fit, or nothing fits; the free of the node recovered from the pointer; a reallocation in place or by a move to the first fit; a store), keeps the chain and the exact index of free nodes, and every live node that it is not aimed at |
| HeapRuns.Run | kernel/base/mem/los_memory.c:438-691 | Over every sequence of allocations, frees, reallocations and payload stores the nodes tile the pool, the lists hold exactly the free nodes by size, and no two neighbours are free in any state passed through; each request has its effect |
| HeapRuns.KeptThroughRun | kernel/base/mem/los_memory.c:438-691 | A live node that no request of a run is aimed at is still there at the end, unmoved, payload unchanged |
| HeapRuns.AllocatedStays | kernel/base/mem/los_memory.c:438-691 | A block that an allocation, an aligned allocation or a reallocation of a run returned is still there at its end, as large as asked for, with its payload, unless a later request was aimed at it |
| Membox.OnBlockMeaning | kernel/base/mem/los_membox.c:29-50 | The 32-bit offset test passes exactly for the addresses of blocks |
| Membox.MagicMeansAllocated | kernel/base/mem/los_membox.c:19-24 | As long as users leave it alone, the magic word stands exactly in allocated blocks; no link can equal it |
| Membox.BlocksConserved | kernel/base/mem/los_membox.c:101-157 | Free and allocated blocks are together always `uwBlkNum` |
| Membox.Pool.MemboxInit | kernel/base/mem/los_membox.c:52-99 | Fails exactly for no pool, block size 0, or no room for a block; otherwise as many blocks as the pool has room for, each with room for its magic word and its bytes and less than a word more, all free, in address order, on an acyclic list |
| Membox.UserBytesApart | kernel/base/mem/los_membox.c:75-76 | The bytes behind the magic word of a block lie in the pool, belong to no other block, and are neither in the first word of any block nor in the header with the list head |
| Membox.UserStoreKeeps | kernel/base/mem/los_membox.c:75-93 | Whatever the user of a block stores into its bytes, free list, magic words and geometry stay in order |
| Membox.Pool.MemboxAlloc | kernel/base/mem/los_membox.c:101-125 | NULL exactly if no block is free; otherwise the head of the list, which is then marked allocated |
| Membox.Pool.MemboxFree | kernel/base/mem/los_membox.c:127-157 | Succeeds if and only if the address is that of an allocated block, so a second free of it is refused |
| Mail.HandOver | kernel/base/ipc/los_queue.c:551-567 | A block freed and allocated again at once leaves the pool word for word as it was |
| Mail.HandedOn | kernel/base/ipc/los_queue.c:551-567 | Handing a freed block to the first waiter keeps the mail invariant if and only if it had not been promised to a woken task before |
| Mail.SharedOnce | kernel/base/ipc/los_queue.c:551-567 | It happens: two waiters for one block, the first woken and not yet run when the block is freed again |
| Mail.LockedWaitStrands | kernel/base/ipc/los_queue.c:459-519 | The whole call leaves the tasks in order if and only if scheduling is not locked, or a block is free, or the timeout is 0, or it is made in an interrupt; otherwise the caller stays on the wait list, a timed one with its timer running |
| Mail.StrandedOnce | kernel/base/ipc/los_queue.c:485-503 | It happens: one task, scheduling locked, no block free, 10 ticks |
| Mail.Mails.MailKept | kernel/base/ipc/los_queue.c:459-576 | Steps of other modules, and the tick, keep the mail invariant: nobody waits while a block is free, and exactly the woken waiters have been promised a block, each its own |
| Mail.Mails.MailAlloc | kernel/base/ipc/los_queue.c:459-519 | NULL for a queue number out of range or no pool; the head of the pool if there is one; otherwise NULL at once, or a timed wait in order of priority; under the lock the call runs on, and exactly then the invariant breaks |
| Mail.Mails.MailFree | kernel/base/ipc/los_queue.c:530-576 | The two argument errors in order; refused if the block is not allocated; with a waiter the very block freed goes to the first one, which is ready then at the end of its ready list unless suspended, and the pool is unchanged; in order afterwards if and only if the block was not promised to a woken task |
| Mail.Mails.MailAllocResume | kernel/base/ipc/los_queue.c:500-519 | NULL exactly if the wait timed out; otherwise an allocated block that is promised to nobody else |
| DeltaList.InsertedList | kernel/base/core/los_task.c:109-128 | Splitting a difference at the place of a newcomer gives it its own absolute count and changes nobody else's |
| DeltaList.RemovedList | kernel/base/core/los_task.c:137-148 | Passing a leaver's difference on to the one behind changes nobody else's absolute count |
| Wheel.StoredFields | kernel/base/core/los_task.inc:47-61 | Storing a roll count or a slot index in the packed word leaves the other field alone |
| Wheel.SubtractedField | kernel/base/core/los_task.inc:53-54 | Subtracting roll counts in the packed word is subtraction of the fields as long as it does not go below zero |
| Wheel.AddedField | kernel/base/core/los_task.inc:56-57 | Adding roll counts in the packed word is addition of the fields as long as 27 bits hold the sum |
| Wheel.DecrementedField | kernel/base/core/los_task.inc:63-64 | Decrementing a positive roll count leaves the slot index alone |
| Wheel.DueOnTime | kernel/base/core/los_task.c:151-210 | In every run of additions, deletions and ticks a timer with n ticks to go has n minus the ticks seen, and is due at exactly its n-th tick |
| Wheel.AddRefines | kernel/base/core/los_task.c:91-130 | A new entry makes the wheel stand for the plain map with one more timer; no other timer's remaining ticks change |
| Wheel.DeleteRefines | kernel/base/core/los_task.c:133-149 | A deletion makes the wheel stand for the plain map without that timer |
| Wheel.ScanRefines | kernel/base/core/los_task.c:151-210 | Advancing the cursor and taking off the leading zeros lowers every timer by one and takes off exactly those that were due |
| Wheel.TimerWheel.Add | kernel/base/core/los_task.c:91-130 | For every timeout from 1 to 2^32-1 the plain map gains exactly that entry |
| Wheel.TimerWheel.Delete | kernel/base/core/los_task.c:133-149 | The plain map loses exactly that entry |
| Wheel.TimerWheel.Scan | kernel/base/core/los_task.c:151-210 | One tick of the plain map; exactly the due tasks are returned, each once, in the order in which they were entered |
| Wheel.TimerWheel.Run | kernel/base/core/los_task.c:91-210 | Any run of the wheel is the run of the plain map |
| Wheel.TimerWheel.RollsFit | kernel/base/core/los_task.c:91-210 | No stored roll count, and no sum of them, leaves its 27 bits |
| SwTimer.NextIdFits | kernel/base/core/los_swtmr.c:253-262 | The next identifier stays below the maximum and still leads back to its control block |
| SwTimer.FiredIdIsStale | kernel/base/core/los_swtmr.c:253-262 | A one-shot timer that has fired gets another identifier if and only if there are at most 32767 timers |
| SwTimer.FiresOnTime | kernel/base/core/los_swtmr.c:231-288 | In every run that leaves it alone a timer fires at exactly its n-th tick, not before, whatever happens to the others |
| SwTimer.NoDrift | kernel/base/core/los_swtmr.c:231-269 | Over any run, ticks elapsed plus ticks to go of a periodic timer are its first expiry plus a whole interval for each firing |
| SwTimer.ScansTogether | kernel/base/core/los_swtmr.c:314-327 | Lowering by several ticks at once is that many single scans, when nobody is due before |
| SwTimer.SwTimers.StartTimer | kernel/base/core/los_swtmr.c:161-207 | The started timer gets its own remaining time, no other timer's changes, and the list stays sorted by it |
| SwTimer.SwTimers.StopTimer | kernel/base/core/los_swtmr.c:336-366 | The stopped timer leaves, no other timer's remaining time changes |
| SwTimer.SwTimers.DeleteTimer | kernel/base/core/los_swtmr.c:216-222 | The block goes to the head of the free list |
| SwTimer.SwTimers.TimeoutHandle | kernel/base/core/los_swtmr.c:231-269 | The expiry loop ends although periodic timers re-insert themselves; afterwards exactly the timers with no time left have fired |
| SwTimer.SwTimers.CountsFit | kernel/base/core/los_swtmr.c:161-207 | No stored count wraps, and between ticks the head has at least one tick left |
| SwTimer.SwTimers.Scan | kernel/base/core/los_swtmr.c:278-288 | One tick of the plain map of remaining times, with firing and re-arming |
| SwTimer.SwTimers.Adjust | kernel/base/core/los_swtmr.c:314-327 | On a non-empty list the same as min(k, head) scans |
| SwTimer.SwTimers.SwtmrCreate | kernel/base/core/los_swtmr.c:378-429 | Every error case in order; otherwise the block at the head of the free list, with the mode and interval asked for, not started, under a current identifier that leads back to it; all other blocks as they were; "no more timers" only if all blocks are in use |
| SwTimer.SwTimers.SwtmrStart | kernel/base/core/los_swtmr.c:438-477 | Refuses stale and deleted timers unchanged; otherwise start, or stop and start, of the plain map |
| SwTimer.SwTimers.SwtmrStop | kernel/base/core/los_swtmr.c:486-526 | Refuses stale, deleted and idle timers unchanged; otherwise the stop of the plain map |
| SwTimer.SwTimers.SwtmrDelete | kernel/base/core/los_swtmr.c:535-574 | Refuses stale and deleted timers unchanged; otherwise the timer is gone and its block free |
| SwTimerRuns.Run | kernel/base/core/los_swtmr.c:231-574 | Every sequence of interface calls, scans and adjustments is a run of the plain map of remaining times, each call being exactly the events that it amounts to; a creation hands back the identifier of its block |
| SwTimerRuns.OnTime | kernel/base/core/los_swtmr.c:231-574 | Whatever calls are made on other timers, a ticking timer has lost exactly the ticks that passed, and fires at its n-th |
| SwTimerRuns.KeepsTime | kernel/base/core/los_swtmr.c:231-574 | Whatever calls are made on other timers, and however the time is passed, ticks elapsed plus ticks to go of a periodic timer are its first expiry plus a whole interval for each firing |
| SwTimerRuns.FiresAsAsked | kernel/base/core/los_swtmr.c:378-477 | From the arguments of the calls: a timer created with interval n and started later fires at no tick before the n-th after its start; in mode 0 at that one and never again, in mode 1 at every n-th, whatever calls are made on other timers |
| SwTimerRuns.StartCountsAfresh | kernel/base/core/los_swtmr.c:438-477 | Starting a timer that is created, stopped or already ticking makes it count its whole interval again |
| SwTimerRuns.StoppedIsSilent | kernel/base/core/los_swtmr.c:486-574 | A timer that has been stopped or deleted does not fire unless it is started again |
| SwTimerRuns.SettingsStay | kernel/base/core/los_swtmr.c:231-574 | However it is stopped and started, a timer in use keeps the identifier, mode and interval that it was created with |
| Tasks.ShiftWF | kernel/base/core/los_task.c:174-201 | Moving one task to the list that its new bits say keeps all of the task invariant: at most one list per task, timers exactly for timed waits, one outcome per call, first come first served |
| Tasks.PendedWF | kernel/base/ipc/los_sem.c:191-206 | The pend part of every blocking call keeps the task invariant |
| Tasks.WokenWF | kernel/base/ipc/los_sem.c:262-276 | The waker's part of every hand-over keeps the task invariant; nothing blocks the task any more but a suspension, and it is ready exactly if it is not suspended |
| Tasks.ExpiredWF | kernel/base/core/los_task.c:174-201 | The expiry of one task, waiting or delayed, keeps the task invariant; it is ready then exactly if it is not suspended |
| Tasks.FinishedWF | kernel/base/ipc/los_sem.c:208-214 | The end of a blocking call keeps the task invariant |
| Tasks.OneOutcome | kernel/base/core/los_task.c:174-201 | A call in progress is unresolved exactly while its task is on the wait list, granted exactly while woken and not resumed, timed out exactly if the tick left the bit: never two of these |
| Tasks.HeadCameFirst | kernel/base/ipc/los_sem.c:198-206 | The head of a semaphore, mutex or event list has waited longest |
| Tasks.InsertedByPriority | kernel/base/ipc/los_queue.c:113-145 | While no waiter's priority changes, queue waiters stand in order of priority, newcomers last among equals |
| Steps.PendedLined | kernel/base/ipc/los_sem.c:191-198 | A caller that begins to wait leaves its ready list; nobody else changes place |
| Steps.WokenLined | kernel/base/ipc/los_sem.c:272-276 | Every ready list after a hand-over is the one before it, with the receiver at the end of the list of its priority unless it is suspended |
| Steps.ReplacedLined | kernel/base/core/los_task.c:67-81 | A task that is moved stands at the end of the ready list of its priority, if it is ready; all others keep their order |
| Steps.LinedThen | kernel/base/core/los_priqueue.c:35-43 | Two steps in a row: who has left by either, and who has joined by either and not left again, in the order of joining |
| Steps.WakeCalm | kernel/base/ipc/los_sem.c:262-276 | A hand-over stops the timer of its receiver alone, leaves everybody's suspension, call and timer as they were, and makes the receiver ready exactly if it is not suspended |
| TaskSystem.TaskSystem.PriqueueTop | kernel/base/core/los_priqueue.c:45-58 | The first task of the most urgent non-empty level; nothing only if nobody is ready |
| TaskSystem.TaskSystem.Schedule | kernel/base/core/los_task.c:572-585 | What follows when `LOS_Schedule` runs the task of `LOS_PriqueueTop`: unless scheduling is locked, the first of the most urgent ready tasks runs; no list changes |
| TaskSystem.TaskSystem.QueuePend | kernel/base/ipc/los_queue.c:113-145 | The caller waits in front of the first less urgent waiter, timed unless it waits forever |
| TaskSystem.TaskSystem.PriModify | kernel/base/core/los_task.c:67-81 | A ready task moves to the tail of its new level, all other tasks of every level keep their order; any other task keeps its place |
| TaskSystem.TaskSystem.TaskCreate | kernel/base/core/los_task.c:557-592 | A new ready task stands last at its priority |
| TaskSystem.TaskSystem.TaskDelay | kernel/base/core/los_task.c:821-851 | Refused in interrupts and under the lock; with 0 ticks a yield; otherwise out of the ready queue with that many ticks to go, as little suspended as before |
| TaskSystem.TaskSystem.TaskYield | kernel/base/core/los_task.c:972-998 | Refused for a task number out of range; otherwise, if it is not alone there, its level ends with it, and the others of its level keep their order, as does every other level |
| TaskSystem.TaskSystem.TaskSuspend | kernel/base/core/los_task.c:657-720 | Every error case in order; otherwise suspended and not ready, with waits and timers left as they are, and nobody else suspended or moved |
| TaskSystem.TaskSystem.TaskResume | kernel/base/core/los_task.c:601-648 | Every error case in order; otherwise no longer suspended, and ready again, at the end of its level, only if nothing else blocks the task |
| TaskSystem.TaskSystem.TaskPriSet | kernel/base/core/los_task.c:894-948 | Every error case in order; otherwise the new priority, and for a ready task the end of its new level, the others keeping their order |
| TaskSystem.TaskSystem.Finish | kernel/base/ipc/los_sem.c:208-214 | A resumed call reports what happened: timed out exactly if the tick resolved it, granted exactly if a waker did |
| TaskSystem.TaskSystem.TaskScan | kernel/base/core/los_task.c:151-210 | Exactly the tasks whose last tick this is expire, and, unless suspended, join the tails of the ready lists in the order in which their timers were started; all others are one tick nearer, and no wait list gains anybody |
| Semaphore.SemsKept | kernel/base/ipc/los_sem.c:148-288 | Steps of other modules and ticks keep every semaphore's books: initial count plus posts = count + taken + handed over and not yet resumed, and no waiter beside a positive count |
| Semaphore.Semaphores.SemCreate | kernel/base/ipc/los_sem.c:72-105 | Every error case in order; otherwise a fresh semaphore with that count |
| Semaphore.Semaphores.SemDelete | kernel/base/ipc/los_sem.c:114-138 | Refused while anybody waits |
| Semaphore.Semaphores.SemPend | kernel/base/ipc/los_sem.c:148-206 | Every error case in order; takes from a positive count, otherwise waits last in line, with the timer that it asked for |
| Semaphore.Semaphores.SemPendResume | kernel/base/ipc/los_sem.c:206-226 | OK exactly if a post resolved the wait, timeout exactly if the tick did |
| Semaphore.Semaphores.SemPost | kernel/base/ipc/los_sem.c:235-288 | With waiters the one that came first is granted and the count stays; it is ready then, at the end of its ready list, unless it is suspended; without waiters, the count goes up; overflow is refused |
| Mutex.NestedPendFits | kernel/base/ipc/los_mux.c:174-179 | A nested pend keeps the mutex in order if and only if it is not the 65536th |
| Mutex.NestedTooOften | kernel/base/ipc/los_mux.c:174-179 | It happens: after 65535 pends one more leaves the count at 0 with 65536 posts owed |
| Mutex.NeverLessUrgent | kernel/base/ipc/los_mux.c:194-197 | On a ladder of saved priorities a task is never less urgent than its own, and exactly at its own when it holds nothing |
| Mutex.ReleaseKeepsLadder | kernel/base/ipc/los_mux.c:281-285 | Releasing the i-th held mutex keeps the ladder, not only the priority bound, if and only if it has saved the same priority as the last one |
| Mutex.OutOfOrderStaysLifted | kernel/base/ipc/los_mux.c:281-285 | An out-of-order release after which a task that holds nothing stays lifted |
| Mutex.LifoKeepsLadders | kernel/base/ipc/los_mux.c:281-285 | Giving up the mutex that was got last keeps the ladder of every task |
| Mutex.MuxesKept | kernel/base/ipc/los_mux.c:144-317 | Steps of other modules and ticks keep every mutex in order: at most one owner, count = its unmatched pends by a ledger counted apart, no waiters on a free mutex |
| Mutex.SetKeepsBound | kernel/base/core/los_task.c:67-81 | The bound "no task and no saved priority is less urgent than its owner's own" survives an explicit priority if and only if no mutex of the task has saved a less urgent one |
| Mutex.SetAboveSaved | kernel/base/core/los_task.c:67-81 | It happens: priority 5 set on a task whose mutex has saved 10; giving up the mutex leaves it at 10 |
| Mutex.Mutexes.NeverBelowOwn | kernel/base/ipc/los_mux.c:144-317 | In whatever order mutexes have been released, no task is less urgent than its own priority |
| Mutex.Mutexes.PriorityDiscipline | kernel/base/ipc/los_mux.c:144-317 | In every state reached by orderly releases no task is less urgent than its own priority, and one that holds nothing is exactly at it |
| Mutex.Mutexes.MuxCreate | kernel/base/ipc/los_mux.c:70-99 | Every error case in order; otherwise a free mutex, all others and all priorities as they were |
| Mutex.Mutexes.MuxDelete | kernel/base/ipc/los_mux.c:108-134 | Refused while held or waited for |
| Mutex.Mutexes.MuxPend | kernel/base/ipc/los_mux.c:144-215 | Every error case in order; a free mutex is taken, an own one nested; for another's the owner ends up at least as urgent as the caller and as it was, and at one of the two priorities, and the caller waits last, with its timer; the ledger goes up by one for each pend granted; in order afterwards if and only if it was not the 65536th of one owner |
| Mutex.Mutexes.MuxPendResume | kernel/base/ipc/los_mux.c:217-236 | OK exactly if the mutex was handed over, and then the caller owns it; timeout exactly if the tick resolved the wait |
| Mutex.Mutexes.MuxPost | kernel/base/ipc/los_mux.c:246-317 | Only the owner may; the ledger goes down by one; the last post restores the saved priority and hands the mutex, with one granted pend, to the waiter that came first, which is ready then unless it is suspended |
| Event.PollMeaning | kernel/base/ipc/los_event.c:34-62 | A poll finds something exactly if the condition is met, and what it finds lies in the mask and is no error code |
| Event.PollFinds | kernel/base/ipc/los_event.c:38-53 | Bit by bit: in OR mode a poll finds exactly the bits that are in the mask and in the word, in AND mode the whole mask or nothing |
| Event.PollTakes | kernel/base/ipc/los_event.c:55-58 | With CLR exactly the bits found are taken out of the word and all others stay; without it, or with nothing found, the word stays |
| Event.KeptBits | kernel/base/ipc/los_event.c:233-246 | Bit by bit, a clear keeps what is both in the word and in its argument |
| Event.NewBitsSuffice | kernel/base/ipc/los_event.c:184-187 | For a waiter whose condition was not met before, testing the new bits (OR) or the whole word (AND) decides whether it is met now |
| Event.FewerBits | kernel/base/ipc/los_event.c:233-246 | Clearing bits satisfies nobody, so no wake-up is needed |
| Event.NeverBoth | kernel/base/ipc/los_event.c:64-153 | No part of a legal mask can be mistaken for an error code |
| Event.EventsKept | kernel/base/ipc/los_event.c:64-219 | Steps of other modules and ticks keep it so that no waiter's condition is met by the present bits: no wake-up is lost |
| Event.Events.EventPoll | kernel/base/ipc/los_event.c:34-62 | Finds exactly the bits asked for that are there; takes exactly these with CLR and nothing otherwise, and never satisfies a waiter by it |
| Event.Events.EventRead | kernel/base/ipc/los_event.c:64-125 | Every error case in order and recognisable; bits that are there are returned at once, and with CLR exactly these are taken; otherwise the word stays and the caller waits last in line with its condition and its timer |
| Event.Events.EventReadResume | kernel/base/ipc/los_event.c:126-152 | Timeout exactly if the tick resolved the wait; otherwise what a second poll finds, which may be nothing, and with CLR exactly that is taken |
| Event.Events.EventWrite | kernel/base/ipc/los_event.c:155-219 | Adds exactly the bits given and wakes exactly the waiters whose condition is now met; these join the ready lists in the order in which they waited, unless suspended |
| Event.Events.EventClear | kernel/base/ipc/los_event.c:233-246 | Refused for a missing control block; keeps exactly the bits that are in the word and in the argument |
| Queue.TakeRing | kernel/base/ipc/los_queue.c:313-318 | Reading at the head gives the oldest unread message and leaves the ring in step with the history |
| Queue.PutRing | kernel/base/ipc/los_queue.c:426-432 | Writing at the tail appends to the history and overwrites nothing unread |
| Queue.DeleteTest | kernel/base/ipc/los_queue.c:615-618 | The count test of the deletion passes if and only if no woken reader and no woken writer is in flight |
| Queue.QueuesKept | kernel/base/ipc/los_queue.c:240-448 | Steps of other modules and ticks keep every queue: full slots = readable count + woken readers, empty slots = writable count + woken writers, waiters only beside a zero count |
| Queue.ResumeOwes | kernel/base/ipc/los_queue.c:300-307 | A woken call finds exactly the slot that it was handed, which no counter shows any more |
| Queue.TimeoutKeeps | kernel/base/ipc/los_queue.c:302-306 | A call that timed out has been handed nothing |
| Queue.Queues.QueueCreate | kernel/base/ipc/los_queue.c:66-229 | Every error case in order; otherwise the first unused block holds an empty ring of that length |
| Queue.Queues.QueueRead | kernel/base/ipc/los_queue.c:240-336 | Every error case in order; a read returns the oldest unread message and serves exactly the first waiting writer, which is ready then unless suspended; otherwise the caller waits by priority, with its timer |
| Queue.Queues.QueueReadResume | kernel/base/ipc/los_queue.c:300-336 | OK exactly if handed a slot, and then the oldest unread message, and the first waiting writer is served and ready unless suspended; timeout exactly if the tick resolved the wait |
| Queue.Queues.QueueWrite | kernel/base/ipc/los_queue.c:348-448 | Every error case in order; a write appends to the history and serves exactly the first waiting reader, which is ready then unless suspended; otherwise the caller waits by priority, with its timer |
| Queue.Queues.QueueWriteResume | kernel/base/ipc/los_queue.c:414-448 | OK exactly if handed a slot, and then its own message is appended, and the first waiting reader is served and ready unless suspended; timeout exactly if the tick resolved the wait |
| Queue.Queues.QueueDelete | kernel/base/ipc/los_queue.c:585-635 | Every error case in order: refused while anybody waits, while any woken reader or writer has not resumed, and when the ring's memory is not taken back |
| Kernel.Kernel.Perform | kernel/base/core/los_task.c:67-210 | Any step of any module, the tick and the scheduler keeps every invariant of every module, changes the books (semaphores, mutexes, queues, events, mail, priorities) exactly as that call does, and hands back what the state says; a tick lowers every timer by one and expires exactly those due; any other step resolves exactly the calls of those that it wakes, begins or ends at most the caller's own, and lets all other calls and timers be; only a suspension and its end change who is suspended; the ready lists lose exactly those who stop being ready or are moved, and gain exactly those who become ready or are moved, at the end and in order; `LOS_Schedule` alone changes who runs |
| Kernel.Kernel.Run | kernel/base/core/los_task.c:151-210 | Every interleaving of steps, from any state in order, passes only through sound states (lists, timers, outcomes, semaphores, mutexes, priorities, events, queues, mail), these follow one from the other by the books, and every call is answered accordingly |
| Runs.MessagesInOrder | kernel/base/ipc/los_queue.c:240-448 | Over any such run the messages that reads hand back are those that come next in the order of the writes that returned OK: none lost, repeated or overtaken |
| Runs.PostsAddUp | kernel/base/ipc/los_sem.c:148-288 | Over any such run a semaphore's books gain exactly the posts and the pends that returned OK |
| Runs.CountsConserved | kernel/base/ipc/los_sem.c:148-288 | Count plus hand-overs under way is at every moment what it was at first, more by the posts that have returned OK and less by the pends that have |
| Runs.PendsAddUp | kernel/base/ipc/los_mux.c:144-317 | Over any run from a state in which nobody has the mutex, pends that returned OK to a task, less its posts that did, and one more while a hand-over to it is under way, are the mutex's count while it is the owner, else 0 |
| Runs.FirstComeFirstOwner | kernel/base/ipc/los_mux.c:281-310 | A mutex given up goes, with count 1, to the task that began to wait for it first; it is free exactly if nobody waits |
| Runs.NeverBelowOwn | kernel/base/ipc/los_mux.c:144-317 | Over any run, with mutexes released in whatever order, no task is less urgent than its own priority, unless one was set above a saved one |
| Runs.LifoDiscipline | kernel/base/ipc/los_mux.c:144-317 | Over any run with last-in-first-out releases and no priority set over a held mutex, no task is less urgent than its own priority and one that holds nothing is exactly at it |
| Runs.FreeTaskPriority | kernel/base/ipc/los_mux.c:281-285 | A task that gives up its only mutex is at its own priority afterwards if and only if that is the priority saved in it |
| Runs.FreeTasksAtOwn | kernel/base/ipc/los_mux.c:144-317 | Over any run at all, a task that holds nothing is at its own priority if and only if the last time that it gave up its only mutex, or was given a priority, left it there |
| Runs.MostUrgentRuns | kernel/base/core/los_priqueue.c:45-58 | Over any run without a priority set above a saved one, an unlocked `LOS_Schedule` leaves running the first of the most urgent ready tasks, at least as urgent as the own priority of any ready task; nothing else changes who runs |
| Runs.WaitBegins | kernel/base/ipc/los_sem.c:191-206 | A call that has to wait waits with just as many ticks to go as it said, and without a timer if it said forever |
| Runs.TimesOutOnTime | kernel/base/core/los_task.c:151-210 | In any run in which nobody grants it, a wait with n ticks to go times out at exactly the n-th tick, not before |
| Runs.WaitsOn | kernel/base/core/los_task.c:151-210 | In any run in which nobody grants it, a call that waits forever goes on waiting: no tick ends it |
| Runs.ResolvedOnce | kernel/base/core/los_task.c:174-201 | Whatever happens while a task is inside of a call, the call is resolved at most once, by one hand-over or by one tick, and its stage tells by which |
| ReadyRuns.HandOverReadies | kernel/base/ipc/los_sem.c:262-276 | Whatever hands something to a waiter makes it ready, unless it is suspended, and does not suspend it |
| ReadyRuns.HandedStaysReady | kernel/base/ipc/los_sem.c:262-288 | Over any run: from the hand-over until it comes back to its call a task is ready and on the ready list of its priority, unless somebody suspends it |
| ReadyRuns.SleepBegins | kernel/base/core/los_task.c:838-846 | A delay puts its caller to sleep for just as many ticks as it says, and does not suspend it |
| ReadyRuns.AwakeOnTime | kernel/base/core/los_task.c:151-210 | Over any run in which nobody suspends it, a sleeper with n ticks to go is not ready before its n-th tick, and is ready and on its ready list after exactly that one |
| ReadyRuns.NobodyGetsAhead | kernel/base/core/los_priqueue.c:35-58 | Over any run: while a task is ready, does not yield and keeps its priority, nobody gets in front of it in its ready list |
| ReadyRuns.FirstReadyFirstRun | kernel/base/core/los_priqueue.c:45-58 | Over any run: such a task is passed over by `LOS_Schedule` only for more urgent tasks, or for equals that stood in front of it from the beginning |
| ReadyRuns.LocksNest | kernel/base/core/los_task.c:1007-1044 | Over any run without an unlock too many, scheduling is locked as often as it was, more by the locks and less by the unlocks |
| ReadyRuns.OwnerInherits | kernel/base/ipc/los_mux.c:202-205 | Right after a task has begun to wait for a mutex, its owner is at least as urgent as that task and as it was before, at one of the two priorities |
| ReadyRuns.OwnersInherit | kernel/base/ipc/los_mux.c:144-215 | ... in every run, after every step in which a task begins to wait for a mutex that another one holds |
| EventRuns.BitStep | kernel/base/ipc/los_event.c:34-246 | One step, bit by bit, told from the call and from what it hands back: a bit is there afterwards exactly if the step has written it, or it was there and neither a clearing read handed it back nor a clear dropped it |
| EventRuns.BitsStay | kernel/base/ipc/los_event.c:34-246 | Over any run a bit is in the event word if and only if the last step that was about it has written it |
| EventRuns.ReadsAreWritten | kernel/base/ipc/los_event.c:64-153 | Over any run a read hands back only bits that have been written and not been handed back by a clearing read, or dropped by a clear, since |
| Kernel.Kernel.constructor | kernel/base/core/los_task.c:219-265 | The initial state is in order, no task holds a mutex, and all priorities are undisturbed |
| Sqrt.Round | platform/xmc1100_bootkit/XMC1000_tseRoutine.c:41-49 | One round decides one bit of the root, and neither its sum nor its results leave 32 bits |
| Sqrt.Sqrt5 | platform/xmc1100_bootkit/XMC1000_tseRoutine.c:35-54 | For every 32-bit x the integer nearest to its square root: 0 for 0, otherwise r*r - r < x <= r*r + r |
| Crc.TableOk | example/api/los_api_xmodem.c:165-198 | Each of the 256 table entries is its index times x^16 modulo x^16+x^12+x^5+1 |
| Crc.TableStepMeaning | example/api/los_api_xmodem.c:205-208 | One round of the loop adds the byte at the top and multiplies by x^8 |
| Crc.CrcIsDivision | example/api/los_api_xmodem.c:200-211 | For every buffer the table-driven fold is the remainder of the message followed by 16 zero bits, by bit-by-bit division |
| Crc.AppendedSumIsZero | example/api/los_api_xmodem.c:103-105 | Appending the two bytes of the sum, high byte first, makes the sum of the whole zero |
| Crc.XModemCrc16 | example/api/los_api_xmodem.c:200-211 | The loop returns that remainder |

## Left out

- Perform: three calls that put the state out of order are not steps of a run: the 65536th nested pend of one owner, waiting for mail under the scheduling lock, and freeing mail that a woken task has not picked up. `MuxPend`, `MailAlloc` and `MailFree` say exactly when they do.
- MailAlloc: mail on a queue that has not been created, or through two pools on one queue, is not modelled. Runs have one pool of mail.
- CheckUsedNode: the two variants without `LOS_DLNK_SAFE_CHECK` (link sanity checks, and header bounds only) are not modelled.
- MemRealloc: for a pointer with a gap the source returns the base pointer, not the aligned one; the model does the same, and what is kept is stated relative to the base pointer.
- TaskCreate: the two locked sections of the source are one step; the checks of the other parameters and control block and stack allocation are not modelled.
- InsertedByPriority: the order of queue waiters is not claimed across a change of a waiter's priority, since the source does not re-sort.
- SemCreate: which unused control block heads the free list is a parameter, as in the creation of mutexes; so are, for queues, whether there is memory for the ring and what `LOS_MemFree` says when it is given back.
- Payloads are words, not bytes; `memcpy` and `memset` are modelled on whole words.
- `LOS_TaskDelete` of a task that was woken and has not resumed loses what it was granted; deletion, the recycle list and task stacks are not modelled.
- Ownership of a mutex does not make its holder as urgent as every waiter for good: it is right after a task begins to wait (`ReadyRuns.OwnersInherit`), but the hand-over does not lift the new owner again and inheritance is not transitive.
- A woken event reader need not get bits, since another reader may have cleared them meanwhile.
- The pool and queue that carry expired software timers to their callbacks are not modelled; a full one drops the callback.
- `LOS_EventInit` and `LOS_EventDestory` with waiters, `LOS_QueueCreate` without memory, per-task memory statistics, time slices.
- `g_usLosTaskLock` is unbounded: its 16-bit wrap-around after 65536 nested locks is not modelled.
- Context switching, the RUNNING bit, stacks, real interrupt masking and hardware interrupts: the atomic-step model stands in for them.
- CMSIS wrappers, HAL and board code, file system, inspection demos and the XMODEM sender loop.
