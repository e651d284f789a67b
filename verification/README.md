# A Dafny model of psync

psync is a set of header-only concurrency primitives for C++. Almost every class in it
is a small state machine whose correctness depends on all interleavings of a few atomic
operations. This project models those machines and proves properties of all their runs.

## How to read it

**Step systems.** A primitive is a datatype `State` and a relation that lets one thread
take one atomic operation: a load, a compare-and-swap, a fetch-and-add, a futex call, or
one access to plain shared data. A thread's program point stands just before its next
operation, so a retry loop of the source is a way back to an earlier program point. A run
(`Threads.IsRun`) is any sequence of such steps by any number of threads in any order.
The main results speak of every state, or every two consecutive states, of every run.
Spinning and backoff become "try again at any time".

**Calls.** Safety alone would allow a lock that refuses everybody, so every primitive also has
lemmas on its calls: from every state that meets the invariant, and so from every state of a
run, a call whose thread moves alone (`By(t)`, `Threads.Reaches`) comes to the end state that
its name promises, and a call that is refused or waits has found a reason.

**Memory model.** Interleavings are sequentially consistent. The acquire, release and
relaxed annotations and the compiler fences of the source are not modelled.

**Futex.** `Threads.FutexWake` is the kernel's side: `wait` compares the word and falls
asleep in one step, a wake takes out up to `count` sleepers of the kernel's choice, and a
sleeper may wake for no reason at any time.

**Words.** Machine words are naturals with explicit wrap-around (`Bits.Add`, `Bits.Sub`),
and the masks and shifts of the packed words are the recursive bitwise operators of
`Bits`, whose arithmetic meaning is proved there.

**Objects.** The parts that the source runs in place are classes: the parking lot's
linked buckets (`ParkingLot.Bucket`), the retired list and the slots of the epoch manager
(`EpochManager.EpochManager`), the intrusive queue (`IntrusiveQueue.IntrusiveQueue`) and
the two rings (`MpscRing.Buffer`, `SpscRing.Buffer`), with `Ring.RoundUpPow2` as a method.
Each is proved against functions on sequences, and for the epoch manager, the intrusive queue and
the rings a call that nobody disturbs is proved to be a run of the step system.

**Composition.** `Parking` is a step system of its own, with the locks' callbacks left
open. `MicroLock` and `TaggedLockPtr` run over it with any number of locks sharing a
bucket, and `ConditionVariable` runs over the step system of `Mutex`.

| file | source |
|---|---|
| Threads, Bits, Sequences, Options, Holders | shared definitions: runs, counting, futex, words, lists |
| Mutex, SharedMutex, SharedMutexCalls, ConditionVariable, Semaphore, Barrier, BarrierCalls | the futex-based primitives |
| SeqLock | optimistic reading |
| Epoch, EpochManager | epoch-based reclamation |
| MpscIntrusive, IntrusiveQueue | the intrusive queue |
| ParkingLot, Parking, ParkingAll, ParkingCalls, MicroLock, MicroLockCalls, TaggedLockPtr, TaggedCalls, TaggedWakeups | the parking lot and the locks on it |
| Ring, MpscQueue, MpscRing, MpscDelivery, MpscClose, SpscQueue, SpscRing | the ring buffers |

## Where the code falls short

- The lock in `TaggedLockPtr` can lose a wakeup. The validation under the bucket lock
  reads LOCKED_BIT and then sets WAITERS_BIT in a second step. It marks too late if by then
  the lock is free and nobody is on the way to the queue or to another attempt. Up to the
  first late mark no waiter is forgotten (`TaggedWakeups.NotForgottenUnlessTooLate`), and a
  waiter can be forgotten by the next step exactly if the mark is late
  (`TaggedWakeups.LateMarkIsExact`). `TaggedWakeups.LateMarkStrands` is a run of two threads
  and thirteen steps at whose end one thread sleeps on a lock that nobody holds.
- A `SeqLock` snapshot can be torn once the 32-bit sequence has gone all the way round
  during one attempt. `SeqLock.SnapshotsAreWhole` gives the exact condition under which a
  reader accepts, and that fewer than 2^31 writes make what it accepts whole. Which numbers
  of complete writes inside one attempt can tear what it accepts is exact, too: the positive
  multiples of 2^31 and no others (`SeqLock.TornExactlyWhenWrapped`).
- `MPSCQueue::close` can keep back values that were accepted. A producer that has claimed
  a position and then finds the ring closed gives the position up, and the consumer stops
  there for good, although another producer may have published behind it.
  `MpscDelivery.AcceptedAndKeptBack` is such a run of two producers and two slots. When the
  claims up to a position are settled, its value can still be delivered exactly if none of
  the claims from the tail to it was abandoned (`MpscDelivery.DeliveredUnlessAbandoned`).
  What decides it is the close: a value can be kept back exactly if, when `closed` is set, a
  producer stands between its claim and its load of `closed` with a position accepted behind
  its own (`MpscClose.CloseKeepsBackExactly`). If none does, as when no push is under way,
  everything accepted can be delivered (`MpscClose.NothingKeptBack`).
- DESIGN.md:178-181 describes another layout of the `SharedMutex` word than
  include/psync/psync_shared.h:18-20. The model follows the code.

## Model

| member | source | states |
|---|---|---|
| Threads.WakeAllLeavesNone | include/psync/psync_platform.h:445-456 | waking up to 0x7fffffff threads leaves nobody asleep on the word |
| Threads.WakeOneFindsNone | include/psync/psync_platform.h:445-451 | a wake of at least one thread wakes somebody, or nobody was asleep |
| Mutex.LockBit | include/psync/psync_mutex.h:151-151 | masking with LOCKED_FLAG is the lowest bit of the word |
| Mutex.TakenByWaiter | include/psync/psync_mutex.h:152-152 | on a free word with waiters, subtracting one waiter and setting the flag takes exactly one off the word |
| Mutex.LockBitCleared | include/psync/psync_mutex.h:178-178 | masking with the complement of the flag clears that bit and nothing else |
| Mutex.StepKeepsInv | include/psync/psync_mutex.h:43-182 | every atomic operation of lock, try_lock, lock_contended, unlock and unlock_contended keeps: one holder, word = holder + 2 * waiters, and a rescuer for sleepers on a free mutex |
| Mutex.WordIsExact | include/psync/psync_mutex.h:43-182 | in every run the lock bit is set exactly if some thread holds the mutex, no two do, and state >> 1 is the number of threads between registration and acquisition |
| Mutex.OnlyWaitersTake | include/psync/psync_mutex.h:144-166 | while a waiter is registered, whoever takes the mutex is a registered waiter and lowers the count by one |
| Mutex.NoStrandedSleeper | include/psync/psync_mutex.h:77-182 | a sleeper on the free mutex means that an unlocker has yet to wake, or a registered waiter is awake |
| Mutex.AttemptIsExact | include/psync/psync_mutex.h:43-72 | in every run, the exchange of try_lock, and the first one of lock, takes the mutex if and only if nobody holds it and nobody is registered |
| Mutex.LockAlone | include/psync/psync_mutex.h:43-172 | from outside or anywhere in lock, a thread takes the free mutex by its own steps alone, whoever else waits |
| Mutex.WaitAlone | include/psync/psync_mutex.h:43-172 | a lone lock of the held mutex registers its thread and sleeps |
| Mutex.UnlockAlone | include/psync/psync_mutex.h:77-182 | a lone unlock frees the mutex, keeps the count of waiters and gets one sleeper out of the futex if there is any |
| SharedMutex.StopsReader | include/psync/psync_shared.h:93-93 | the readers' test is exactly: writer bit or some registered writer |
| SharedMutex.HasRegistered | include/psync/psync_shared.h:152-152 | the mask WRITER_WAITING_MASK tests the fifteen waiting bits |
| SharedMutex.ReaderCount | include/psync/psync_shared.h:151-151 | masking and shifting reads the upper sixteen bits |
| SharedMutex.StopsWriter | include/psync/psync_shared.h:170-170 | the writers' test is exactly: writer bit or some reader |
| SharedMutex.TakenByWriter | include/psync/psync_shared.h:171-171 | on a word without writer bit and with a registered writer, the exchanged word is one less |
| SharedMutex.WriterBitCleared | include/psync/psync_shared.h:80-80 | unlock clears the writer bit and nothing else |
| SharedMutex.FieldsDecode | include/psync/psync_shared.h:18-35 | with at most 32767 threads the bit tests read the three counts off the word, with no carry between the fields |
| SharedMutex.PackedWordIsExact | include/psync/psync_shared.h:46-245 | in every run state = writer + 2 * registered writers + 65536 * readers, and a writer excludes everybody else |
| SharedMutex.SleepersHaveExcuse | include/psync/psync_shared.h:77-84 | a sleeping writer means a writer or reader holds or a wake_all is pending; a sleeping reader means a writer holds, one is registered, or a wake_all is pending |
| SharedMutex.NobodyIsStranded | include/psync/psync_shared.h:145-245 | with no holder, no pending wake and no registered writer awake, nobody sleeps |
| SharedMutex.WritersHoldReadersBack | include/psync/psync_shared.h:87-116 | from the step a writer registers until none is registered or holds, the number of readers never grows |
| SharedMutexCalls.ReadAlone | include/psync/psync_shared.h:87-143 | with no writer holding or registered, whoever calls lock_shared or try_lock_shared, or is anywhere in lock_shared, gets a read lock by its own steps alone, whatever readers hold |
| SharedMutexCalls.WriteAlone | include/psync/psync_shared.h:46-202 | with nobody holding, a thread outside or anywhere in lock gets the write lock by its own steps alone |
| SharedMutexCalls.ReadWaitsAlone | include/psync/psync_shared.h:87-245 | a lone lock_shared sleeps while a writer holds or is registered, and changes no word |
| SharedMutexCalls.WriteWaitsAlone | include/psync/psync_shared.h:46-202 | a lone lock registers its thread and sleeps while somebody holds the lock |
| SharedMutexCalls.AttemptIsExact | include/psync/psync_shared.h:46-75 | the exchange of try_lock, and the first one of lock, takes the lock if and only if nobody holds it and no writer is registered |
| SharedMutexCalls.RefusedMeansWriter | include/psync/psync_shared.h:89-125 | a try_lock_shared that fails, or a lock_shared that turns to its slow path, had a writer holding or registered at the load that decided it |
| SharedMutexCalls.WaitersHaveReason | include/psync/psync_shared.h:166-239 | a reader that goes to wait found a writer holding or registered, a writer that goes to wait found a holder |
| SharedMutexCalls.UnlockAlone | include/psync/psync_shared.h:78-84 | a lone unlock takes the writer off the word and leaves nobody asleep |
| SharedMutexCalls.UnlockSharedAlone | include/psync/psync_shared.h:146-155 | a lone unlock_shared takes one reader off the word and wakes everybody if it was the last and a writer is registered |
| ConditionVariable.StepKeepsInv | include/psync/psync_condvar.h:55-67 | every step of waiters, notifiers and the mutex keeps: a waiter that has loaded the word relies on a false predicate, a later increment, or an outstanding broadcast |
| ConditionVariable.SleeperIsNotForgotten | include/psync/psync_condvar.h:54-67 | if the predicate changes only under the mutex and each change to true is followed by broadcast(), or by either signal() or broadcast() where at most one thread waits at a time, a thread asleep in wait(pred) means the predicate is false or some notifier has not finished its increment and wake |
| ConditionVariable.WaiterMissesNothing | include/psync/psync_condvar.h:62-67 | a waiter about to sleep on an unchanged word with the predicate true has a notifier that has not incremented yet |
| ConditionVariable.WaitersHoldTheMutex | include/psync/psync_condvar.h:55-67 | the predicate is evaluated and the word loaded with the mutex held by that thread and by nobody else |
| ConditionVariable.NotifyWakes | include/psync/psync_condvar.h:117-143 | in every run, the step that finishes a signal leaves one thread fewer asleep if any slept, and the one that finishes a broadcast leaves none |
| ConditionVariable.NotifyAlone | include/psync/psync_condvar.h:117-143 | a lone signal or broadcast increments the word and gets one sleeper or all out of the futex |
| ConditionVariable.WaitReturnsOnTrue | include/psync/psync_condvar.h:55-59 | in every run, wait(pred) returns only with the predicate true and the mutex held |
| ConditionVariable.WaitSleepsAlone | include/psync/psync_condvar.h:55-67 | in every run, wait(pred) with the predicate false releases the mutex, waking a locker if one sleeps, and sleeps itself, if nobody moves meanwhile |
| ConditionVariable.WaiterReturnsAlone | include/psync/psync_condvar.h:55-67 | with the predicate true and the mutex free, a thread in the futex or on its way back to the mutex returns by its own steps alone, holding the mutex |
| Semaphore.WakeCount | include/psync/psync_semaphore.h:38-38 | the cast to a signed count wakes as many as were released, or 0x7fffffff for updates beyond that |
| Semaphore.TokensAreConserved | include/psync/psync_semaphore.h:35-60 | in every run, the initial count plus the units of all calls of release minus the number of calls that acquired is the count, modulo 2^32 and exactly as long as it fits |
| Semaphore.NoTokenIdlesBesideSleeper | include/psync/psync_semaphore.h:35-83 | while some acquirer sleeps, the count is at most the pending wake units plus the acquirers awake |
| Semaphore.AcquireAlone | include/psync/psync_semaphore.h:44-83 | with a token there, a thread that calls acquire or try_acquire, or is anywhere in acquire, takes exactly one by its own steps alone |
| Semaphore.AcquireWaitsAlone | include/psync/psync_semaphore.h:65-83 | a lone acquire without a token sleeps, and changes no count |
| Semaphore.ReleaseAlone | include/psync/psync_semaphore.h:35-39 | a lone release adds its units and gets as many sleepers out of the futex, or all |
| Semaphore.RefusedMeansNone | include/psync/psync_semaphore.h:44-60 | in every run, a try_acquire that fails had the count at 0 at the load that decided it |
| Barrier.PhasesStayTogether | include/psync/psync_barrier.h:36-51 | nobody completes its k-th call before everybody has arrived in its k-th, completed calls differ by at most one, and the counter never underflows |
| Barrier.OldSleepersWillWake | include/psync/psync_barrier.h:42-50 | a thread asleep on an old phase means that a wake_all is pending, also across the wrap of the phase at 2^32 |
| Barrier.SomebodyIsAwake | include/psync/psync_barrier.h:36-51 | the threads never all sleep at once |
| BarrierCalls.LastArrives | include/psync/psync_barrier.h:36-45 | when all others have arrived, a thread ends the phase by its own steps alone: counter reset, phase advanced, everybody out of the futex, and it returns |
| BarrierCalls.EarlyWaits | include/psync/psync_barrier.h:36-50 | when another thread has still to arrive, a lone call counts itself and sleeps |
| BarrierCalls.WaiterReturnsAlone | include/psync/psync_barrier.h:45-50 | once the phase it arrived in is over, a waiting thread returns by its own steps alone |
| BarrierCalls.ReturnIsExact | include/psync/psync_barrier.h:47-49 | in every run, a waiting thread that loads the phase returns if and only if the phase it arrived in is over |
| SeqLock.SnapshotsAreWhole | include/psync/psync_seqlock.h:56-72 | a reader accepts exactly if the sequence moved by a multiple of 2^32 during the attempt, and with fewer than 2^31 writes what it accepts is the complete data of one committed version, current during the attempt |
| SeqLock.WriteMany | include/psync/psync_seqlock.h:33-51 | a writer can write any data, word by word, any number of times, and each write leaves the data committed and the sequence two higher |
| SeqLock.ReadAlone | include/psync/psync_seqlock.h:56-127 | from every state of a run with no write in progress, a reader that starts returns the committed version by its own steps alone |
| SeqLock.BeginsUnlessWriting | include/psync/psync_seqlock.h:56-64 | in every run, read_begin gets in if and only if no write is in progress |
| SeqLock.TornAfterWrapAround | include/psync/psync_seqlock.h:110-127 | for every positive multiple of 2^31, a run in which that many writes fall inside one attempt and a torn snapshot is returned |
| SeqLock.TornExactlyWhenWrapped | include/psync/psync_seqlock.h:56-72 | an attempt overtaken by a given number of complete writes can return a torn snapshot if and only if the number is a positive multiple of 2^31 |
| EpochLists.SweepPartitions | include/psync/psync_epoch.h:143-160 | the sweep splits the list into the nodes with epoch >= min_epoch and those below, and loses none |
| EpochLists.SweepKeepsOrder | include/psync/psync_epoch.h:143-160 | two kept nodes stay in their order |
| EpochLists.Lower | include/psync/psync_epoch.h:125-127 | an inactive slot leaves the minimum as it is, any other lowers it to at most its epoch |
| Epoch.NoEarlyFree | include/psync/psync_epoch.h:78-180 | over every interleaving of enter, exit, retire and reclaiming, no node is deleted while a reader is inside a section it published before the node's epoch was read |
| Epoch.EachNodeHasOnePlace | include/psync/psync_epoch.h:136-192 | in every run a retired node is in exactly one place: carried by its retirer, listed once, or deleted once; and after the destructor deleted |
| Epoch.SweepKeepsTheYoung | include/psync/psync_epoch.h:136-161 | a finished sweep leaves precisely the nodes with epoch >= min_epoch that were there when it started, in order |
| EpochManager.ScanMinIsLeast | include/psync/psync_epoch.h:121-129 | the scanned minimum is the least of the current epoch and the active epochs of used slots |
| EpochManager.EpochManager.constructor | include/psync/psync_epoch.h:41-44 | epoch 1, nothing retired, all slots free and inactive |
| EpochManager.EpochManager.RegisterThread | include/psync/psync_epoch.h:56-66 | takes the first free slot; with none free it takes slot 0 and changes nothing |
| EpochManager.EpochManager.UnregisterThread | include/psync/psync_epoch.h:68-73 | makes the slot inactive and free, and ignores a slot out of range |
| EpochManager.EpochManager.Enter | include/psync/psync_epoch.h:78-84 | publishes the global epoch in the slot, and ignores a slot out of range |
| EpochManager.EpochManager.Exit | include/psync/psync_epoch.h:89-94 | makes the slot inactive, and ignores a slot out of range |
| EpochManager.EpochManager.Retire | include/psync/psync_epoch.h:169-180 | puts a node with the global epoch in front of the list |
| EpochManager.EpochManager.Scan | include/psync/psync_epoch.h:121-129 | the loop over the slots computes the scanned minimum |
| EpochManager.EpochManager.Unlink | include/psync/psync_epoch.h:147-152 | takes one node out of the linked list in place, at the head or behind its predecessor |
| EpochManager.EpochManager.Sweep | include/psync/psync_epoch.h:140-160 | the in-place loop keeps exactly the young nodes in order, deletes the others in order, and terminates |
| EpochManager.EpochManager.TryReclaim | include/psync/psync_epoch.h:117-162 | scan, advance if all caught up, and sweep below the minimum |
| EpochManager.EpochManager.ReclaimAll | include/psync/psync_epoch.h:182-192 | deletes every listed node once, in order, and empties the list |
| EpochAlone.ReclaimAlone | include/psync/psync_epoch.h:117-162 | try_reclaim with nobody else moving is a run of the step system with the same result as the object's method |
| EpochAlone.RetireAlone | include/psync/psync_epoch.h:169-180 | retire with nobody else moving is a run that puts one node in front of the list, marked with the current epoch |
| EpochAlone.RegisterAlone | include/psync/psync_epoch.h:56-66 | a lone register_thread is a run that takes a free slot and leaves its epoch and the other slots |
| EpochAlone.UnregisterAlone | include/psync/psync_epoch.h:68-73 | a lone unregister_thread is a run that makes the slot inactive and free, and changes no other |
| EpochAlone.EnterAlone | include/psync/psync_epoch.h:78-84 | a lone enter is a run that publishes the current epoch in its slot and changes no other |
| EpochAlone.ExitAlone | include/psync/psync_epoch.h:89-94 | a lone exit is a run that makes its slot inactive and changes no other |
| EpochAlone.ReclaimAllAlone | include/psync/psync_epoch.h:182-192 | reclaim_all with nobody inside leads to the empty list and every listed node deleted in order, as the object's method does |
| MpscIntrusive.FirstInFirstOut | include/psync/psync_mpsc_intrusive.h:45-85 | with any number of producers paused between exchange and link, the entries popped followed by the chain without the stub are the head exchanges in order; the chain has no repetition, and the stub is never pushed or returned |
| MpscIntrusive.DeliveredEntryIsFree | include/psync/psync_mpsc_intrusive.h:66-82 | a returned entry is the oldest, out of the chain, and no push in flight still holds it as its predecessor |
| MpscIntrusive.PopAloneIsExact | include/psync/psync_mpsc_intrusive.h:55-85 | with no push in flight or moving, pop returns null exactly if the queue is empty and otherwise the oldest entry, also through the stub's re-insertion |
| MpscIntrusive.NullMeansEmptyOrPending | include/psync/psync_mpsc_intrusive.h:55-85 | in every run, pop returns null only if nothing is queued or if during the call some producer stood between its exchange and its link |
| IntrusiveAlone.PopTakesOldest | include/psync/psync_mpsc_intrusive.h:55-85 | the result and chain of a lone pop are the oldest entry and the rest, or nothing and the same chain exactly if no entry is queued |
| IntrusiveAlone.PushAlone | include/psync/psync_mpsc_intrusive.h:45-49 | a lone push is a run of the step system that puts its entry behind the chain |
| IntrusiveAlone.PopAlone | include/psync/psync_mpsc_intrusive.h:55-85 | a lone pop is a run of the step system to the result and chain that the object reaches, on all three ways through the code |
| IntrusiveQueue.IntrusiveQueue.Push | include/psync/psync_mpsc_intrusive.h:45-49 | links the entry behind the head in place: the chain of the lone push |
| IntrusiveQueue.IntrusiveQueue.Pop | include/psync/psync_mpsc_intrusive.h:55-85 | returns the result and leaves the chain of the lone pop, in place; the entry is out of the chain |
| ParkingQueue.HashIsShiftAndMask | include/psync/psync_microlock.h:230-233 | shift and mask are (address / 8) mod 64, the bucket used throughout |
| ParkingQueue.UnparkOneIsExact | include/psync/psync_microlock.h:118-168 | unpark_one takes out exactly the longest waiting node of its key, reports truthfully whether none, one or more waited, and leaves every other key's order alone |
| ParkingLot.Bucket.Enqueue | include/psync/psync_microlock.h:82-92 | adds the node at the end of the linked bucket, with its flag cleared |
| ParkingLot.Bucket.Find | include/psync/psync_microlock.h:118-137 | the walk stops at the first node of the key, with its predecessor |
| ParkingLot.Bucket.Unlink | include/psync/psync_microlock.h:125-132 | takes the node out in place and keeps head and tail consistent |
| ParkingLot.Bucket.UnparkOne | include/psync/psync_microlock.h:112-168 | the linked bucket and the result are those of the queue functions; exactly the first node of the key is unlinked, its flag is set, and every other flag stays |
| ParkingLot.Bucket.TakeAll | include/psync/psync_microlock.h:182-212 | the loop moves exactly the nodes of the key, in order, to a list of their own, and keeps exactly the others, in order |
| ParkingLot.Bucket.UnparkAll | include/psync/psync_microlock.h:176-226 | removes exactly all nodes of the key in order, keeps exactly the others in order, sets the flags of the removed nodes and no other flag, and returns the count |
| Parking.StepKeepsInv | include/psync/psync_microlock.h:69-226 | every step of park, unpark_one and unpark_all, whatever the callbacks decide, keeps: queued nodes wait with flag 0, each in one queue once, and whoever was unlinked is the target of exactly one unparker that will flag and wake it |
| Parking.ParkReturnsAfterRemoval | include/psync/psync_microlock.h:69-103 | in every run, a park that queued its node returns only after the node was unlinked exactly once since it joined, and then it is in no bucket |
| ParkingAll.UnparkAllIsExact | include/psync/psync_microlock.h:176-214 | in every run, when unpark_all releases the bucket it has taken out exactly the nodes of its key that were queued when it took the bucket, in order, and left exactly the others in order |
| ParkingAll.TargetIsFlagged | include/psync/psync_microlock.h:216-223 | an unparker lets go of a thread it took out only by setting its flag, with the futex wake still to come |
| ParkingAll.UnlinkedMeansFlagged | include/psync/psync_microlock.h:112-226 | in every run, a thread taken out by unpark_one or unpark_all is flagged before its unparker has gone on, and so before the call returns |
| ParkingCalls.SearchAlone | include/psync/psync_microlock.h:112-159 | unpark_one undisturbed up to its callback: the oldest node of the key is out of the queue and the result is exact |
| ParkingCalls.FinishAlone | include/psync/psync_microlock.h:159-168 | the rest of unpark_one undisturbed: the flag of the target is set, the bucket released, and the thread out of the futex |
| ParkingCalls.JoinAlone | include/psync/psync_microlock.h:82-100 | an accepted park undisturbed: its node stands behind all others with the flag cleared, the bucket is released, and the thread sleeps |
| ParkingCalls.ReturnAlone | include/psync/psync_microlock.h:98-103 | a parked thread whose flag is set returns by its own steps alone |
| MicroLock.LotsAreARun | include/psync/psync_microlock.h:288-365 | what the parking lot goes through in a run of the locks is a run of the lot |
| MicroLock.QueuedMeansHeldOrComing | include/psync/psync_microlock.h:318-365 | with the bucket free and a node of the lock queued, the lock is held, or an unlocker has stored UNLOCKED and not yet searched, or some thread will try again; also for locks that share a bucket |
| MicroLock.NobodyIsStranded | include/psync/psync_microlock.h:288-365 | with no lock held and every thread outside or asleep, nobody sleeps |
| MicroLock.HoldersAndNodesAgree | include/psync/psync_microlock.h:288-365 | the word is LOCKED exactly if some thread holds the lock, no two do, and a thread out of park has no node left behind |
| MicroLockCalls.AttemptIsExact | include/psync/psync_microlock.h:288-363 | in every run, an exchange of lock, try_lock or lock_contended takes the lock if and only if nobody holds it, and otherwise changes no word |
| MicroLockCalls.LockAlone | include/psync/psync_microlock.h:288-315 | a lone attempt on a lock that nobody holds takes it |
| MicroLockCalls.LockWaitsAlone | include/psync/psync_microlock.h:328-351 | a lone lock of a held lock puts its node at the end of the queue and sleeps |
| MicroLockCalls.UnlockAlone | include/psync/psync_microlock.h:318-324 | a lone unlock frees the lock, takes out and flags the node that waited longest, and wakes its thread |
| MicroLockCalls.WokenTakesAlone | include/psync/psync_microlock.h:98-363 | a thread that was taken out and flagged takes the free lock by its own steps alone |
| TaggedLockPtr.TestsAreMasks | include/psync/psync_tagged_ptr.h:28-51 | masking with the five flag constants tests bit 0, bit 1, bit 2 and the lowest three bits, and drops exactly these three from the pointer |
| TaggedLockPtr.UpdatesAreMasks | include/psync/psync_tagged_ptr.h:54-148 | the four updates of lock, unlock, validation and callback are masks with LOCKED_BIT, WAITERS_BIT and their complements |
| TaggedLockPtr.SetLocked | include/psync/psync_tagged_ptr.h:66-66 | sets the lock bit and leaves waiters flag, reserved flag and pointer |
| TaggedLockPtr.ClearLocked | include/psync/psync_tagged_ptr.h:111-111 | clears the lock bit and leaves the rest |
| TaggedLockPtr.SetWaiters | include/psync/psync_tagged_ptr.h:246-246 | sets the waiters flag and leaves the rest |
| TaggedLockPtr.ClearWaiters | include/psync/psync_tagged_ptr.h:124-124 | clears the waiters flag and leaves the rest |
| TaggedLockPtr.Answered | include/psync/psync_tagged_ptr.h:122-126 | the callback leaves the waiters flag set exactly if it was set and more waiters are left |
| TaggedLockPtr.LotsAreARun | include/psync/psync_tagged_ptr.h:54-255 | what the parking lot goes through in a run of the tagged pointers is a run of the lot |
| TaggedLockPtr.FlagMeansQueued | include/psync/psync_tagged_ptr.h:104-148 | whenever the bucket is free, WAITERS_BIT is set exactly if the bucket holds a node keyed by the pointer |
| TaggedLockPtr.LockedMeansHeldByOne | include/psync/psync_tagged_ptr.h:54-148 | in every state LOCKED_BIT is set exactly if one thread holds the lock |
| TaggedLockPtr.PointerStays | include/psync/psync_tagged_ptr.h:54-176 | no step changes pointer or reserved flag, except that of a compare_exchange that expected the untagged word it found, and it stores the untagged word its caller asked for |
| TaggedCalls.CompareExchangeAlone | include/psync/psync_tagged_ptr.h:162-176 | a lone compare_exchange stores the desired pointer if the word is the expected pointer without flags, changes nothing otherwise, and nothing else in either case |
| TaggedCalls.LockAlone | include/psync/psync_tagged_ptr.h:54-101 | a lone lock or try_lock of a lock that nobody holds takes it and keeps the rest of the word |
| TaggedCalls.LoadIsExact | include/psync/psync_tagged_ptr.h:56-90 | in every run, the load of lock, try_lock and lock_contended goes on to the exchange if and only if nobody holds the lock |
| TaggedCalls.ExchangeIsExact | include/psync/psync_tagged_ptr.h:66-101 | in every run, the exchange takes the lock if and only if the word is the one that was loaded, and then nobody holds it |
| TaggedCalls.LockWaitsAlone | include/psync/psync_tagged_ptr.h:190-249 | a lone lock of a held lock sets WAITERS_BIT, puts its node at the end of the queue and sleeps |
| TaggedCalls.PlainUnlockAlone | include/psync/psync_tagged_ptr.h:133-145 | a lone unlock without waiters only clears the lock bit |
| TaggedCalls.UnlockAlone | include/psync/psync_tagged_ptr.h:104-128 | a lone unlock with waiters clears the lock bit, takes out, flags and wakes the one that waited longest, and leaves WAITERS_BIT set exactly if there are more |
| TaggedCalls.WokenTakesAlone | include/psync/psync_tagged_ptr.h:190-255 | a thread that was taken out and flagged takes the free lock by its own steps alone |
| TaggedWakeups.NotForgottenUnlessTooLate | include/psync/psync_tagged_ptr.h:240-249 | as long as no validation sets WAITERS_BIT on a free word that nobody is coming for, a queued waiter of a free lock has somebody to rely on |
| TaggedWakeups.LateMarkIsExact | include/psync/psync_tagged_ptr.h:241-247 | up to the first late mark, some next step forgets a waiter if and only if the step just taken was a late mark |
| TaggedWakeups.NobodySleepsUnlessTooLate | include/psync/psync_tagged_ptr.h:190-255 | without a late mark, with no lock held and every thread outside or asleep, nobody sleeps |
| TaggedWakeups.LateMarkStrands | include/psync/psync_tagged_ptr.h:133-145 | a run with a late mark, at whose end a waiter is left asleep on a free lock |
| Ring.RoundUpPow2 | include/psync/psync_spsc_queue.h:105-116 | the least power of two that is at least v, for v from 1 to 2^63, and 0 for every other word |
| Ring.SmearDoubles | include/psync/psync_spsc_queue.h:107-113 | each shift-and-or doubles the number of ones at the top of the word |
| Ring.SlotOf | include/psync/psync_spsc_queue.h:55-55 | masking with capacity - 1 is the position modulo the capacity |
| Ring.WrapKeepsSlot | include/psync/psync_spsc_queue.h:55-55 | a position that wrapped at 2^64 has the slot of the unbounded position |
| MpscQueue.LookTells | include/psync/psync_mpsc_queue.h:54-58 | difference 0 means the position is in this turn of the ring; a negative one means every slot is taken |
| MpscQueue.PositionsAreExclusive | include/psync/psync_mpsc_queue.h:60-74 | two producers in flight have different positions and different slots, each claimed by its producer and not yet taken |
| MpscQueue.SlotsAreDetermined | include/psync/psync_mpsc_queue.h:51-82 | every slot's sequence number follows from head, tail and claim state, and an unread value is still in its slot |
| MpscQueue.OutputIsInClaimOrder | include/psync/psync_mpsc_queue.h:107-122 | what was popped is a prefix of the values in claim order, closed or not |
| MpscQueue.ClaimsAreForGood | include/psync/psync_mpsc_queue.h:60-74 | a claimed position keeps its producer and value, is settled once, and what was popped stays popped |
| MpscQueue.AbandonedPositionStops | include/psync/psync_mpsc_queue.h:65-69 | a position given up after close is never passed by the consumer |
| MpscDelivery.DeliveredUnlessAbandoned | include/psync/psync_mpsc_queue.h:60-122 | with all claims up to a position settled, some way on pops its value if and only if no claim from the tail to it was abandoned |
| MpscDelivery.KeepsOneBack | include/psync/psync_mpsc_queue.h:60-69 | from every initial ring with two producers, a run gives up position 0 behind which position 1 is published |
| MpscDelivery.AcceptedAndKeptBack | include/psync/psync_mpsc_queue.h:60-69 | a run with two slots at whose end an accepted value is in the ring and nothing can be popped any more |
| MpscClose.CloseKeepsBackExactly | include/psync/psync_mpsc_queue.h:60-69 | at the step that closes the ring: an accepted value can come to stand behind an abandoned position if and only if a producer stands between its claim and its load of closed, with a position accepted behind its own |
| MpscClose.NothingKeptBack | include/psync/psync_mpsc_queue.h:60-143 | if no producer stands so at the close, then in every later state a published value can be popped once the claims before it are settled |
| MpscQueue.RefusedMeansFull | include/psync/psync_mpsc_queue.h:75-77 | in every run, a try_push that gives up at a load of a slot had every slot claimed and not yet freed |
| MpscQueue.PopFindsTheOldest | include/psync/psync_mpsc_queue.h:107-122 | in every run, the load of try_pop goes on to take a value exactly if the oldest position is published, and otherwise changes nothing |
| MpscAlone.PushAlone | include/psync/psync_mpsc_queue.h:51-82 | a push that nobody disturbs is a run of the step system to the state the object reaches |
| MpscAlone.PopAlone | include/psync/psync_mpsc_queue.h:107-122 | likewise for a pop |
| MpscRing.Buffer.constructor | include/psync/psync_mpsc_queue.h:27-38 | the capacity is rounded up to a power of two, at least 2, and slot i starts with sequence i |
| MpscRing.Buffer.TryPush | include/psync/psync_mpsc_queue.h:51-82 | accepts exactly if neither closed nor full, in place; closed and not full it gives up a position |
| MpscRing.Buffer.TryPop | include/psync/psync_mpsc_queue.h:107-122 | returns the value of the oldest position exactly if that is published |
| MpscRing.Buffer.Close | include/psync/psync_mpsc_queue.h:141-143 | sets the flag and nothing else |
| MpscRing.BehavesAsFifo | include/psync/psync_mpsc_queue.h:51-122 | while open, with no position given up, the object is a bounded first-in first-out queue |
| SpscQueue.IndicesStayInOrder | include/psync/psync_spsc_queue.h:46-82 | on unbounded indices tail_cached <= tail <= head_cached <= head <= tail_cached + capacity, and the words are these modulo 2^64 |
| SpscQueue.RefinesBoundedFifo | include/psync/psync_spsc_queue.h:46-82 | every step of producer and consumer is a step of a bounded queue: a push appends its value, a pop removes and returns the oldest |
| SpscQueue.RefusedMeansFull | include/psync/psync_spsc_queue.h:48-53 | false from try_push means the queue was full when the tail was loaded |
| SpscQueue.NothingMeansEmpty | include/psync/psync_spsc_queue.h:70-75 | false from try_pop means the queue was empty when the head was loaded |
| SpscQueue.SlotsAreUsedInTurn | include/psync/psync_spsc_queue.h:55-79 | a value is constructed only in raw memory and moved only out of the oldest constructed value |
| SpscAlone.PushAlone | include/psync/psync_spsc_queue.h:46-58 | a push that nobody disturbs is a run of the step system to the state the object reaches |
| SpscAlone.PopAlone | include/psync/psync_spsc_queue.h:68-82 | likewise for a pop |
| SpscAlone.PushIsFifo | include/psync/psync_spsc_queue.h:46-58 | a push appends its value exactly if the queue is not full, through either cached index |
| SpscAlone.PopIsFifo | include/psync/psync_spsc_queue.h:68-82 | a pop removes the oldest value exactly if there is one |
| SpscRing.Buffer.constructor | include/psync/psync_spsc_queue.h:24-32 | the capacity is rounded up to a power of two, at least 2, and the queue is empty |
| SpscRing.Buffer.TryPush | include/psync/psync_spsc_queue.h:46-58 | false exactly if full; otherwise the value is appended, in place |
| SpscRing.Buffer.TryPop | include/psync/psync_spsc_queue.h:68-82 | nothing exactly if empty; otherwise the oldest value, whose slot is destroyed |

## Left out

- Weak memory: all interleavings are sequentially consistent, so the memory orders and fences of the source are not judged.
- Retry loops of the locks, the condition variable, the semaphore, the barrier and the seqlock: they are program points of a step relation and not loops of a method, because other threads move between any two of their operations; that a loop ends is claimed for a thread that moves alone, and not for a schedule of several.
- ConditionVariable.SleeperIsNotForgotten: assumes fewer than 2^32 notifications between a waiter's load and its futex wait, which the 32-bit word cannot do without.
- MpscQueue.SlotsAreDetermined: positions stay below 2^63, where the signed difference of the source is exact; the other results on that ring have the same bound.
- Epoch.NoEarlyFree: threads have distinct slots, so the fallback of register_thread to a slot in use (include/psync/psync_epoch.h:65) is modelled in the object only; epochs stay below 2^64 - 1; the destructor runs with no reader inside.
- SharedMutex.PackedWordIsExact: at most 32767 threads, one lock each, which is what the fields of the word can count.
- Mutex.WordIsExact: fewer than 2^31 threads, which is what the waiter count can hold.
- Barrier: exactly the expected threads take part and all use arrive_and_wait; arrive and wait(token) with several arrivals per phase are not modelled.
- TaggedLockPtr::exchange: it overwrites the flags of the word; no claim is made for runs that use it.
- ConditionVariable::broadcast(Mutex&): the requeue compares against the sequence before its own increment, and requeued threads are not counted by the mutex; nothing is claimed for it.
- MpscDelivery.DeliveredUnlessAbandoned: speaks of a consumer at rest and of settled claims; while a claim is pending, its producer decides. Positions stay below 2^63, as above, and size_approx is left out.
- Timed waits, clocks, spin counts, backoff, yields and cache padding: performance or environment.
- The system calls and the Windows and Darwin backends of psync_platform.h: only the futex described above is kept.
- Guards, UniqueLock, batch helpers, telemetry, SpinLock, TicketLock, Baton, Latch and call_once: thin wrappers or easy members.
