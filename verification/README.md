# Concurrency model of the Cyber runtime

A Dafny model of the lock-free base library of the Cyber runtime and of the two pipelines that
stand on it, with proofs of what their code promises. Each lock-free file is a transition system
in which one step is one atomic access (load, store, CAS or fetch-add) of one thread, for any
number of threads and over any sequence of steps; beside it stands a class with the file's own
fields whose methods perform these accesses in place and are proved to be steps of the model. Code
under a mutex is modelled by methods that perform a whole critical section.

- **Bounded queue** (`BoundedQueueSpec`, `BoundedQueueTheorems`, `BoundedQueueCalls`,
  `BoundedQueues`): a ring with head, tail and commit counters. It is a linearizable FIFO queue;
  producers own their slots; commits happen in ticket order and cannot deadlock; each false answer has
  its exact cause.
- **Hash map** (`AtomicHashMapSpec`, `AtomicHashMapTheorems`, `AtomicHashMapCalls`,
  `AtomicHashMapDiscard`, `BucketMask`, `AtomicHashMaps`): sorted insert-only lists. It refines a plain
  map, also for lookups that race with inserts.
- **Object pool** (`ObjectPoolSpec`, `ObjectPoolTheorems`, `ObjectPoolCalls`, `ObjectPools`): a
  counted free list. No node is ever in two hands, and the counter is what makes it so.
- **Lock-freedom** of these three (`BoundedQueueRetries`, `AtomicHashMapRetries`, `ObjectPoolRetries`):
  a CAS fails at most as often as those of other threads succeed. The commit in Enqueue is not of
  this kind: it waits for earlier producers (`CommitsOverAnyRun`).
- **Reader/writer locks** (`AtomicRWLock*`, `ReentrantRWLock*`): the meaning of the counters,
  exclusion, the bound on readers that overtake a waiting writer, and for the reentrant lock exactly
  when a nested call returns and when the lock becomes free again.
- **Message path** (`Channels`, `Visitors`, `DispatchSpec`, `Dispatchers`, `MessagePath`,
  `WakeUpSpec`, `WakeUpTheorems`, `WakeUpReads`, `Routines`): from Dispatch through the overwriting
  ring to a visitor's TryFetch, and the wake-up of the routine that calls it.
- **Asynchronous logger** (`AsyncLoggerSpec`, `AsyncLoggerTheorems`, `AsyncLoggerPromises`,
  `AsyncLoggers`, `LoggerUtil`): the two buffers, the promises of Flush and Stop, and the file that
  each message goes to.

The modules named `...Calls` tie the steps of a run to the calls of its threads: what each call that
has returned has done, with its own arguments and answer, and when an undisturbed call returns.

Fields marked `ghost`, and the parts of a state that a module's header calls history, only record
what happened; no step of the source's code depends on them. In the object models `pcs` (or `procs`,
`disps`, `threads`, `bg`) holds the threads' places in the code with their local variables.

`dafny verify dfyconfig.toml` checks everything.

## What the code does not promise

- Enqueue of the bounded queue can answer false although the queue is not full, even when it is
  empty (`FullAnswerOnEmptyQueue`): its tail was loaded, other threads moved it on, and the head has
  since come to the slot behind that old tail. `EnqueueFalseExactly` gives the exact condition; with
  a current tail the answer is exact (`EnqueueFullExactly`).
- Calls and guards of the reentrant lock can be lost for good. The outermost WriteUnlock adds to the
  counter and clears write_thread_id_ in two steps; a second writer may enter between them and lose
  its id to the clear.
  - A lock call that this write holder makes after the clear never returns: it waits for its own
    guard (`SelfDeadlockHappens`, `StuckForever`). A lock call of a write holder can return exactly
    when the id test passes (`HolderReturnsExactly`).
  - A read guard that it has nested before the clear takes one count too many when it is destroyed,
    and the lock never becomes free again (`LossHappens`, `LostForever`). `LeakedExactly` says
    exactly when a run does this, and `FreeAgainIffNoLeak` what it means once all guards are gone.
  - A thread that constructs no guard of either kind inside a write guard meets neither, whatever
    other threads do (`WithoutNestingInWrite`, `HolderLeaves`). To nest write guards only is not
    enough.
  - One atomic step in WriteUnlock would repair both (`MergedUnlockIsExact`,
    `MergedNestedCallsReturn`). Exclusion holds in any case (`NestedExclusion`).
- Inside a counted read guard the reentrant lock is not reentrant, and neither is the other lock
  anywhere. WriteLock never returns there (`UpgradeHappens`); ReadLock can return exactly unless the
  lock prefers writers and one is waiting (`NestedReadReturnsExactly`, `ReaderBehindWriterHappens`).
  `NestedCallReturnsExactly` and `StuckExactly`, one of each for both locks, cover every lock call
  inside a guard. Without nested guards, or with read guards nested in read guards on a lock that
  does not prefer writers, every thread can always finish (`EverybodyCanFinish`).
- The comment of the logger class says that threads which log too fast will block. The code drops
  their messages instead (cyber/logger/async_logger.cpp:76-79), and the model follows the code.
- Flush breaks its promise when the logger is stopped while it waits: it returns, and a message that
  was accepted before it is not even handed over (`StoppedFlushBreaksIt`). As long as nobody has
  stopped the logger every Flush that has returned has kept it (`FlushKeepsPromise`).

## Model

| member | source | states |
|---|---|---|
| BoundedQueueTheorems.Linearizable | cyber/base/bounded_queue.h:92-151 | Over every interleaving of any number of producers and consumers, the answers in the order of their deciding accesses are those of one sequential FIFO queue of `size` elements: successes lose, double or reorder nothing, and a "not available" from Dequeue is given only on the empty queue |
| BoundedQueueTheorems.TicketOrder | cyber/base/bounded_queue.h:101-108 | The n-th value handed out is the element of the producer that moved tail_ from n to n+1, although the slot is read before the CAS that validates it |
| BoundedQueueTheorems.RingOwnership | cyber/base/bounded_queue.h:92-112 | Every reachable state has head_ < commit_ <= tail_ and tail_ - head_ <= pool_size_ - 1, and a producer about to write uses neither a committed, unconsumed slot nor the slot of another producer |
| BoundedQueueTheorems.StepRefines | cyber/base/bounded_queue.h:92-151 | One access of any thread is one step of the sequential queue, and keeps the invariant |
| BoundedQueueSpec.DrawTicketInv | cyber/base/bounded_queue.h:98-103 | The CAS that draws a ticket keeps the invariant: the earlier fullness test is still good when the CAS succeeds, however old the head it used |
| BoundedQueueSpec.WriteInv | cyber/base/bounded_queue.h:104 | The slot write keeps every committed, unconsumed element and every other producer's slot |
| BoundedQueueSpec.CommitInv | cyber/base/bounded_queue.h:105-109 | The commit CAS publishes exactly the slot its owner has written |
| BoundedQueueSpec.TakeInv | cyber/base/bounded_queue.h:146-149 | When the CAS on head_ succeeds, the value read before it is the element of ticket head_ + 1 |
| BoundedQueueTheorems.DequeueEmptyExactly | cyber/base/bounded_queue.h:143-145 | Dequeue answers false exactly when its head is current and no committed element is present at its commit_ load |
| BoundedQueueTheorems.EnqueueFullExactly | cyber/base/bounded_queue.h:98-100 | With a current tail, Enqueue answers false exactly when `size` tickets are outstanding at its head_ load |
| BoundedQueueTheorems.EnqueueFalseExactly | cyber/base/bounded_queue.h:95-100 | With any tail: Enqueue answers false exactly when the queue is full and its tail is current, or its tail is outdated and head_ has overtaken it by whole laps of the ring |
| BoundedQueueCalls.AnswersOfCalls | cyber/base/bounded_queue.h:92-151 | In every run a call that has returned was decided by exactly one access of its own since it was made, with its own element and the answer that it returns; a call that has not returned has decided nothing |
| BoundedQueueCalls.FalseExactly | cyber/base/bounded_queue.h:95-103 | An access of Enqueue decides that it answers false exactly if it is the head_ load and the condition of the row above holds then; in particular no failing CAS on tail_ ends a call |
| BoundedQueueTheorems.FullAnswerOnEmptyQueue | cyber/base/bounded_queue.h:95-100 | A reachable run in which Enqueue answers false although the queue is empty: the second case above happens |
| BoundedQueueTheorems.OnlyOwnerCommits | cyber/base/bounded_queue.h:105-109 | commit_ moves exactly when the owner of ticket commit_ performs its commit CAS, and by one |
| BoundedQueueTheorems.CommitsOverAnyRun | cyber/base/bounded_queue.h:104-109 | Over any interleaving, every outstanding ticket below a goal is committed once the owners in turn have made the computed number of steps, at most two for each ticket |
| BoundedQueueTheorems.OwnerCanCommit | cyber/base/bounded_queue.h:104-109 | The owner of the oldest uncommitted ticket, if nobody else moves, commits it in one or two steps |
| BoundedQueueTheorems.AllTicketsCommit | cyber/base/bounded_queue.h:104-109 | The commit spin cannot deadlock: from any state of a run there is a schedule in which the outstanding tickets commit one after the other, in ticket order, each by one or two steps of its owner |
| BoundedQueueTheorems.EnqueueAloneAnswers | cyber/base/bounded_queue.h:92-112 | An Enqueue that runs undisturbed answers false exactly when `size` tickets are outstanding or unconsumed; otherwise it appends and returns, or, if another producer has yet to commit, has drawn its ticket and waits |
| BoundedQueueRetries.RetriesArePaid | cyber/base/bounded_queue.h:97-149 | Over any interleaving, the CASes on tail_ (or on head_) of a thread that fail, and not spuriously, are at most the successes of other threads on that counter |
| BoundedQueueTheorems.DequeueAloneAnswers | cyber/base/bounded_queue.h:137-151 | A Dequeue that runs undisturbed hands out the oldest committed element and answers false exactly when there is none, also while tickets are outstanding |
| BoundedQueueCalls.DequeueEndsAlone | cyber/base/bounded_queue.h:137-151 | From any point of Dequeue, however outdated what it has loaded, an undisturbed call returns after at most six accesses |
| BoundedQueueCalls.EnqueueEndsAlone | cyber/base/bounded_queue.h:92-112 | From any point of Enqueue, if no ticket of another producer is outstanding, an undisturbed call returns after at most six accesses |
| RingSlots.SlotIsGetIndex | cyber/base/bounded_queue.h:211-214 | The division and multiplication of GetIndex compute the ring slot of a position |
| RingSlots.DistinctSlots | cyber/base/bounded_queue.h:211-214 | Positions of one window of at most pool_size_ positions use different slots |
| BoundedQueues.BoundedQueue.Init | cyber/base/bounded_queue.h:76-89 | A ring of size + 2 default elements with the counters 0, 1 and 1 satisfies the invariant |
| BoundedQueues.BoundedQueue.GetIndex | cyber/base/bounded_queue.h:211-214 | Returns the ring slot of a position |
| BoundedQueues.BoundedQueue.CallEnqueue | cyber/base/bounded_queue.h:92-95 | A thread enters Enqueue; nothing shared changes |
| BoundedQueues.BoundedQueue.CallDequeue | cyber/base/bounded_queue.h:137-140 | A thread enters Dequeue; nothing shared changes |
| BoundedQueues.BoundedQueue.StepEnqueue | cyber/base/bounded_queue.h:95-111 | Each access of Enqueue on the real counters and slot array is the model's step and keeps the invariant |
| BoundedQueues.BoundedQueue.StepDequeue | cyber/base/bounded_queue.h:140-150 | Each access of Dequeue on the real counters and slot array is the model's step and keeps the invariant |
| AtomicHashMapTheorems.Linearizable | cyber/base/atomic_hash_map.h:46-79 | Over every interleaving, the answers of Has and Get in the order of their deciding loads are those of one plain map that each Set updates exactly once, at its successful CAS |
| AtomicHashMapTheorems.StepRefines | cyber/base/atomic_hash_map.h:112-235 | One access of any thread is one step of the plain map, and keeps the invariant |
| AtomicHashMapTheorems.VerdictIsCurrent | cyber/base/atomic_hash_map.h:112-145 | A traversal's verdict, found or not found, is right at its last `next` load, however long ago it passed the earlier entries |
| AtomicHashMapTheorems.DerefReturnsLoadedValue | cyber/base/atomic_hash_map.h:56-64 | The value that Get copies is the one that was current when it loaded value_ptr, whatever ran in between |
| AtomicHashMapCalls.AnswersOfCalls | cyber/base/atomic_hash_map.h:46-79 | In every run a call that has returned was decided by exactly one access of its own since it was made: Get returns true with the value that this access found for the key of the call, or false if it found none; Has returns what it found; Set has put its value under its key. A call that has not returned has put nothing |
| AtomicHashMapCalls.EndsAlone | cyber/base/atomic_hash_map.h:112-235 | From any point of Has, Get or Set, however outdated what it has loaded, an undisturbed call returns after a number of accesses bounded by the size of the table plus five |
| BucketMask.MaskIsBucket | cyber/base/atomic_hash_map.h:46-49 | `key & mode_num_`, bit by bit on the key as a 64-bit number, is the bucket that the model uses, for every power-of-two table size and also for negative keys |
| AtomicHashMapTheorems.CellsAreWrittenOnce | cyber/base/atomic_hash_map.h:82-98 | Stored values are never overwritten in place and published entries are never unlinked or moved to another key |
| AtomicHashMapTheorems.BucketShape | cyber/base/atomic_hash_map.h:147-235 | In every reachable state each bucket's list is finite, strictly increasing by key, and holds exactly the table's keys of that bucket, once each |
| AtomicHashMapTheorems.KeysFromShape | cyber/base/atomic_hash_map.h:125-145 | Following `next` from any published entry visits, in strictly increasing order, exactly the published keys behind it |
| AtomicHashMapSpec.PlaceIsFree | cyber/base/atomic_hash_map.h:164-167 | When the linking CAS succeeds the key is absent, so racing inserts of one key link one entry |
| AtomicHashMapSpec.LinkShape | cyber/base/atomic_hash_map.h:163-171 | Linking an entry keeps the list sorted and complete |
| AtomicHashMapTheorems.LinkRefines | cyber/base/atomic_hash_map.h:163-171 | The linking CAS adds exactly the caller's key, which was absent, with the caller's value |
| AtomicHashMapTheorems.UpdateRefines | cyber/base/atomic_hash_map.h:153-161 | The CAS on value_ptr replaces exactly the value of the caller's key |
| AtomicHashMapTheorems.DiscardedNeverVisible | cyber/base/atomic_hash_map.h:156-170 | Right after the CAS no entry of the table leads to the entry, or has the value, that Insert is about to delete |
| AtomicHashMapDiscard.DiscardedNeverUsed | cyber/base/atomic_hash_map.h:156-170 | In every state after the CAS, whatever runs later, no thread and no other entry names the entry or the value that Insert deletes |
| AtomicHashMapDiscard.GoneForever | cyber/base/atomic_hash_map.h:156-170 | An address that nothing leads to stays so in every later state |
| AtomicHashMapDiscard.RunSecret | cyber/base/atomic_hash_map.h:147-151 | In every reachable state what an Insert in progress has built is known to its own thread only |
| AtomicHashMapTheorems.FailedLinkMeansProgress | cyber/base/atomic_hash_map.h:165-172 | A linking CAS only fails because another thread has linked a key in that very place |
| AtomicHashMapRetries.RetriesArePaid | cyber/base/atomic_hash_map.h:152-174 | Over any interleaving, the CASes of a thread on values and on links that fail are at most the successes of other threads |
| AtomicHashMaps.AtomicHashMap.constructor | cyber/base/atomic_hash_map.h:42 | An empty table with one head entry per bucket |
| AtomicHashMaps.AtomicHashMap.CallHas | cyber/base/atomic_hash_map.h:46-49 | A call of Has starts at the head of the key's bucket |
| AtomicHashMaps.AtomicHashMap.CallGet | cyber/base/atomic_hash_map.h:56-59 | A call of Get starts at the head of the key's bucket |
| AtomicHashMaps.AtomicHashMap.CallSet | cyber/base/atomic_hash_map.h:147-151 | Set builds an entry with its own value, and a second value, before it looks for the key |
| AtomicHashMaps.AtomicHashMap.StepWalk | cyber/base/atomic_hash_map.h:112-145 | One iteration of the traversal is the model's step and keeps the invariant |
| AtomicHashMaps.AtomicHashMap.StepGet | cyber/base/atomic_hash_map.h:237-245 | The load of value_ptr and the copy of the value are the model's steps |
| AtomicHashMaps.AtomicHashMap.StepUpdate | cyber/base/atomic_hash_map.h:153-162 | The load and the CAS of value_ptr are the model's steps and keep the invariant |
| AtomicHashMaps.AtomicHashMap.StepLink | cyber/base/atomic_hash_map.h:163-173 | The store to the new entry and the CAS on prev->next are the model's steps and keep the invariant |
| ObjectPoolTheorems.Linearizable | cyber/base/concurrent_object_pool.h:94-148 | Over every interleaving the answers are those of a sequential stack of free nodes: GetObject never returns a node that a caller holds or is still giving back, and returns null only when no node is free |
| ObjectPoolTheorems.StepRefines | cyber/base/concurrent_object_pool.h:94-148 | One access of any thread is one step of the sequential pool, and keeps the invariant |
| ObjectPoolSpec.PopInv | cyber/base/concurrent_object_pool.h:97-107 | When the pop CAS succeeds the counter guarantees that the `next` read before it is still the head's successor |
| ObjectPoolTheorems.NoNodeLost | cyber/base/concurrent_object_pool.h:94-148 | Free, held and half-released nodes always add up to the arena |
| ObjectPoolTheorems.ChainIsFree | cyber/base/concurrent_object_pool.h:94-148 | The chain from free_head_ has no cycle and consists of exactly the free nodes |
| ObjectPoolTheorems.LoadedAnswers | cyber/base/concurrent_object_pool.h:96-100 | Null is the answer exactly when no node is free at the load of free_head_ |
| ObjectPoolCalls.AnswersOfCalls | cyber/base/concurrent_object_pool.h:94-148 | In every run a GetObject that has returned has taken exactly the node that it returns, or has found none, once; a ReleaseObject that has returned has freed its own node, once |
| ObjectPoolCalls.EndsAlone | cyber/base/concurrent_object_pool.h:94-148 | From any point of either call, however outdated the head that it has loaded, an undisturbed call returns after at most four accesses |
| ObjectPoolTheorems.CountCountsSuccesses | cyber/base/concurrent_object_pool.h:102 | The counter grows by one at each successful CAS and at nothing else |
| ObjectPoolTheorems.PointerAloneIsNotEnough | cyber/base/concurrent_object_pool.h:57-60 | A reachable state in which a pop holds the current head pointer and a successor that a caller holds: without the counter the CAS would free a held node |
| ObjectPoolRetries.RetriesArePaid | cyber/base/concurrent_object_pool.h:94-148 | Over any interleaving, the CASes of a thread on free_head_ that fail, and not spuriously, are at most the successes of other threads |
| ObjectPools.CCObjectPool.constructor | cyber/base/concurrent_object_pool.h:72-78 | The linking loop makes every node free, in arena order, with counter 0 |
| ObjectPools.CCObjectPool.CallGet | cyber/base/concurrent_object_pool.h:111-113 | A thread enters GetObject; nothing shared changes |
| ObjectPools.CCObjectPool.CallRelease | cyber/base/concurrent_object_pool.h:137-140 | A caller starts to give back a node it holds |
| ObjectPools.CCObjectPool.StepGet | cyber/base/concurrent_object_pool.h:94-108 | Each access of FindFreeHead is the model's step and keeps the invariant |
| ObjectPools.CCObjectPool.StepRelease | cyber/base/concurrent_object_pool.h:137-148 | Each access of ReleaseObject is the model's step and keeps the invariant |
| AtomicRWLockTheorems.LockMeaning | cyber/base/atomic_rw_lock.h:61-113 | In every reachable state, also with guards constructed inside guards, lock_num_ is -1 with exactly one writer and no read guard, or the number of read guards with no writer; write_lock_wait_num_ is the number of writers between their add and their sub |
| AtomicRWLockTheorems.Exclusion | cyber/base/atomic_rw_lock.h:61-113 | While a thread is inside a write guard no other thread is inside any guard, nor is that thread inside a read guard |
| AtomicRWLockTheorems.PastNeverGrows | cyber/base/atomic_rw_lock.h:64-76 | While a writer waits on a write-first lock, no reader newly passes the check, and each CAS attempt takes its reader out of those past it |
| AtomicRWLockTheorems.BoundedBypass | cyber/base/atomic_rw_lock.h:64-76 | While writers wait, each reader thread enters at most once and only if it had passed the check before; the number of entries is bounded by the readers that were past it |
| AtomicRWLockTheorems.NoEntryAfterPast | cyber/base/atomic_rw_lock.h:93-109 | Once those readers have had their try, no reader enters before the waiting writer |
| AtomicRWLockCalls.CallsChangeOneGuard | cyber/base/atomic_rw_lock.h:61-113 | In every run a call that has returned has given its thread, or taken from it, exactly the one guard that it is for, counted from when it was made; a call in progress has changed none |
| AtomicRWLockCalls.ReadLockAlone | cyber/base/atomic_rw_lock.h:61-91 | An undisturbed ReadLock enters in three accesses exactly when no writer is inside or, if writers are preferred, waiting; otherwise it is back at its load with the lock unchanged |
| AtomicRWLockCalls.ReadEndsAlone | cyber/base/atomic_rw_lock.h:61-91 | From any point of ReadLock, however outdated its copy of lock_num_, an undisturbed call then enters after at most four accesses |
| AtomicRWLockCalls.WriteLockAlone | cyber/base/atomic_rw_lock.h:93-109 | An undisturbed WriteLock enters in three accesses exactly when the lock is free; otherwise it is counted as waiting and tries again for ever |
| AtomicRWLockCalls.UnlockGivesBack | cyber/base/atomic_rw_lock.h:111-113 | In every state of the invariant the writer's unlock leaves the lock free, and a reader's leaves it to exactly the other read guards |
| AtomicRWLockCalls.LockThenUnlock | cyber/base/atomic_rw_lock.h:61-113 | An undisturbed lock call followed by its unlock leaves the lock and its thread as they were |
| AtomicRWLockNesting.NestedCallReturnsExactly | cyber/base/atomic_rw_lock.h:61-109 | A lock call of a thread that is inside a guard can return, in some continuation, exactly when the thread is not stuck |
| AtomicRWLockNesting.NestedReadReturnsExactly | cyber/base/atomic_rw_lock.h:64-76 | A ReadLock inside a read guard can return exactly unless the lock prefers writers and one is waiting |
| AtomicRWLockNesting.LastChance | cyber/base/atomic_rw_lock.h:64-76 | A nested reader that has passed the check before a preferred writer queued enters with its next try exactly if lock_num_ is still what it loaded, and is stuck otherwise |
| AtomicRWLockNesting.StuckForever | cyber/base/atomic_rw_lock.h:61-109 | A stuck call never returns, in no run, and no writer gets the lock any more |
| AtomicRWLockNesting.StuckExactly | cyber/base/atomic_rw_lock.h:61-109 | Over a whole run a thread is stuck exactly when one of the listed steps was taken: any call inside a write guard, a WriteLock inside a read guard, a ReadLock there that meets a preferred writer, or such a writer that comes while the reader waits |
| AtomicRWLockNesting.ReaderBehindWriterHappens | cyber/base/atomic_rw_lock.h:64-76 | A reachable run in which a nested reader and a writer wait for each other |
| AtomicRWLocks.AtomicRWLock.Call | cyber/base/atomic_rw_lock.h:61-96 | A thread starts to construct a guard |
| AtomicRWLocks.AtomicRWLock.ReadLockStep | cyber/base/atomic_rw_lock.h:61-91 | Each access of ReadLock, with or without write_first_, is the model's step and keeps the invariant |
| AtomicRWLocks.AtomicRWLock.WriteLockStep | cyber/base/atomic_rw_lock.h:93-109 | Each access of WriteLock is the model's step and keeps the invariant |
| AtomicRWLocks.AtomicRWLock.ReadUnlock | cyber/base/atomic_rw_lock.h:111 | Takes one reader off the counter |
| AtomicRWLocks.AtomicRWLock.WriteUnlock | cyber/base/atomic_rw_lock.h:113 | Frees the lock of its writer |
| ReentrantRWLockTheorems.NestedExclusion | cyber/base/reentrant_rw_lock.h:64-136 | While a thread is inside d >= 1 nested write guards lock_num_ <= -d and no other thread is inside any guard, with the add and the id clear of WriteUnlock as separate steps |
| ReentrantRWLockTheorems.ExactCount | cyber/base/reentrant_rw_lock.h:64-136 | lock_num_ is exactly the counted read guards, minus the holder's nested write guards, minus the counts that were taken off too often |
| ReentrantRWLockTheorems.FreeAgainIffNoLeak | cyber/base/reentrant_rw_lock.h:125-136 | When every guard is gone the lock is free again exactly when no count was taken off too often |
| ReentrantRWLockTheorems.LeakIsThatFetchSub | cyber/base/reentrant_rw_lock.h:125-130 | A count is taken off too often exactly when the write holder reaches the fetch_sub of ReadUnlock, which happens only with its id erased |
| ReentrantRWLockTheorems.LeakedExactly | cyber/base/reentrant_rw_lock.h:125-130 | Over a whole run nothing leaked exactly when the write holder never took that branch |
| ReentrantRWLockCalls.CallsChangeOneGuard | cyber/base/reentrant_rw_lock.h:64-136 | In every run a call that has returned has pushed onto, or popped from, the stack of guards of its thread exactly the one guard that it is for, counted from when it was made; a lock call in progress has changed none |
| ReentrantRWLockCalls.ReadLockAlone | cyber/base/reentrant_rw_lock.h:64-99 | An undisturbed ReadLock of the thread whose id is on the lock changes nothing but its guards; any other is counted in one round exactly when nothing keeps readers out, and is back at its load with the lock unchanged otherwise |
| ReentrantRWLockCalls.WriteLockAlone | cyber/base/reentrant_rw_lock.h:101-123 | An undisturbed WriteLock of the thread whose id is on the lock goes one deeper; any other gets the free lock with its id, or waits for ever if the lock is not free |
| ReentrantRWLockCalls.UnlockAlone | cyber/base/reentrant_rw_lock.h:125-136 | The whole effect of an undisturbed unlock, for a read or a write guard innermost, at every depth |
| ReentrantRWLockCalls.WriteLockThenUnlock | cyber/base/reentrant_rw_lock.h:101-136 | An undisturbed WriteLock and its unlock leave the lock free and without an id, or, nested, at the depth and with the id that it had |
| ReentrantRWLockCalls.ReadLockThenUnlock | cyber/base/reentrant_rw_lock.h:64-130 | An undisturbed ReadLock and its unlock leave the lock and its thread as they were |
| ReentrantRWLockTheorems.WithoutNestedReads | cyber/base/reentrant_rw_lock.h:64-136 | If no read guard is constructed inside a write guard, no count is taken off too often |
| ReentrantRWLockTheorems.FreeAgainWithoutNestedReads | cyber/base/reentrant_rw_lock.h:64-136 | Then the lock is free in every state in which all guards are gone; it does not say that this state is reached |
| ReentrantRWLockWaiters.WaitMeaning | cyber/base/reentrant_rw_lock.h:109-122 | In every run write_lock_wait_num_ is the number of writers between their add and their sub |
| ReentrantRWLockNesting.NestedCallReturnsExactly | cyber/base/reentrant_rw_lock.h:64-120 | A lock call of a thread that is inside a guard can return, in some continuation, exactly when the thread is not stuck; the only place left out is that of LastChance |
| ReentrantRWLockNesting.HolderReturnsExactly | cyber/base/reentrant_rw_lock.h:64-106 | A lock call of the write holder can return exactly when write_thread_id_ is its own at the test |
| ReentrantRWLockNesting.NestedReadReturnsExactly | cyber/base/reentrant_rw_lock.h:69-84 | A ReadLock inside a counted read guard can return exactly unless the lock prefers writers and one is waiting |
| ReentrantRWLockNesting.NestedReadEntersAlone | cyber/base/reentrant_rw_lock.h:70-84 | Then, and only then, it enters with its own next three steps from its load of lock_num_ |
| ReentrantRWLockNesting.LastChance | cyber/base/reentrant_rw_lock.h:73-84 | A nested reader that has passed the check before a preferred writer queued enters with its next try exactly if lock_num_ is still what it loaded, and is stuck otherwise |
| ReentrantRWLockNesting.StuckForever | cyber/base/reentrant_rw_lock.h:64-120 | A stuck call never returns, in no run: its thread keeps its guards and waits, the lock is lost for every writer, and after a nested call of the write holder for every reader too |
| ReentrantRWLockNesting.StuckExactly | cyber/base/reentrant_rw_lock.h:64-136 | Over a whole run a thread is stuck exactly when one of the listed steps was taken: the write holder calls without its id, or its id is cleared before the test; a counted reader calls WriteLock, or calls ReadLock while a preferred writer waits, or fails its CAS then; or a writer queues while it is in front of the check |
| ReentrantRWLockNesting.ReaderBehindWriter | cyber/base/reentrant_rw_lock.h:71-120 | A nested reader and the preferred writer it waits for: neither of them ever gets on |
| ReentrantRWLockNesting.WriterWaitsForReader | cyber/base/reentrant_rw_lock.h:109-120 | The preferred writer that a counted reader is stuck behind is at its CAS and waits for that reader |
| ReentrantRWLockNesting.SelfDeadlockHappens | cyber/base/reentrant_rw_lock.h:101-136 | A reachable run without any read guard in which the write holder waits forever for its own guard, with no count taken off too often |
| ReentrantRWLockNesting.UpgradeHappens | cyber/base/reentrant_rw_lock.h:101-120 | A reachable run in which a thread is stuck in WriteLock inside its own read guard |
| ReentrantRWLockNesting.ReaderBehindWriterHappens | cyber/base/reentrant_rw_lock.h:71-84 | A reachable run in which a nested reader is stuck behind a waiting writer |
| ReentrantRWLockNesting.MergedNestedCallsReturn | cyber/base/reentrant_rw_lock.h:132-136 | If the add and the clear of WriteUnlock were one step, write_thread_id_ would be the holder's at every nested call, and none would get stuck |
| ReentrantRWLockProgress.WithoutNestingInWrite | cyber/base/reentrant_rw_lock.h:64-136 | A thread that constructs no guard of either kind inside a write guard is never stuck there, and whenever it has the lock no count has been taken off too often, whatever other threads do |
| ReentrantRWLockProgress.HolderLeaves | cyber/base/reentrant_rw_lock.h:121-136 | Such a holder gives the lock back with at most four steps of its own over any interleaving, and the lock is free at that moment |
| ReentrantRWLockProgress.EverybodyCanFinish | cyber/base/reentrant_rw_lock.h:64-136 | If no guard is constructed inside a guard, or only read guards inside read guards on a lock that does not prefer writers, then after any run every thread can finish what it has begun, which leaves the lock free and no writer waiting: nobody is ever stuck |
| ReentrantRWLockTheorems.MergedUnlockIsExact | cyber/base/reentrant_rw_lock.h:132-136 | If the add and the clear of WriteUnlock were one step, nothing would leak, lock_num_ would be exactly -d, and write_thread_id_ would name the holder once its WriteLock has returned |
| ReentrantRWLockTheorems.OutermostUnlockFrees | cyber/base/reentrant_rw_lock.h:132-136 | With that one step the outermost unlock would restore 0 and clear the id |
| ReentrantRWLockTheorems.LossHappens | cyber/base/reentrant_rw_lock.h:125-136 | A reachable run with properly nested guards, all released, that ends with lock_num_ at -1 |
| ReentrantRWLockTheorems.LostForever | cyber/base/reentrant_rw_lock.h:64-136 | After such a loss, once the holder has left, no call of ReadLock or WriteLock ever gets a guard again |
| ReentrantRWLocks.ReentrantRWLock.constructor | cyber/base/reentrant_rw_lock.h:56-61 | A free lock without a writer's id |
| ReentrantRWLocks.ReentrantRWLock.Guarded | cyber/base/reentrant_rw_lock.h:48-54 | A guard is constructed, or the innermost one of the thread is destroyed |
| ReentrantRWLocks.ReentrantRWLock.ReadLockStep | cyber/base/reentrant_rw_lock.h:64-99 | Each access of ReadLock, nested or not, is the model's step and keeps the invariant |
| ReentrantRWLocks.ReentrantRWLock.WriteLockStep | cyber/base/reentrant_rw_lock.h:101-123 | Each access of WriteLock, nested or not, is the model's step and keeps the invariant |
| ReentrantRWLocks.ReentrantRWLock.ReadUnlockStep | cyber/base/reentrant_rw_lock.h:125-130 | The id test and the fetch_sub are the model's steps and keep the invariant |
| ReentrantRWLocks.ReentrantRWLock.WriteUnlockStep | cyber/base/reentrant_rw_lock.h:132-136 | The fetch_add and the id clear are two of the model's steps and keep the invariant |
| Channels.CacheBuffer.constructor | cyber/data/cache_buffer.h:20-23 | An empty ring of size + 1 slots |
| Channels.CacheBuffer.Fill | cyber/data/cache_buffer.h:46-55 | Both branches append the value at logical position tail + 1; every visible position still reads back its filled value |
| Channels.CacheBuffer.At | cyber/data/cache_buffer.h:33-34 | From max(1, head_) to tail_, a position reads back the value that was filled there |
| Channels.CacheBuffer.GetIndex | cyber/data/cache_buffer.h:61 | Returns the ring slot of a position |
| Channels.ChannelBuffer.Fetch | cyber/data/channel_buffer.h:57-78 | Answers false exactly on an empty ring or for a reader that is caught up; otherwise returns the position and the value filled there, and the dropped interval it reports |
| Channels.ChannelBuffer.Latest | cyber/data/channel_buffer.h:80-89 | Returns the newest value, if there ever was one |
| Channels.ChannelBuffer.FetchMulti | cyber/data/channel_buffer.h:91-106 | Appends exactly the last min(Size, fetch_size) values, oldest first |
| Visitors.DeliveryAccounts | cyber/data/data_visitor.h:107-113 | Over any interleaving of fills and fetches delivered positions strictly increase, each value is the one filled at its position, and next_msg_index_ - 1 equals (first position - 1) + deliveries + the sum of reported drop intervals |
| Visitors.GapExactlyOnOverflow | cyber/data/channel_buffer.h:69-75 | There is a gap exactly when the backlog exceeds the configured size; then the newest message is delivered and the others of the backlog are reported |
| Visitors.FirstFetchIsNewest | cyber/data/channel_buffer.h:65-66 | A visitor that has read nothing yet gets the newest message, and nothing is reported as dropped |
| Visitors.NothingExactlyWhenCaughtUp | cyber/data/channel_buffer.h:61-68 | A fetch fails exactly when everything filled so far was delivered or dropped |
| Visitors.Drains | cyber/data/data_visitor.h:107-113 | With no fills, draining ends after a computed number of successes, at most `size` for a ring of at least one message, having delivered that many |
| Visitors.DataVisitor.constructor | cyber/data/data_visitor_base.h:46 | The cursor starts at 0 |
| Visitors.DataVisitor.TryFetch | cyber/data/data_visitor.h:107-113 | One TryFetch on the real cursor and ring is the model's step; the caller's message changes exactly on success |
| DispatchSpec.FanOut | cyber/data/data_dispatcher.h:59-90 | Over any sequence of atomic calls, a live ring has received exactly the messages dispatched on its channel since its registration and before shutdown, in order |
| DispatchSpec.StepFills | cyber/data/data_dispatcher.h:72-90 | Each call adds to a registered live ring exactly what it adds to its channel's log |
| DispatchSpec.StaysAsItWas | cyber/data/data_dispatcher.h:75-85 | A ring whose owner is gone, and after shutdown every ring, is never filled again, in no run |
| Dispatchers.DataDispatcher.AddBuffer | cyber/data/data_dispatcher.h:59-70 | Registers the ring behind those of its channel, or as the first one; all other rings and lists are unchanged |
| Dispatchers.DataDispatcher.FillAll | cyber/data/data_dispatcher.h:80-85 | The loop fills every ring that still locks once and no other |
| Dispatchers.DataDispatcher.FillChannel | cyber/data/data_dispatcher.h:79-85 | The rings of the channel are filled, those of other channels are not |
| Dispatchers.DataDispatcher.Dispatch | cyber/data/data_dispatcher.h:72-90 | Fills the live rings of the channel, then invokes exactly the callbacks of the channel that are set, once each in order, each of them in the state in which all rings are filled; answers false without any effect after shutdown or on a channel without rings, and false after the fills on one without notifiers |
| Dispatchers.DataNotifier.AddNotifier | cyber/data/data_notifier.h:61-71 | Registers the notifier behind those of its channel, or as the first one |
| Dispatchers.DataNotifier.Notify | cyber/data/data_notifier.h:73-84 | Invokes exactly the callbacks that are set, once each, at strictly increasing places of the channel's list; answers whether the channel is known |
| MessagePath.DeliversTheChannelInOrder | cyber/data/data_visitor.h:107-113 | From Dispatch to TryFetch: a one-channel visitor delivers a subsequence of the messages dispatched on its channel since its registration, at strictly increasing positions, with the rest accounted for as dropped |
| WakeUpTheorems.NoLostWakeUp | cyber/croutine/routine_factory.h:58-66 | If an unfetched message is buffered and no thread is between its Fill and the end of its callback, the routine is READY, or runs before its TryFetch or after a successful one, or waits with updated_ clear, or waits while a processor has just found it clear and is about to make it READY |
| WakeUpTheorems.OneProcessor | cyber/croutine/croutine.h:199-205 | At most one processor is anywhere between Acquire and Release of the routine |
| WakeUpTheorems.WakeUpDelivers | cyber/croutine/routine_factory.h:58-66 | From such a state, over any interleaving of processors and dispatching threads, a message is fetched with exactly the computed number, at most nine, of processor steps that are not failed attempts to take the routine |
| WakeUpTheorems.OneCloser | cyber/croutine/croutine.h:178-193 | Every one of those steps comes exactly one closer to the fetch and loses neither the message nor the wake-up |
| WakeUpTheorems.OthersDoNotHinder | cyber/croutine/croutine.h:199-209 | Dispatching threads and failed attempts to take the routine change nothing about that |
| WakeUpReads.RoutineIsAVisitor | cyber/croutine/routine_factory.h:58-66 | Over any run the routine's fetches are, one by one, those of a visitor whose ring the dispatching threads fill: same cursor, same log, same number of deliveries |
| WakeUpReads.FetchesEachOnce | cyber/croutine/routine_factory.h:58-66 | Over any run the routine has fetched exactly as many different messages as fetches succeeded, in increasing order, all of them filled by then |
| WakeUpReads.CallsBackForEachFetch | cyber/croutine/routine_factory.h:58-66 | Over any run the callback has run exactly once for each successful fetch, but for one that it has yet to follow |
| WakeUpSpec.DispatcherInv | cyber/scheduler/policy/scheduler_classic.cpp:171-174 | A callback that clears the flag at least when it reads DATA_WAIT keeps the invariant, wherever the routine is meanwhile |
| WakeUpSpec.ProcessorInv | cyber/croutine/croutine.h:178-193 | UpdateState, Resume, the routine's loop and Release keep the invariant |
| Routines.CRoutine.constructor | cyber/croutine/croutine.cpp:66-68 | A new routine is READY with its flag set, and nobody has it |
| Routines.CRoutine.Acquire | cyber/croutine/croutine.h:199-201 | Succeeds exactly when nobody has the routine, and takes it |
| Routines.CRoutine.UpdateState | cyber/croutine/croutine.h:186-192 | The flag is tested and set; a routine that waits for data becomes READY exactly if the flag was clear |
| Routines.CRoutine.Resume | cyber/croutine/croutine.cpp:79-82 | Only a READY routine is switched to |
| Routines.CRoutine.Loop | cyber/croutine/routine_factory.h:58-66 | Each access of the routine's loop, from set_state to Yield, is the model's step and keeps the invariant |
| Routines.CRoutine.Release | cyber/scheduler/processor.cpp:87-88 | The routine is given back after it was resumed |
| Routines.CRoutine.Dispatch | cyber/data/data_dispatcher.h:79-89 | A dispatching thread fills the ring, then its callback reads the state and clears the flag |
| AsyncLoggerTheorems.NothingLostOrReordered | cyber/logger/async_logger.cpp:74-115 | At every step the messages handed over, the rest of the flushing buffer and the active buffer together are the accepted messages in order |
| AsyncLoggerTheorems.FilesByModule | cyber/logger/async_logger.cpp:149-166 | Each module's file has got, in order, exactly the messages for it among those handed over, with the bracket erased |
| AsyncLoggerPromises.FilesAsMeant | cyber/logger/async_logger.cpp:74-166 | In every run the file of each module contains, in the order in which they were logged, exactly the handed-over messages that name it in their first bracket, without that bracket, and the process group's file also those without one; said without the search that the code makes |
| AsyncLoggerPromises.AcceptedAreLogged | cyber/logger/async_logger.cpp:74-115 | In every run the accepted messages are exactly those logged while the logger ran and the buffer did not look full, forced or not; running means after Start and before Stop |
| AsyncLoggerPromises.HandsOverToModule | cyber/logger/async_logger.cpp:149-166 | Handing over prefix + "[" + name + "]" + rest appends prefix + rest to the file of `name`, or of the process group if it is empty, and changes no other file |
| AsyncLoggerPromises.HandsOverToGroup | cyber/logger/async_logger.cpp:149-166 | Handing over a message without a closed bracket appends it unchanged to the process group's file and changes no other file |
| AsyncLoggerPromises.WriteGoesThere | cyber/logger/async_logger.cpp:150-165 | One message changes one file only; above level 0 that file is flushed, at or below it its flushed part stays |
| AsyncLoggerPromises.EndsRound | cyber/logger/async_logger.cpp:168-173 | After the last message of a round every file is flushed to its end exactly if the buffer asked for it, no file gets anything more, and the buffer is empty again |
| AsyncLoggerPromises.MessagesGetOut | cyber/logger/async_logger.cpp:136-173 | Whatever other threads do, every accepted message is handed to its file by the time the background thread has made the computed number of steps, at most two more than there are messages before it |
| AsyncLoggerTheorems.FlushGuarantee | cyber/logger/async_logger.cpp:117-132 | When Flush returns because two more rounds were counted, every message accepted before it took the lock is in its module's file and was flushed there afterwards, wherever the background thread was when Flush started |
| AsyncLoggerTheorems.FlushUnlessStopped | cyber/logger/async_logger.cpp:117-132 | In every run, as long as nobody has stopped the logger, the same holds of every Flush that has returned, for whatever reason |
| AsyncLoggerPromises.FlushKeepsPromise | cyber/logger/async_logger.cpp:117-132 | In every run, a Flush called on a running logger that has returned while nobody has stopped the logger has everything that was logged before the call in the files of its modules, and flushed |
| AsyncLoggerPromises.FlushOfStopped | cyber/logger/async_logger.cpp:118-122 | On a logger that does not run Flush returns at once and changes nothing |
| AsyncLoggerTheorems.StoppedFlushBreaksIt | cyber/logger/async_logger.cpp:127 | A run in which Stop comes while Flush waits: Flush returns and the message accepted before it is not even handed over |
| AsyncLoggerTheorems.OneRoundIsNotEnough | cyber/logger/async_logger.cpp:124-127 | A run in which one round after the call the message is not even handed over: waiting for two rounds is needed |
| AsyncLoggerSpec.CountKeepsFlush | cyber/logger/async_logger.cpp:175-177 | Counting a round leaves each waiting caller safe already, or with its messages in the buffer that is being written and will be flushed |
| AsyncLoggerTheorems.BackgroundAdvances | cyber/logger/async_logger.cpp:136-179 | While a Flush waits unnotified, each step of the background thread counts a round or comes closer to it: it cannot fall asleep on a waiting Flush |
| AsyncLoggerTheorems.OthersDoNotDelay | cyber/logger/async_logger.cpp:74-132 | No other thread moves it away from there |
| AsyncLoggerTheorems.FlushReturns | cyber/logger/async_logger.cpp:124-131 | Over any interleaving a waiting Flush has returned once the background thread had the steps of a round and the caller woke up, twice |
| AsyncLoggerTheorems.StaysServed | cyber/logger/async_logger.cpp:136-147 | Once a flush is asked for, the background thread cannot fall asleep or end before it has counted a round, in no run |
| AsyncLoggerTheorems.RoundEnds | cyber/logger/async_logger.cpp:149-178 | A round is counted after exactly the steps that were left when it is looked at, whatever other threads do or log meanwhile |
| AsyncLoggerTheorems.UrgentAreFlushed | cyber/logger/async_logger.cpp:161-165 | A message above level 0 is flushed, with all before it in its file, as soon as it is handed over |
| AsyncLoggerTheorems.ForcedAreFlushed | cyber/logger/async_logger.cpp:138-143 | The background thread never waits or ends on a message written with force_flush, or on one that was there when its wait ran out of time: unless a flush is already asked for, all messages up to the last such one are in their files and flushed |
| AsyncLoggerTheorems.CleanStop | cyber/logger/async_logger.cpp:61-72 | When the background thread has ended both buffers are empty and every accepted message was handed over |
| AsyncLoggerTheorems.ChecksHold | cyber/logger/async_logger.cpp:53-72 | The process aborts exactly on Start of a started logger or Stop of one that does not run; the two checks at the end of Stop never fail |
| AsyncLoggerTheorems.StopEnds | cyber/logger/async_logger.cpp:136-179 | After Stop the background thread ends after exactly the computed number of its own steps, whatever other threads do, as long as nobody calls Start or Stop again |
| AsyncLoggerSpec.BufferStep | cyber/logger/async_logger.cpp:136-179 | Every step keeps the order of accepted messages across the two buffers, also when they are swapped |
| AsyncLoggers.Buffer.Add | cyber/logger/async_logger.h:140-145 | Appends the message, keeps the size estimate the sum over the messages, and remembers a forced flush |
| AsyncLoggers.Buffer.Clear | cyber/logger/async_logger.h:134-138 | Empties the buffer |
| AsyncLoggers.AsyncLogger.constructor | cyber/logger/async_logger.cpp:35-43 | Two empty buffers; a maximum that is not positive is replaced by two megabytes |
| AsyncLoggers.AsyncLogger.BufferFull | cyber/logger/async_logger.cpp:181-184 | A buffer looks full exactly when the estimate over its messages exceeds half of the maximum |
| AsyncLoggers.EstimateAdds | cyber/logger/async_logger.h:140-145 | The size estimate is additive, and for one message the size of a bare one plus its text |
| AsyncLoggers.LevelsByLetter | cyber/logger/async_logger.cpp:86-110 | Fatal messages have level 3, errors 2, warnings 1, information 0, and any other first letter or none -1 |
| AsyncLoggers.AsyncLogger.Start | cyber/logger/async_logger.cpp:53-59 | Runs an initialized logger and starts its thread; aborts on any other state |
| AsyncLoggers.AsyncLogger.Stop | cyber/logger/async_logger.cpp:61-67 | Stops a running logger; aborts on any other state |
| AsyncLoggers.AsyncLogger.Join | cyber/logger/async_logger.cpp:68-71 | After the join both checks pass |
| AsyncLoggers.AsyncLogger.Write | cyber/logger/async_logger.cpp:74-115 | A running logger whose buffer did not look full accepts the message with the level of its first letter; otherwise nothing changes |
| AsyncLoggers.AsyncLogger.Flush | cyber/logger/async_logger.cpp:117-132 | Waits exactly on a running logger, having asked for a flush, with the current round as start and all messages accepted so far to be flushed; returns at once otherwise |
| AsyncLoggers.AsyncLogger.FlushWake | cyber/logger/async_logger.cpp:127-131 | A woken caller tests again, asks again and waits, or returns |
| AsyncLoggers.AsyncLogger.RunLocked | cyber/logger/async_logger.cpp:137-147 | The stretch of RunThread under the mutex is the model's step: it waits, ends, or swaps the two buffers |
| AsyncLoggers.AsyncLogger.RunUnlocked | cyber/logger/async_logger.cpp:149-173 | Between two locks each message goes to its file; after the last one the files are flushed if asked and the buffer is cleared |
| AsyncLoggers.AsyncLogger.WriteOut | cyber/logger/async_logger.cpp:150-165 | One message, without its bracket, is appended to the file of the module that the bracket names, which is flushed at once for a level above 0; no other file changes |
| LoggerUtil.RouteFindsTheName | cyber/logger/logger_util.h:65-78 | prefix + "[" + name + "]" + rest goes to the module `name` (the process group if it is empty) as prefix + rest, for every prefix without '[' and name without ']' |
| LoggerUtil.UntouchedExactlyWithoutBracket | cyber/logger/logger_util.h:65-78 | A message stays as it is exactly when it is not of that form; then the name given before, or else the process group, is used |
| LoggerUtil.OneReading | cyber/logger/logger_util.h:65-78 | A message can be read as prefix, bracketed name and rest in one way only |
| LoggerUtil.RouteIsMeant | cyber/logger/logger_util.h:65-78 | The searches find exactly the name and the text of that reading |
| LoggerUtil.FindModuleName | cyber/logger/logger_util.h:65-78 | The searches and the erase through the two pointers compute exactly that |
| LoggerUtil.Find | cyber/logger/logger_util.h:66-68 | Returns the first place of a character at or after a start |

## Left out

- Weak memory orders: all models are sequentially consistent.
- Counter wrap-around: tickets, positions, rounds and the pool's counter are unbounded, and so are lock_num_ and write_lock_wait_num_.
- Yields and retry counts of the spin loops, which do not touch the locks' state.
- BoundedQueue::Size, Empty, Head, Tail and Commit as concurrent calls (two separate loads), WaitEnqueue, WaitDequeue, the wait strategies and the failure of calloc in Init.
- The pointer-returning Get of the hash map, whose pointer is not followed after it returns, and Set without a value, which is Set of a default value.
- Addresses in the hash map: entries and values live at addresses from a counter that are never reused, because nothing that was ever visible is deleted; the leak of replaced values and the destructors are not modelled.
- ConstructAll and ConstructObject of the object pool (they take nodes the same way), the objects inside the nodes and the pool's lifetime; the capacity is at least 1.
- Locks used without guards, and guards of the reentrant lock that are not destroyed in LIFO order.
- AddBuffer racing with a Dispatch in progress, and concurrent dispatches on several rings of one channel: each call is one step.
- Dispatchers.DataDispatcher.AddBuffer: demands a ring that is not registered yet, and so leaves out that a ring registered twice gets each message twice; the visitors' constructors register each ring once.
- Visitors of several channels and the fusion of their messages; the constructors of DataVisitor, whose registrations are the AddBuffer and AddNotifier calls of the model.
- Scheduling: which routine a processor picks, notification of idle processors, sleeping and stopped routines (SLEEP, IO_WAIT and force_stop_), context switches, and messages taken by a callback itself.
- The logger's look at the buffer size before the lock, which may be outdated: a message is dropped or not as it may be; overflow of the size estimate.
- Log files: LogFileObject is a list of entries with a flushed length; its rotation, its own buffer and its failures are not modelled. The map of module files belongs to one logger.
- The destructor of the logger, which calls Stop a second time; condition variables beyond being woken at any time, and the notification of the background thread, whose wait ends by itself after two seconds.
- An empty log message is taken to have no level letter.
- cyber/base/atomic_fifo.h, unbounded_queue.h, object_pool.h, signal.h, thread_safe_queue.h and thread_pool.h, timers, transport, class loading, files and the command line.
