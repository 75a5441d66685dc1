# Verification of the queue stack, the channel I/O and the priority mutex

Everything in the repository that moves messages between threads rests on a lock-free queue with many
producers and consumers, a semaphore that announces its elements, and a few classes of the repository's
own: a mutex that is meant to favour exclusive access, and the byte-level send and receive paths of a
channel. This project models them in Dafny and proves what they keep.

Three forms are used.

* **Transition systems** for code that many threads run at once: a state, one action per atomic operation,
  any number of threads and any interleaving. A property holds "in every run" when it is proved of the
  last, or of every, state of an arbitrary `run` with `IsRun(run, actions)`. These are `FreeList`,
  `Tickets`, `ExplicitRuns` (an explicit producer's queue together with its consumers), `Semaphore`,
  `BlockingQueue`, `ProducerHash` with `HashRoom`, `HashTrap` and `HashCalls`, `PriorityMutex`,
  `ChannelInput` and `ChannelOutput`. Lemmas about a lone call say what it comes to when nothing is
  interleaved; the others hold for every interleaving.
* **Classes** for data structures that one thread changes in place: `ExplicitProducer` (block ring and
  circular index), `ImplicitIndex` and `ImplicitProducer` (block index with shared entries, single and bulk
  enqueue and dequeue), `Block` (completion flags and counter), `TokenDequeue` (consumer tokens) and
  `StreamQueue`. Each method is proved against a pure function of the old state, in the larger ones on a
  value-typed view of the object (`View() == F(old(View()))`).
* **Functions, loops and lemmas** for arithmetic: `WrapAround`, `Indices`, `Counting`, `Basics`.

Element indices are unbounded integers in all modules but `WrapAround`, which relates the 64-bit word expressions of
the program (`circular_less_than`, the signed block offset, `blockBaseDiff`, the enqueue guard) to them.

## What fails, and exactly when

Some properties the code or its comments promise do not hold. Each has a concrete counterexample and the
exact condition under which the code does keep it.

* **Reader/writer intent of the mutex.** The fast path never looks at `exclusiveCount_`:
  `ReaderDuringExclusiveHold` is a run in which a reader is let in during an exclusive hold. A step keeps
  readers and writers apart if and only if it is no fast-path admission while a writer is in or about to
  be (`ExclusionStep`). `exclusiveWaiting_` is never raised, so a writer can sleep on a free mutex
  (`WriterSleepsOnFreeMutex`), and while it sleeps no reader gets in (`SleepingWriterBlocksReaders`).
* **`MAX_SUBQUEUE_SIZE` of an explicit producer.** Reusing an empty block of the ring asks no guard:
  `LimitExceeded` ends with three elements where two are allowed. `LimitKeptExactly` is the condition for
  an enqueue, and `LimitHoldsExactly` for a run. The implicit producer always asks, and keeps the limit
  (`GuardKeepsDistance`).
* **Room in the producer hash.** Every probe loop relies on an empty slot, and the one counter on bounding
  what each table has and has yet to take in. A thread with an outdated `mainHash` that reuses a tombstone
  takes one off the counter although a newer table has yet to take the thread over; `MarginStep` shows
  that this is the only kind of step that loses anything. In every run the bounds are off by at most
  the number of such steps (`RoomForAll`), so probing ends while there were no more of them than the quota of
  three quarters leaves free (`ProbingEnds`). With one more it need not: `EndlessProbe` is, for every first
  table of sixteen slots or more, a run at whose end the newest table is full and a lookup in it never ends.
  A lookup gets through a table if and only if the table has an empty slot or the id (`LookingEndsExactly`).
* **Complete messages.** The loop of `sendBytes` compares the last result, as an unsigned number, with what
  is left, so `EWOULDBLOCK`, or a round that takes half of the rest or more, can end it early. `CutShort` is a
  run in which the next message then follows on the wire, with the channel still active. `CompleteInRun` says
  for every message of every run when it is complete.
* **Aligned input.** A chunk received while the socket is stopped is dropped; if the socket is started again
  under the same channel, the stream continues behind a gap (`RestartLeavesGap`). The states of a run are
  aligned if and only if no step drops a chunk (`AlignedExactly`).
* **Shares of rotating tokens.** A token that has a producer follows the offset that all tokens share also
  past 2^32 (`StaysHome`). A new one is put where the 32-bit number says, which is the producer that its
  initial offset and the true number of rotations name if and only if the number of producers divides the
  rotations that the word has lost (`FreshHome`). Three do not divide 2^32 (`FreshAstray`).
* **`dequeueAsVec`** counts in eight bits: it equals `dequeue` for all contents if and only if the maximum is
  at most 255 or at most 256 bytes are queued (`VecSupportedRange`).

## Model

| member | source | states |
|---|---|---|
| FreeList.RunIsSafe | shared/queue_internal/concurrentqueue.h:1459-1538 | In every run the list has no node twice; each node's low 31 reference bits are its list membership plus the references threads hold; one thread at most decides about a node; an exchange in `try_get` that succeeds installs the true successor, so there is no ABA; every added node not since taken is listed or some thread is obliged to list it |
| FreeList.HandedOutOnce | shared/queue_internal/concurrentqueue.h:1490-1497 | The node that `try_get` returns is owned by nobody, and no other thread returns, adds or publishes it |
| FreeList.NothingOnlyIfEmpty | shared/queue_internal/concurrentqueue.h:1473-1510 | In every run `try_get` returns null only if the list was empty at some time during the call |
| FreeList.LoneTryGet | shared/queue_internal/concurrentqueue.h:1473-1510 | With no other call in flight, `try_get` hands out the first node and leaves the rest, or nothing if the list is empty |
| FreeList.LoneAdd | shared/queue_internal/concurrentqueue.h:1459-1471 | With no other call in flight, `add` puts its node in front of the list |
| FreeList.QuiescentList | shared/queue_internal/concurrentqueue.h:1459-1538 | With no call in flight the list is exactly the nodes added less those taken, each with one reference |
| FreeList.InvStep | shared/queue_internal/concurrentqueue.h:1459-1538 | Every atomic step of every thread keeps the invariant with the ghost roles it assigns |
| FreeList.ExchangeSafe | shared/queue_internal/concurrentqueue.h:1484-1498 | Whenever a thread is about to exchange the head and would succeed, the value it read is still the successor |
| FreeList.SoleDeciderSafe | shared/queue_internal/concurrentqueue.h:1512-1538 | At most one thread is inside `add_knowing_refcount_is_zero` for a node, or otherwise has it to itself |
| Tickets.HeadNeverPassesTail | shared/queue_internal/concurrentqueue.h:1954-2052 | For any mix of single and bulk consumers with stale overcommits, claims granted so far fit below the tail |
| Tickets.QuiescentCounters | shared/queue_internal/concurrentqueue.h:2779-2879 | With no dequeue in flight, optimistic count less overcommit equals the head index |
| Tickets.LoneDequeue | shared/queue_internal/concurrentqueue.h:2550-2619 | A dequeue that meets no other takes exactly what there is, up to its maximum |
| Tickets.RecheckGets | shared/queue_internal/concurrentqueue.h:2257-2269 | With all earlier tickets decided and counted in its overcommit, a consumer gets the smaller of its tickets and what the earlier ones leave below the tail, and gives the others back |
| Tickets.LastTicketGets | shared/queue_internal/concurrentqueue.h:1979-2003 | In every run, with all others idle, a consumer with the last tickets and a current overcommit gets the smaller of its tickets and what is left, however much others took since it looked |
| Tickets.GivesUpOnlyIfTaken | shared/queue_internal/concurrentqueue.h:1954-1962 | A dequeue comes back without a ticket only if the tickets drawn by then, less the overcommit it saw, were as many as the elements it saw before |
| Tickets.CoveredBound | shared/queue_internal/concurrentqueue.h:1979-2003 | The counting argument: if every granted ticket less the failures up to it is below the tail, so is the number of grants |
| Tickets.InvStep | shared/queue_internal/concurrentqueue.h:1954-2052 | Every step keeps the ticket history in agreement with the four counters |
| Semaphore.PermitsConserved | shared/queue_internal/lightweightsemaphore.h:278-418 | Initial plus signalled permits are those granted, those free, kernel tokens and tokens about to be posted, whatever times out |
| Semaphore.NeverStranded | shared/queue_internal/lightweightsemaphore.h:304-311 | While the count is not negative each waiter has a token posted or on its way, and a timed-out waiter that looks then succeeds |
| Semaphore.PostFits | shared/queue_internal/lightweightsemaphore.h:409-418 | A signal releases no more tokens than there are threads, so the narrowing cast loses nothing |
| Semaphore.QuiescentCount | shared/queue_internal/lightweightsemaphore.h:278-418 | With no call in flight the kernel has no token and the count is what was put in less what was taken |
| Semaphore.ReturnsAtMost | shared/queue_internal/lightweightsemaphore.h:278-407 | In every run a call returns no more than its maximum |
| Semaphore.NothingOnlyIfNone | shared/queue_internal/lightweightsemaphore.h:376-389 | `tryWaitMany` returns nothing only if asked for nothing, or the count was not positive at some time during the call |
| Semaphore.WaitReturnsSome | shared/queue_internal/lightweightsemaphore.h:317-349 | A waiting call returns something, unless its wait on the kernel failed |
| Semaphore.TakesGreedily | shared/queue_internal/lightweightsemaphore.h:355-407 | Undisturbed, a call takes the smaller of its maximum and the count |
| Semaphore.TakesMore | shared/queue_internal/lightweightsemaphore.h:330-348 | Having waited for one permit, a bulk wait takes all others it may |
| Semaphore.SpinTakes | shared/queue_internal/lightweightsemaphore.h:317-329 | A spinning call that finds permits takes all it may |
| Semaphore.InvStep | shared/queue_internal/lightweightsemaphore.h:278-418 | Every step keeps the two balances |
| BlockingQueue.StoredAccounted | shared/queue_internal/blockingconcurrentqueue.h:123-351 | Each stored element is unsignalled, covered by a free permit or token, or reserved for a consumer with a permit |
| BlockingQueue.ReservedElements | shared/queue_internal/blockingconcurrentqueue.h:294-518 | A consumer in an unguarded loop has its elements in the inner queue, besides those of all other consumers |
| BlockingQueue.QuiescentSize | shared/queue_internal/blockingconcurrentqueue.h:538-541 | With no call in flight the approximate size is exact |
| BlockingQueue.DequeuesAtMost | shared/queue_internal/blockingconcurrentqueue.h:294-518 | In every run a dequeue takes no more elements than its maximum, and a waiting one at least one unless its wait on the kernel failed |
| BlockingQueue.InvStep | shared/queue_internal/blockingconcurrentqueue.h:123-518 | Every step of queue and semaphore together keeps the accounts |
| ExplicitProducer.Producer.Enqueue | shared/queue_internal/concurrentqueue.h:1849-1952 | Appends the element to the queue, or fails and changes no element, exactly when a new block is needed and the guard, the index or the pool refuses it |
| ExplicitProducer.Producer.NewBlockIndex | shared/queue_internal/concurrentqueue.h:2356-2393 | The larger index has the same blocks in order; older headers stay as they were |
| ExplicitProducer.Grow | shared/queue_internal/concurrentqueue.h:2372-2384 | The copying loop puts the window of the old circular index, in order, at the start of the new one |
| ExplicitProducer.Producer.Complete | shared/queue_internal/concurrentqueue.h:2008-2044 | From a header and a front slot loaded at any earlier time, the consumer gets the element enqueued at its index and marks exactly that one |
| ExplicitProducer.Producer.LoadIndex | shared/queue_internal/concurrentqueue.h:2008 | The header in use has the block of every element not dequeued |
| ExplicitProducer.Producer.LoadFront | shared/queue_internal/concurrentqueue.h:2009 | The front of any header with the block leads to it |
| ExplicitProducer.Producer.Find | shared/queue_internal/concurrentqueue.h:2008-2017 | The signed offset from the front entry leads to the block the index was written to |
| ExplicitProducer.Producer.SearchKept | shared/queue_internal/concurrentqueue.h:1849-1952 | What a consumer loaded stays good across calls of the producer while its element is not dequeued |
| ExplicitProducer.StartedValid | shared/queue_internal/concurrentqueue.h:1855-1916 | Starting a block, reused or new, keeps ring, flags and cells in agreement with the elements |
| ExplicitProducer.CompletedValid | shared/queue_internal/concurrentqueue.h:2019-2040 | So does finishing an element, in any order |
| ExplicitProducer.LimitKeptExactly | shared/queue_internal/concurrentqueue.h:1857-1880 | An enqueue keeps the configured maximum if and only if it does not reuse a block with more than the maximum less a block enqueued |
| ExplicitProducer.ReusedExactly | shared/queue_internal/concurrentqueue.h:1857 | The next block is reused if and only if all elements of the oldest block in the ring are dequeued |
| ExplicitRuns.FirstInFirstOut | shared/queue_internal/concurrentqueue.h:1849-2052 | In every run of enqueues, consumers' ticket steps and completions, the consumer that claimed index `i` moves out the `i`-th element put, and nobody else ever does |
| ExplicitRuns.NothingLost | shared/queue_internal/concurrentqueue.h:1849-2052 | Each element put was moved out, or is in the cell of its index |
| ExplicitRuns.GoodStep | shared/queue_internal/concurrentqueue.h:1849-2052 | Every step keeps queue, claims and ticket history in agreement; consumers claim only what is enqueued |
| ExplicitRuns.ClaimedIsThere | shared/queue_internal/concurrentqueue.h:2008-2020 | The block of a claimed element is there, with its flags and cells, until the element is finished |
| ExplicitRuns.LimitHoldsExactly | shared/queue_internal/concurrentqueue.h:1857-1880 | A run stays within the maximum if and only if no enqueue in it reuses a block with more than the maximum less a block enqueued |
| ExplicitRuns.LimitExceeded | shared/queue_internal/concurrentqueue.h:1857-1880 | A run that passes the maximum |
| ImplicitIndex.BlockIndex.InsertEntry | shared/queue_internal/concurrentqueue.h:2900-2933 | Adds the key in the next slot, growing if that is taken; fails, changing nothing, exactly when there is no index or none of twice the size |
| ImplicitIndex.BlockIndex.NewBlockIndex | shared/queue_internal/concurrentqueue.h:2966-3008 | The larger table shares the old entries, oldest first, followed by as many unused ones |
| ImplicitIndex.BlockIndex.Rewind | shared/queue_internal/concurrentqueue.h:2935-2939 | Takes the newest number back |
| ImplicitIndex.BlockIndex.FindSlot | shared/queue_internal/concurrentqueue.h:2948-2964 | From any tail slot that had a key when it was loaded, the computed slot is that of the requested block |
| ImplicitIndex.BlockIndex.LoadTail | shared/queue_internal/concurrentqueue.h:2954-2957 | The tail of any header that reaches a live block has a key to start from |
| ImplicitIndex.FoundEntry | shared/queue_internal/concurrentqueue.h:2948-2964 | Old headers lead to the same entry as the newest, and its key is the one searched for |
| ImplicitIndex.SearchKept | shared/queue_internal/concurrentqueue.h:2954-2961 | A search under way is not disturbed by inserts, rewinds and growth |
| ImplicitIndex.InsertedValid | shared/queue_internal/concurrentqueue.h:2907-2914 | Insertion keeps keys falling by one block per slot back from the tail, in every header a key only in its own slot |
| ImplicitIndex.RewoundValid | shared/queue_internal/concurrentqueue.h:2935-2939 | Rewinding keeps it |
| ImplicitIndex.GrownValid | shared/queue_internal/concurrentqueue.h:2966-3008 | Doubling a full index keeps it, with the old header still leading to the shared entries |
| ImplicitIndex.AddedEntry | shared/queue_internal/concurrentqueue.h:2900-2933 | An insertion leaves earlier entries where they were and all else unused |
| ImplicitProducer.Producer.Enqueue | shared/queue_internal/concurrentqueue.h:2486-2548 | Appends the element, or changes nothing; fails exactly when a block is needed and guard, index or pool refuses |
| ImplicitProducer.Producer.EnqueueBulk | shared/queue_internal/concurrentqueue.h:2626-2774 | With consumers acting while blocks are got: all elements in order, in the blocks supplied, or none, with every block back in the pool or where it was. It fails only if for one of the blocks, with head, blocks and pool as they then are, the guard refuses, the pool lacks it, or its slot is taken and the index may not grow; undisturbed, if and only if |
| ImplicitProducer.FitsExactly | shared/queue_internal/concurrentqueue.h:2900-2911 | The slot for the next block is free if and only if the number one turn of the index below has no block |
| ImplicitProducer.Producer.Undo | shared/queue_internal/concurrentqueue.h:2662-2679 | The undo loop, which rewinds the tail while it looks entries up relative to it, leaves the index with exactly the blocks it had and returns exactly the blocks taken |
| ImplicitProducer.UndoStep | shared/queue_internal/concurrentqueue.h:2669-2674 | One round: one more number rewound from the top, one more entry emptied from the bottom |
| ImplicitProducer.UndoEnd | shared/queue_internal/concurrentqueue.h:2668-2678 | After all rounds the index has exactly the earlier blocks |
| ImplicitProducer.Producer.AddBlock | shared/queue_internal/concurrentqueue.h:2493-2533 | A block for the next number, in the index and out of the pool, or no change, with the exact reasons |
| ImplicitProducer.Producer.FillBlocks | shared/queue_internal/concurrentqueue.h:2702-2771 | Filling along the `next` links puts each element in the cell of its index and touches no other |
| ImplicitProducer.Producer.Take | shared/queue_internal/concurrentqueue.h:2562-2612 | The elements enqueued at the claimed indices; whoever finishes the block empties its entry and returns it |
| ImplicitProducer.Producer.TakeAll | shared/queue_internal/concurrentqueue.h:2799-2871 | `dequeue_bulk` goes from slot to slot of the header it began with and gets the elements at all its indices, whatever enqueues, bulk enqueues and other consumers do between two blocks; no block is lost |
| ImplicitProducer.WalkKept | shared/queue_internal/concurrentqueue.h:2799-2871 | Header and slot of such a walk stay good across all that may happen to the index |
| ImplicitProducer.ReturnedWhenDone | shared/queue_internal/concurrentqueue.h:2602-2612 | The block is in the pool afterwards if and only if all its elements are done, and was not before |
| ImplicitProducer.TakenValid | shared/queue_internal/concurrentqueue.h:2857-2868 | Finishing elements in any order and batching keeps blocks, counters, cells and pool in agreement, and no block is lost |
| ImplicitProducer.ExtendedValid | shared/queue_internal/concurrentqueue.h:2702-2772 | So does publishing new elements in the blocks got for them |
| ImplicitProducer.NothingConsumed | shared/queue_internal/concurrentqueue.h:2661-2679 | Where no element was finished meanwhile, a failed bulk enqueue leaves every block where it was |
| ProducerHash.OwnProducer | shared/queue_internal/concurrentqueue.h:3388-3533 | In every run a thread that owns a producer is given that one; nobody else owns it and it is not up for recycling |
| ProducerHash.OwnershipLasts | shared/queue_internal/concurrentqueue.h:3388-3564 | A thread keeps its producer through migrations and resizes until the end of its exit |
| ProducerHash.OneEntryEach | shared/queue_internal/concurrentqueue.h:3412-3443 | An id is at most once in a table, and with the producer its thread owns |
| ProducerHash.MeetsOwn | shared/queue_internal/concurrentqueue.h:3412-3448 | Probing comes to a thread's own id before any empty slot |
| HashCalls.NothingOnlyIfDenied | shared/queue_internal/concurrentqueue.h:3388-3533 | In every run a lookup returns null if and only if memory was refused to it, for a larger table, or for a producer when there was none to recycle; otherwise it returns the thread's own producer |
| HashCalls.ProducersKept | shared/queue_internal/concurrentqueue.h:3227-3244 | In every run each producer ever made is owned by a thread or can be recycled |
| HashCalls.CounterExact | shared/queue_internal/concurrentqueue.h:3452-3531 | In every run the counter is the number of newcomers that filled a slot never used before, and of those on their way |
| ProducerHash.InvStep | shared/queue_internal/concurrentqueue.h:3388-3564 | Every step of every thread keeps the invariant |
| HashRoom.MarginStep | shared/queue_internal/concurrentqueue.h:3452-3531 | The margin between the counter and what it is to bound for a table shrinks in a step, by one, if and only if that step reuses a tombstone of an older table |
| HashRoom.RoomForAll | shared/queue_internal/concurrentqueue.h:3412-3443 | In every run, with `r` such reuses, the counter plus `r` bounds slots in use plus ids and threads still to come of a table, and fewer slots than three quarters plus `r` are ever in use |
| HashRoom.ProbingEnds | shared/queue_internal/concurrentqueue.h:3412-3448 | In every run, while no more tombstones were reused before a table than its quota leaves free, no thread probes once around it: every probe loop terminates |
| HashRoom.RoomStep | shared/queue_internal/concurrentqueue.h:3452-3531 | Every step keeps the bounds on every table, loosened by one in such a step |
| HashTrap.LookingEndsExactly | shared/queue_internal/concurrentqueue.h:3412-3448 | A lookup or an exit can get through a table if and only if the table has an empty slot or the thread's id |
| HashTrap.StaysTrapped | shared/queue_internal/concurrentqueue.h:3412-3448 | A thread that probes a full table without its id still does in every later state, whatever others do |
| HashTrap.EndlessProbe | shared/queue_internal/concurrentqueue.h:3412-3531 | For each first table of sixteen slots or more a run with one reuse more than `ProbingEnds` allows, in which a lookup has gone past any number of slots of a full table and never gets through |
| HashTrap.CounterDrifts | shared/queue_internal/concurrentqueue.h:3512-3517 | A run that leaves nobody in a call and the counter behind by the full `r` of `RoomForAll` |
| PriorityMutex.OneExclusiveHolder | shared/ExclusiveSharedMutex.h:51-73 | At most one exclusive holder in every run |
| PriorityMutex.UnlockWakes | shared/ExclusiveSharedMutex.h:33-74 | When `unlock` returns, or an `unlock_shared` that was the last, one of the readers asleep has been woken, if there were any |
| PriorityMutex.ReaderAtMutex | shared/ExclusiveSharedMutex.h:27-30 | A reader that comes to the inner mutex gets in if and only if nobody asks for or has exclusive access; otherwise it sleeps |
| PriorityMutex.WriterAtMutex | shared/ExclusiveSharedMutex.h:55-58 | A writer that comes to the inner mutex gets in if and only if nobody is counted as in; otherwise it sleeps with its request standing |
| PriorityMutex.ExclusionStep | shared/ExclusiveSharedMutex.h:18-59 | A step keeps readers and writers apart if and only if it is not a fast-path admission while a writer's window is open |
| PriorityMutex.ExclusionHolds | shared/ExclusiveSharedMutex.h:18-59 | Readers and writers never coexist in runs without such a step |
| PriorityMutex.ReaderDuringExclusiveHold | shared/ExclusiveSharedMutex.h:21-25 | A run that admits a reader during an exclusive hold |
| PriorityMutex.WriterSleepsOnFreeMutex | shared/ExclusiveSharedMutex.h:33-59 | A run that leaves a writer asleep on a free mutex |
| PriorityMutex.SleepingWriterBlocksReaders | shared/ExclusiveSharedMutex.h:27-30 | While a writer sleeps it is never woken by notification, and nobody outside gets shared access |
| StreamQueue.Stream.Dequeue | shared/StreamQueue.hpp:22-33 | Takes the first bytes in order and leaves the rest |
| StreamQueue.Stream.DequeueAsVec | shared/StreamQueue.hpp:43-64 | Writes in bounds; each position has its last write of the 8-bit counter; the queue loses what was asked for, or all of it with a maximum above 255 |
| StreamQueue.Stream.Peek | shared/StreamQueue.hpp:72-78 | A prefix, without consuming |
| StreamQueue.VecSupportedRange | shared/StreamQueue.hpp:43-64 | `dequeueAsVec` agrees with `dequeue` for all contents if and only if one of the two numbers is small |
| ChannelInput.AlignedStep | src/Socket.cpp:103-161 | A step keeps taken plus queued bytes aligned with the stream if and only if it drops no chunk |
| ChannelInput.AlignedExactly | src/Socket.cpp:103-161 | All states of a run are aligned if and only if none of its steps drops a chunk |
| ChannelInput.StreamInOrder | src/Socket.cpp:103-161 | For any number of read workers and restarts, as long as nothing is queued behind a dropped chunk, taken plus queued bytes are a prefix of the received stream; if no chunk was dropped, all of it when nothing is in flight |
| ChannelInput.NoRestart | src/Socket.cpp:116-161 | In a run without a restart nothing is queued behind a dropped chunk |
| ChannelInput.ReceivedAll | src/Socket.cpp:114 | The received stream is all that `recv` delivered, in order |
| ChannelInput.LoneRead | src/Socket.cpp:103-161 | An undisturbed read queues its whole chunk unless channel or socket is stopped, and does nothing while another holds the lock |
| ChannelInput.ListenerGets | src/Socket.cpp:152-158 | A listener gets the first bytes queued, as many as it asks for if there are so many |
| ChannelInput.RestartLeavesGap | src/Socket.cpp:116-150 | A run with a gap after a restart |
| ChannelOutput.SendBytes | src/Socket.cpp:225-255 | The wire gets a prefix of the message; how long it is and whether the channel is shut down are the functions characterised below |
| ChannelOutput.FailsExactly | src/Socket.cpp:242-249 | The loop shuts the channel down if and only if the kernel reports an error in a round that the loop comes to |
| ChannelOutput.CompleteExactly | src/Socket.cpp:232-254 | A message is complete if and only if some round takes all that is left and each before it less than half |
| ChannelOutput.WireInOrder | src/Socket.cpp:85-255 | In every run the wire is one prefix per message after the other, each as long as the send loop makes it for what its rounds met, and each sender's messages start in queueing order |
| ChannelOutput.NothingDropped | src/Socket.cpp:85-207 | In every run, what a sender queued while the channel was active is what workers have started on, what the worker in the lock fetched, and what still waits, in that order |
| ChannelOutput.LoneCall | src/Socket.cpp:176-197 | A call on an active channel with the lock free gets to fetch from any queue with a message; otherwise it does nothing |
| ChannelOutput.CompleteInRun | src/Socket.cpp:225-255 | In every run a message is on the wire whole if and only if some round of its loop took all that was left and each before it less than half; one whose loop met an error has shut the channel down |
| ChannelOutput.CutShort | src/Socket.cpp:232-254 | A run, after `EWOULDBLOCK` or a round of half, that leaves a message incomplete with the next one behind it and the channel active |
| ChannelOutput.InvStep | src/Socket.cpp:176-255 | Every step of every worker keeps it |
| WrapAround.CircularLessThanExact | shared/queue_internal/concurrentqueue.h:477-483 | Within one turn of the word, it agrees with the order of the integers if and only if they are within half the range |
| WrapAround.SlotAgrees | shared/queue_internal/concurrentqueue.h:2014-2017 | The signed offset in words gives the slot that unbounded arithmetic gives |
| WrapAround.BlockBaseDiffCounts | shared/queue_internal/concurrentqueue.h:2068-2069 | `blockBaseDiff` is the block size times the number of block starts among the new indices |
| WrapAround.RefusedExactly | shared/queue_internal/concurrentqueue.h:1874-1880 | The guard refuses a block if and only if its end would be half a word range ahead of the head, or beyond the configured maximum |
| WrapAround.GuardKeepsDistance | shared/queue_internal/concurrentqueue.h:2491-2497 | A producer that asks the guard at each block start stays within half the word range and within its limit, in every run |
| Block.Block.IsEmpty | shared/queue_internal/concurrentqueue.h:1570-1594 | True exactly when every element was released |
| Block.Block.SetEmpty | shared/queue_internal/concurrentqueue.h:1597-1611 | Sets the flag of that element and no other |
| Block.Block.SetManyEmpty | shared/queue_internal/concurrentqueue.h:1615-1627 | The one sweep over the reversed flags equals the single calls |
| Block.MarkEachReleases | shared/queue_internal/concurrentqueue.h:1596-1627 | Releasing a run of elements adds exactly their offsets |
| Block.Block.ResetEmpty | shared/queue_internal/concurrentqueue.h:1653-1663 | Nothing is released afterwards |
| Block.ReleasedExactlyOnce | shared/queue_internal/concurrentqueue.h:1628-1633 | For any order and batching, exactly the addition that completes the last element reports the block empty |
| TokenDequeue.Token.TryDequeueBulk | shared/queue_internal/concurrentqueue.h:1249-1289 | Rotates first if the token is new or the shared offset has moved; then at most the maximum, and less only with every producer short; asks all to rotate exactly when its first producer gave all that was asked and the quota is used up |
| TokenDequeue.DequeueAround | shared/queue_internal/concurrentqueue.h:1262-1288 | The walk terminates although it moves its own stopping point, asks each producer for all that is missing, and leaves the token on the last producer that gave something |
| TokenDequeue.EveryProducerShort | shared/queue_internal/concurrentqueue.h:1262-1288 | A short result means that each producer gave less than it was asked for |
| TokenDequeue.Token.Rotate | shared/queue_internal/concurrentqueue.h:1392-1430 | A token moves on by the offset's change in 32 bits, a new one from its place in the list |
| TokenDequeue.StaysHome | shared/queue_internal/concurrentqueue.h:1392-1430 | A token where it belongs still is after any rotation to an offset less than 2^32 further, also past the end of the word |
| TokenDequeue.FreshHome | shared/queue_internal/concurrentqueue.h:1399-1424 | A new token is put where it belongs if and only if the number of producers divides the rotations that the 32-bit offset has lost |
| TokenDequeue.FreshAstray | shared/queue_internal/concurrentqueue.h:1399-1424 | Three producers after the first wrap: a new token lands on the producer of another token, and the one that was its own is left out |
| TokenDequeue.HomesDiffer | shared/queue_internal/concurrentqueue.h:1392-1430 | Consecutive initial offsets land on different producers after the same number of rotations |

## Left out

- Memory orders, fences and data races: atomic operations interleave in a sequentially consistent way.
- Exceptions thrown by element constructors and assignments, and their undo paths (1924, 2728-2763 of concurrentqueue.h).
- The explicit producer's `enqueue_bulk` (2052-2245): its failure path keeps injected blocks in the ring while it resets the slot count, so the ring invariant proved here does not hold after it.
- Explicit and implicit producer and consumer steps are whole method calls; what consumers load (header, front or tail slot) may be arbitrarily old, consumers act between the blocks of a bulk enqueue, and everybody between the blocks of a bulk dequeue, but not within one insertion, one undo or the filling of cells, which nobody else reads.
- ExplicitProducer.Producer.Claim: takes the next index when there is one; that there always is one is proved in `ExplicitRuns`, where claims are the steps of `Tickets`.
- ImplicitProducer.Producer.TakeAll: a bulk enqueue between two of its blocks is one without consumers acting during it.
- ImplicitProducer.Producer.EnqueueBulk: the block pool holds only blocks this producer may take; other producers' traffic with the pool is what `choice` answers.
- FreeList.RunIsSafe: for fewer than 2^30 threads, so that reference counts stay below the flag bit; nodes are never freed.
- Kernel semaphores are a natural number whose wait may time out; the wrappers for the platforms are not modelled.
- Producer hashes built without thread-exit notification, in which there are no tombstones; both ways of inserting are modelled, and a run without `Exit` is such a build.
- ProducerHash.OwnProducer: a slot's key and value change in one step, since only the owner reads the value; the walk over the producer list is one step with any outcome it can have.
- Block indices as words: `WrapAround` relates the expressions; it is not threaded through the other modules.
- The producer list (`add_producer`), non-token dequeues that choose a producer, queue moves, swaps, destructors and debug statistics.
- `sendMessage` on the write thread (93-100 of Socket.cpp): no thread is ever started as `writeThread`, so the direct send is not reached.
- `Channel` callbacks and their threads; listeners take bytes with `dequeue` inside the read lock.
- `StreamQueue::enqueue(Message&&)`, which inserts at the front and is not on the receive path; `dequeAsMessage`, which wraps `dequeueAsVec`.
- Socket set-up, accepting and connecting, worker scheduling, logging and message memory.
