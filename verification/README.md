# A verified model of the concurrent containers, pools and allocators

The repository's `3_pool` directory and the thread pool of `1_CPBase` hold small concurrent data
structures, two allocators and two worker pools. This project states what they promise and proves it.

Concurrent code is modelled as a state machine with one step per shared access (an atomic load or
store, an exchange, a plain store under a lock, a lock, wait, signal or unlock), under sequentially
consistent interleaving, for any number of threads. A run is a sequence of states that starts in an
initial state and whose neighbours are related by `Next`; every theorem about runs holds at every
position of every run. Waits may also end spuriously, and a signal may wake any sleeper. Objects with
methods are also modelled as classes with the source's fields, whose methods change those fields in
the source's order; their specifications are tied to the same predicates as the machines.

Most theorems about runs say what never happens. What does happen is in the `Alone` modules: from every
state of a machine with the locks it needs free, a thread that nobody interferes with completes its call,
or comes to its wait, and the state it leaves is given.

- **Skip list** (`SkipListMemory`, `SkipListReaders`, `SkipListBackward`, `SkipListAlone`,
  `SkipListLevels`, `SkipListEstimate`, `SkipLists`, `SkipListIterators`): one writer, whose `Insert` is
  a run of single stores, and lock-free readers that load one link at a time. A link is uninitialised,
  null or a node address. The comparator is any total order, the random height any value in 1..kMaxHeight_, and a
  reader may see any value that `max_height_` has held so far.
- **MPSC queues** (`MpscQueue` and `MpscIntrusive` for the machines, each with its `Invariant`, `Runs`,
  `Alone` and `Objects` modules): any number of producers, one consumer; the exchange of `_head` and the store
  of the link are separate steps, so the chain may be broken anywhere.
- **Message queue** (`MsgQueue` for the machine, `MsgQueueInvariant`, `MsgQueueRuns`, `MsgQueueNonblock`,
  `MsgQueueAlone`, and the class in `MessageQueues`): two lists that a getter swaps, with two mutexes and
  two condition variables; `void **` cursors are slots of a heap (`Links`).
- **Worker pools** (`ThreadPool`, `ThreadPoolInvariant`, `ThreadPoolRuns`, `ThreadPoolNoWorkers`,
  `ThreadPoolAlone` and `TaskPools` for `tp.cpp`; `ThrdPool`, `ThrdPoolInvariant`, `ThrdPoolRuns`, `ThrdPoolCalls`,
  `ThrdPoolAlone`, `ThrdPoolPosts`, `ThrdPoolMissedPost` and `TaskQueues` for `thrd_pool.c` and
  `spinlock.h`): workers, clients, and running tasks that themselves enqueue, post or terminate. The
  spinlock is its word: mutual exclusion is proved, not assumed. Nodes are allocated and freed, and every pointer followed is shown to be live.
- **Memory pools** (`PagePool` for `mempool.c`, `BlockPool` for `mempool-v1.c`): the bump allocator
  over a growing page list, and the fixed-block pool on bytes, its free list stored in the free blocks.

Where the code and its documentation differ, the code is followed. A comment in `mempool.c` (line 63)
asks for a size strictly below the page's capacity; the code also serves a request of exactly the
capacity, and so does the model. A comment in `skiplist.h` (lines 148 to 151) says that `prev_[i]` is
the predecessor of `prev_[0]` for every i up to `max_height_`; `prev_[0]` itself is the last node, so
the fact that `Insert` keeps, and that the model states, is about i >= 1.

Three properties hold only under a condition, and both sides are proved. A post to the C pool can be
missed: the signal of `__add_task` is ordered neither with the worker's empty check nor with its wait, and
`ThrdPoolMissedPost.PostCanBeMissed` is a run that comes to rest with a task queued. The exact condition is
in `ThrdPoolPosts`: a step loses the balance of tasks and workers if and only if it is a signal that finds
nobody asleep while a worker is between its empty check and its wait, with no cover to spare, and a run
keeps the balance throughout if and only if none of its steps is such a signal. Draining in `tp.cpp` takes a
worker: `ThreadPoolRuns.DrainedIffWorkers` says that this is just what it takes, and
`ThreadPoolNoWorkers.TaskCanBeLeft` is a run without one. The block pool's `mp_init` stores a null after the
last block, which may fall outside its page: `BlockPool.TerminatorStaysIff` says that what follows the page
is left alone if and only if the page has eight bytes over, or the bytes hit are zero already, and
`BlockPool.BlocksOf32Spill` that the program's own block size, 32, fails.

## Model

| member | source | states |
|---|---|---|
| SkipListReaders.WriterStepKeepsInv | 3_pool/atomic_and_lock-master/skiplist.h:490-496 | After every single store of Insert each level links its nodes in strict key order, every node reachable at level i has links 0..i initialised, and nothing already linked, no key and no height is taken back |
| SkipListMemory.RaiseKeepsInv | 3_pool/atomic_and_lock-master/skiplist.h:473-488 | Storing a larger max_height_ before the node exists leaves every level well formed |
| SkipListMemory.AllocateKeepsInv | 3_pool/atomic_and_lock-master/skiplist.h:223-227 | A node with uninitialised links, on no level yet, disturbs no level, and the predecessors found stay predecessors |
| SkipListMemory.SetOwnKeepsInv | 3_pool/atomic_and_lock-master/skiplist.h:494 | Storing the new node's own link changes nothing that is reachable |
| SkipListMemory.PublishKeepsInv | 3_pool/atomic_and_lock-master/skiplist.h:495 | The publishing store puts the node between predecessor and successor of one level and leaves every other level alone |
| SkipListMemory.PredIsLast | 3_pool/atomic_and_lock-master/skiplist.h:494-495 | A node before the new one other than its predecessor already has its successor at or before the predecessor, and so not after the new node: it needs no store |
| SkipListReaders.ReadIsSafe | 3_pool/atomic_and_lock-master/skiplist.h:193-198 | Wherever a search stands, the link it loads next exists, is initialised and is the successor on that level |
| SkipListReaders.ShortcutDecidesTheSame | 3_pool/atomic_and_lock-master/skiplist.h:333-345 | Not comparing again with last_bigger decides every turn of the search as the comparison would |
| SkipListReaders.FindNextKeepsOk | 3_pool/atomic_and_lock-master/skiplist.h:327-346 | Neither a store of the writer nor a load of the reader, early exit and last_bigger included, breaks what the search knows; the load that ends it returns the first node not before the target |
| SkipListReaders.FindIsLinearizable | 3_pool/atomic_and_lock-master/skiplist.h:316-347 | In every interleaving with Insert, stale or new max_height_ included, the node returned is the first with key >= target at the instant of the last load, and both asserts of the loop hold at every load |
| SkipListReaders.ContainsIsLinearizable | 3_pool/atomic_and_lock-master/skiplist.h:502-509 | Contains answers true just when an equal key was linked at the instant of the search's last load, whatever is inserted before it compares |
| SkipListReaders.ScanIsConsistent | 3_pool/atomic_and_lock-master/skiplist.h:252-255 | A SeekToFirst and Next scan against concurrent inserts yields strictly increasing keys, only linked nodes, and, once ended, every node linked when it began |
| SkipListReaders.ScanStepKeepsOk | 3_pool/atomic_and_lock-master/skiplist.h:286-288 | Each link the scan follows leaves behind no node that was there at the start |
| SkipListReaders.ScanIsNeverStuck | 3_pool/atomic_and_lock-master/skiplist.h:252-288 | Until the scan has ended, its next load is defined in every interleaving: it never comes to an uninitialised link |
| SkipListBackward.MoveKeepsDescent | 3_pool/atomic_and_lock-master/skiplist.h:356-396 | A load of FindLessThan or FindLast, the last_not_after shortcut included, keeps what the search knows, and the load that ends it returns the last node below the goal |
| SkipListBackward.DescentIsLinearizable | 3_pool/atomic_and_lock-master/skiplist.h:349-397 | In every interleaving with Insert, FindLessThan, and so Prev, returns the last node below the key, and FindLast, and so SeekToLast, the last node, at the instant of the last load; every load is defined and the asserts of the loop hold |
| SkipListBackward.LastBelowIsLastNotAfter | 3_pool/atomic_and_lock-master/skiplist.h:280-282 | The last node below a key past the target, once not past the target itself, is the last entry with key <= target |
| SkipListBackward.SeekForPrevIsLinearizable | 3_pool/atomic_and_lock-master/skiplist.h:273-283 | In every interleaving with Insert, SeekForPrev ends on the last entry with key <= target at the instant of its last load, invalid when there was none |
| SkipListBackward.SeekForPrevIsNeverStuck | 3_pool/atomic_and_lock-master/skiplist.h:273-283 | Until SeekForPrev has ended, its next load is defined in every interleaving |
| SkipListAlone.FindAlone | 3_pool/atomic_and_lock-master/skiplist.h:316-347 | Once the writer pauses, a search under way ends: each load goes down a level or past a node, and the last returns the first node not before the target |
| SkipListAlone.DescentAlone | 3_pool/atomic_and_lock-master/skiplist.h:349-397 | So do FindLessThan and FindLast, with the last node below the key, or the last node |
| SkipListAlone.ScanAlone | 3_pool/atomic_and_lock-master/skiplist.h:252-288 | So does a scan, having visited every node there is |
| SkipListAlone.RetreatAlone | 3_pool/atomic_and_lock-master/skiplist.h:273-283 | So does SeekForPrev, on the last entry with key <= target: each turn of its loop has fewer nodes below its goal |
| SkipListLevels.LevelsAreNested | 3_pool/atomic_and_lock-master/skiplist.h:490-496 | Level i+1 is the sub-list of level i of the nodes that reach it, both strictly sorted, with all links initialised |
| SkipListLevels.SortedIsUnique | 3_pool/atomic_and_lock-master/skiplist.h:358-360 | A level is determined by the set of its nodes |
| SkipListLevels.LinkingIsInsertion | 3_pool/atomic_and_lock-master/skiplist.h:490-496 | Once the new node is on the bottom level, the sorted contents are the old ones with the key inserted at its place |
| SkipListLevels.StopIsPred | 3_pool/atomic_and_lock-master/skiplist.h:361-366 | Where a walk stops on a level is the predecessor of the key there |
| SkipListLevels.PredIsUnique | 3_pool/atomic_and_lock-master/skiplist.h:173-177 | A key has one predecessor on each level |
| SkipLists.FastPathIsPred | 3_pool/atomic_and_lock-master/skiplist.h:452-462 | When the key falls right after the last inserted node, the cached array with that node on its own levels is what the full search would store, for every insertion order and choice of heights |
| SkipLists.KeepsCached | 3_pool/atomic_and_lock-master/skiplist.h:497-498 | After Insert, prev_ above level 0 holds the predecessors of the node just inserted |
| SkipLists.SkipList.constructor | 3_pool/atomic_and_lock-master/skiplist.h:424-447 | A new list is well formed and empty |
| SkipLists.SkipList.FindLessThan | 3_pool/atomic_and_lock-master/skiplist.h:351-377 | Returns the predecessor of the key and fills the array with the predecessors of every level in use, and nothing above |
| SkipLists.SkipList.FindGreaterOrEqual | 3_pool/atomic_and_lock-master/skiplist.h:318-347 | Returns the first node not before the key, or null when there is none |
| SkipLists.SkipList.Contains | 3_pool/atomic_and_lock-master/skiplist.h:502-509 | True if and only if an entry that compares equal is in the list |
| SkipLists.SkipList.FindLast | 3_pool/atomic_and_lock-master/skiplist.h:380-397 | Returns a node, or the head, after which the bottom level has nothing |
| SkipLists.SkipList.EstimateCount | 3_pool/atomic_and_lock-master/skiplist.h:400-421 | Returns the level sum of the one search path to the key, modulo 2^64; as long as it fits 64 bits, at most rank * B^(H-1), and on a perfect list exactly the number of keys below the target |
| SkipLists.SkipList.RandomHeight | 3_pool/atomic_and_lock-master/skiplist.h:299-308 | The height is between 1 and the maximum |
| SkipLists.SkipList.LocatePredecessors | 3_pool/atomic_and_lock-master/skiplist.h:452-468 | By shortcut or by search, prev_ ends up with the predecessors of the key on every level in use |
| SkipLists.SkipList.RaiseHeight | 3_pool/atomic_and_lock-master/skiplist.h:473-488 | New levels start at the head, and this is one step of the writer |
| SkipLists.SkipList.LinkNode | 3_pool/atomic_and_lock-master/skiplist.h:490-496 | The loop is a run of single stores, bottom level first, each keeping the invariant |
| SkipLists.SkipList.LinkNew | 3_pool/atomic_and_lock-master/skiplist.h:473-496 | From the choice of height on, a run of writer steps that inserts the key into the sorted contents |
| SkipLists.SkipList.Insert | 3_pool/atomic_and_lock-master/skiplist.h:450-499 | The whole call is a run of writer steps, inserts the key into the sorted contents, and restores the cached predecessors |
| SkipListEstimate.HornerIsBounded | 3_pool/atomic_and_lock-master/skiplist.h:412-418 | The level sum is at most the rank reached times B to the number of levels above |
| SkipListEstimate.HornerIsExact | 3_pool/atomic_and_lock-master/skiplist.h:412-418 | Where every level-i link spans B^i keys, the sum times B^i is the rank reached |
| SkipListEstimate.PathRanks | 3_pool/atomic_and_lock-master/skiplist.h:403-420 | The stops of the search path climb in rank by at least the links taken, and on a perfect list by exactly B^i for each |
| SkipListEstimate.PathIsUnique | 3_pool/atomic_and_lock-master/skiplist.h:403-420 | A key has one search path: where it stops on each level and how many links it takes there |
| SkipListEstimate.EstimateIsRank | 3_pool/atomic_and_lock-master/skiplist.h:399-421 | The estimate is at most rank * B^(H-1), and on a list where the p-th node reaches level i just when B^i divides p it is exactly the number of keys below the target |
| SkipListIterators.SuccessorIsNext | 3_pool/atomic_and_lock-master/skiplist.h:252-255 | The link out of the k-th node leads to the next one, or to the end |
| SkipListIterators.PredIsBefore | 3_pool/atomic_and_lock-master/skiplist.h:258-266 | The predecessor of a key is the node just before its lower bound |
| SkipListIterators.FirstIsLowerBound | 3_pool/atomic_and_lock-master/skiplist.h:269-271 | What the search returns is the position of the lower bound |
| SkipListIterators.LowerBoundOfMember | 3_pool/atomic_and_lock-master/skiplist.h:262 | Searching for the key of a node comes back to that node, which is what lets Prev search |
| SkipListIterators.Iterator.constructor | 3_pool/atomic_and_lock-master/skiplist.h:230-238 | A new iterator is not valid |
| SkipListIterators.Iterator.Next | 3_pool/atomic_and_lock-master/skiplist.h:252-255 | Moves from the k-th node to the (k+1)-th, or off the end |
| SkipListIterators.Iterator.Prev | 3_pool/atomic_and_lock-master/skiplist.h:258-266 | Moves from the k-th node to the (k-1)-th, or off the front |
| SkipListIterators.Iterator.Seek | 3_pool/atomic_and_lock-master/skiplist.h:269-271 | Moves to the first entry with key >= target |
| SkipListIterators.Iterator.SeekForPrev | 3_pool/atomic_and_lock-master/skiplist.h:274-283 | Moves to the last entry with key <= target, and ends |
| SkipListIterators.Iterator.SeekToFirst | 3_pool/atomic_and_lock-master/skiplist.h:286-288 | Moves to the first entry; invalid just when the list is empty |
| SkipListIterators.Iterator.SeekToLast | 3_pool/atomic_and_lock-master/skiplist.h:291-296 | Moves to the last entry; invalid just when the list is empty |
| MpscQueueInvariant.NextKeepsInv | 3_pool/queue_design-master/MPSCQueue.h:29-49 | Every step of any producer or of the consumer keeps the chain linked in exchange order but for the links still owed, one owner for every node, and the output a prefix |
| MpscQueueInvariant.ExchangeKeepsInv | 3_pool/queue_design-master/MPSCQueue.h:34 | The exchange breaks the chain only behind the old head, and the producer owes just that link |
| MpscQueueInvariant.LinkKeepsInv | 3_pool/queue_design-master/MPSCQueue.h:35 | The link store mends that one break and touches nothing else |
| MpscQueueInvariant.DeleteKeepsInv | 3_pool/queue_design-master/MPSCQueue.h:47 | Deleting the old tail takes away memory that neither chain nor producer uses |
| MpscQueueRuns.DequeuedIsPrefix | 3_pool/queue_design-master/MPSCQueue.h:29-49 | In every run the dequeued payloads, then the one in the consumer's hand, if any, then those the tail has not passed, are the payloads in exchange order, and the last are still on the chain in memory |
| MpscQueueRuns.ReclamationIsSafe | 3_pool/queue_design-master/MPSCQueue.h:34-47 | When a node is deleted it is allocated, is neither head nor tail, and no producer will store into it or publish it; every link store goes to allocated memory |
| MpscQueueRuns.NobodyIsStuck | 3_pool/queue_design-master/MPSCQueue.h:29-48 | In every run the loads of Next and Data by the consumer, and the stores of links by producers, go to allocated memory and find what they need, so neither side ever lacks a next step |
| MpscQueueRuns.FalseMeansEmptyOrPending | 3_pool/queue_design-master/MPSCQueue.h:41-43 | Dequeue answers false if and only if everything exchanged has been taken or the producer of the very next item has yet to link it |
| MpscQueueAlone.CallsAreWaitFree | 3_pool/queue_design-master/MPSCQueue.h:29-49 | Under any interleaving each access of a call brings it nearer to its return: five accesses for Dequeue, three for Enqueue |
| MpscQueueAlone.DequeueAlone | 3_pool/queue_design-master/MPSCQueue.h:38-49 | From every state that keeps the invariant, links owed included, Dequeue left alone returns the next payload and frees the old tail if the tail is linked, and otherwise changes nothing |
| MpscQueueAlone.EnqueueAlone | 3_pool/queue_design-master/MPSCQueue.h:29-36 | From every such state Enqueue left alone puts a new node behind the head and links it |
| MpscQueueObjects.MPSCQueueNonIntrusive.constructor | 3_pool/queue_design-master/MPSCQueue.h:12-16 | A new queue is empty and owns its one stub node |
| MpscQueueObjects.MPSCQueueNonIntrusive.Enqueue | 3_pool/queue_design-master/MPSCQueue.h:29-36 | Undisturbed, appends the payload and owns one node more |
| MpscQueueObjects.MPSCQueueNonIntrusive.Dequeue | 3_pool/queue_design-master/MPSCQueue.h:38-49 | Undisturbed, returns and removes the first payload, if any, and frees exactly the old tail |
| MpscQueueObjects.MPSCQueueNonIntrusive.Destroy | 3_pool/queue_design-master/MPSCQueue.h:18-26 | With no producer left, deletes each remaining payload once, in order, and each node exactly once, leaving no memory |
| MpscIntrusiveInvariant.NextKeepsInv | 3_pool/queue_design-master/MPSCQueue.h:90-132 | Every step keeps the chain, the owners, and the dummy either on the chain once or off it |
| MpscIntrusiveInvariant.RefillKeepsInv | 3_pool/queue_design-master/MPSCQueue.h:123 | Resetting, exchanging in and linking the dummy keeps the chain, with producers exchanging in between |
| MpscIntrusiveInvariant.AdvanceKeepsInv | 3_pool/queue_design-master/MPSCQueue.h:107-116 | Moving the tail past the dummy or past an item keeps the chain and the producers' links |
| MpscIntrusiveRuns.DequeuedIsPrefix | 3_pool/queue_design-master/MPSCQueue.h:97-132 | In every run the items dequeued, then those still queued, are the items in exchange order |
| MpscIntrusiveRuns.DummyIsOnChainOnce | 3_pool/queue_design-master/MPSCQueue.h:119-123 | The dummy is on the live chain at most once; when its link is about to be reset and it is to go in again, it is off the chain, neither head nor tail, and no producer still holds it as prevHead |
| MpscIntrusiveRuns.ReturnedItemIsQuiet | 3_pool/queue_design-master/MPSCQueue.h:112-131 | An item back with a client, or with a producer before its exchange, is not on the chain, and no link store is pending into it |
| MpscIntrusiveRuns.NobodyIsStuck | 3_pool/queue_design-master/MPSCQueue.h:90-132 | In every run every load and store of a link goes to an item in memory, so neither the consumer nor a producer ever lacks a next step |
| MpscIntrusiveRuns.NoLinkMeansLastOrPending | 3_pool/queue_design-master/MPSCQueue.h:100-124 | Each load of a link by Dequeue finds none exactly when the item at the tail is the last exchanged in, or the producer of the very next has yet to link it; after the dummy went in again, just the latter |
| MpscIntrusiveRuns.FalseMeansEmptyOrPending | 3_pool/queue_design-master/MPSCQueue.h:104-131 | Under any interleaving Dequeue answers false if and only if a load has found no link: on the dummy, on an item that is not the head, or, with the dummy in again, on the item before it; in the last two something has been exchanged in behind the item |
| MpscIntrusiveRuns.ItemsAreConserved | 3_pool/queue_design-master/MPSCQueue.h:90-132 | No item is ever lost: each stays with a client, a producer or the chain |
| MpscIntrusiveAlone.CallsAreWaitFree | 3_pool/queue_design-master/MPSCQueue.h:90-132 | Under any interleaving each step of a call brings it nearer to its return, the enqueue of the dummy included |
| MpscIntrusiveAlone.DequeueAlone | 3_pool/queue_design-master/MPSCQueue.h:97-132 | From every state that keeps the invariant, Dequeue left alone answers true, with the first item on the chain, if and only if there is one and it is linked to its successor or is the last one exchanged in; otherwise it answers false and leaves items, links and order as they were |
| MpscIntrusiveAlone.EnqueueAlone | 3_pool/queue_design-master/MPSCQueue.h:90-95 | From every such state Enqueue left alone exchanges the item in behind the head and links it |
| MpscIntrusiveObjects.MPSCQueueIntrusive.constructor | 3_pool/queue_design-master/MPSCQueue.h:75-81 | A new queue is empty, the dummy alone on its chain |
| MpscIntrusiveObjects.MPSCQueueIntrusive.Enqueue | 3_pool/queue_design-master/MPSCQueue.h:90-95 | Appends the item, whatever other producers still owe |
| MpscIntrusiveObjects.MPSCQueueIntrusive.EnqueueDummy | 3_pool/queue_design-master/MPSCQueue.h:123 | Puts the dummy behind the last item |
| MpscIntrusiveObjects.MPSCQueueIntrusive.Dequeue | 3_pool/queue_design-master/MPSCQueue.h:97-132 | Gives up exactly when the queue is empty or a producer still owes the link out of the first item or into it; otherwise returns the first item and removes just that |
| MpscIntrusiveObjects.MPSCQueueIntrusive.Destroy | 3_pool/queue_design-master/MPSCQueue.h:83-88 | With no producer inside a call, deletes every queued item, in order, each once, and nothing a client holds |
| MpscIntrusiveObjects.EmptyIsDummyAlone | 3_pool/queue_design-master/MPSCQueue.h:101-105 | The queue is empty just when the dummy is alone on the chain |
| MsgQueueInvariant.StepKeepsMutex | 3_pool/queue_design-master/msgqueue.c:71-116 | At most one thread is inside each mutex |
| MsgQueueInvariant.StepKeepsGetSide | 3_pool/queue_design-master/msgqueue.c:67-84 | The getter's list stays linked through every store, and in the window where both heads are one its old head is kept, emptied, for the putters |
| MsgQueueInvariant.StepKeepsPutSide | 3_pool/queue_design-master/msgqueue.c:79-97 | The put list stays linked, put_tail its last slot and msg_cnt its length, but for the stores its owner has yet to make |
| MsgQueueInvariant.StepKeepsMessages | 3_pool/queue_design-master/msgqueue.c:86-117 | No message is ever on two lists, twice on one, or on a list and with a thread |
| MsgQueueInvariant.StepKeepsWake | 3_pool/queue_design-master/msgqueue.c:51-99 | Every step keeps the promise that sleepers have nothing to do or a wake-up coming |
| MsgQueueRuns.QueueIsFifo | 3_pool/queue_design-master/msgqueue.c:65-117 | In every run what was linked in is what was taken, then the get list, then the put list, in order, no message twice |
| MsgQueueRuns.FieldsDescribeLists | 3_pool/queue_design-master/msgqueue.c:67-97 | Whenever put_mutex is free, msg_cnt is the length of the put list and put_tail its last slot; whenever get_mutex is free, the two heads lead to the two lists |
| MsgQueueRuns.NoNullDereference | 3_pool/queue_design-master/msgqueue.c:95-110 | A getter about to take a message finds one, and its link has been written; the slot a putter links into exists and is the last; no thread ever lacks a next step |
| MsgQueueRuns.NullMeansEmpty | 3_pool/queue_design-master/msgqueue.c:72-116 | A getter returns NULL only if at an earlier instant, its test under put_mutex, nonblocking mode was set and both lists were empty |
| MsgQueueRuns.FoundNothingMeansEmpty | 3_pool/queue_design-master/msgqueue.c:72-82 | From the test that finds nothing put until that getter releases put_mutex, the whole queue stays empty |
| MsgQueueRuns.NoLostWakeups | 3_pool/queue_design-master/msgqueue.c:51-99 | A sleeping getter with a message to get or nonblocking mode set implies a thread that still owes a signal; a sleeping putter implies a full put list and, in nonblocking mode, a pending broadcast; at most one getter sleeps |
| MsgQueueRuns.PendingIsBounded | 3_pool/queue_design-master/msgqueue.c:92-97 | In runs that stay blocking with maxlen >= 1, at most 2 * maxlen messages are pending |
| MsgQueueNonblock.NonblockLasts | 3_pool/queue_design-master/msgqueue.c:51-63 | Once a thread has made the store of msgqueue_set_nonblock, the queue is in nonblocking mode until some thread makes the store of msgqueue_set_block |
| MsgQueueNonblock.NobodyGoesToSleep | 3_pool/queue_design-master/msgqueue.c:72-93 | In nonblocking mode no getter and no putter that makes its test decides to wait, and where nobody is asleep nobody falls asleep |
| MsgQueueNonblock.NonblockReleasesAll | 3_pool/queue_design-master/msgqueue.c:51-58 | When msgqueue_set_nonblock is about to return, no thread is asleep or about to be, and as long as the mode lasts none will be |
| MsgQueueAlone.PutAlone | 3_pool/queue_design-master/msgqueue.c:86-100 | From every state with put_mutex free and room, or nonblocking mode, a put left alone links its message in last and wakes a sleeping getter, if there is one, and nobody else |
| MsgQueueAlone.PutWaitsAlone | 3_pool/queue_design-master/msgqueue.c:90-93 | Full and blocking, a put comes to its wait with nothing linked |
| MsgQueueAlone.PutGoesOnAlone | 3_pool/queue_design-master/msgqueue.c:92-99 | A putter that has been woken links its message in if there is room by then or the mode has changed |
| MsgQueueAlone.GetAlone | 3_pool/queue_design-master/msgqueue.c:106-116 | With messages on the get list a get left alone returns the first and touches nothing else |
| MsgQueueAlone.GetSwapsAlone | 3_pool/queue_design-master/msgqueue.c:65-117 | With the get list empty but not the put list it takes the put list over, returns the first message, hands its own emptied head to the putters, and wakes them just when the put list was full |
| MsgQueueAlone.GetFindsNothingAlone | 3_pool/queue_design-master/msgqueue.c:65-117 | With nothing queued in nonblocking mode it returns NULL and leaves two empty lists |
| MsgQueueAlone.GetWaitsAlone | 3_pool/queue_design-master/msgqueue.c:65-73 | With nothing queued in blocking mode it comes to its wait, get_mutex held and the heads one |
| MsgQueueAlone.GetGoesOnAlone | 3_pool/queue_design-master/msgqueue.c:72-117 | A getter that has been woken takes the put list over and returns its first message, or NULL, if something was put by then or the mode has changed |
| MsgQueueAlone.SetNonblockAlone | 3_pool/queue_design-master/msgqueue.c:51-58 | msgqueue_set_nonblock sets the mode, wakes a sleeping getter and all sleeping putters, and changes nothing else |
| MsgQueueAlone.SetBlockAlone | 3_pool/queue_design-master/msgqueue.c:60-63 | msgqueue_set_block sets the mode back and changes nothing else |
| MessageQueues.MessageQueue.constructor | 3_pool/queue_design-master/msgqueue.c:139-147 | A new queue is empty and blocking |
| MessageQueues.MessageQueue.Put | 3_pool/queue_design-master/msgqueue.c:86-100 | Alone, or under a sleeping getter: appends the message, or waits, just when the put list is full in blocking mode, with nothing linked |
| MessageQueues.MessageQueue.StartSwap | 3_pool/queue_design-master/msgqueue.c:67-70 | The two heads become one and the getter keeps its own, emptied |
| MessageQueues.MessageQueue.FinishSwap | 3_pool/queue_design-master/msgqueue.c:72-83 | Sleeps on just when nothing was put in blocking mode; otherwise the put list becomes the get list and its length is returned |
| MessageQueues.MessageQueue.Take | 3_pool/queue_design-master/msgqueue.c:109-110 | Unlinks the first message of the get list |
| MessageQueues.MessageQueue.Get | 3_pool/queue_design-master/msgqueue.c:102-117 | Returns the first message; NULL just when the queue is empty in nonblocking mode, and waits just when it is empty in blocking mode; takes the put list over only when the get list has run out |
| MessageQueues.MessageQueue.Resume | 3_pool/queue_design-master/msgqueue.c:72-117 | A getter woken after any puts returns their first message, or sleeps again just when there is still nothing in blocking mode |
| Links.ChainAppend | 3_pool/queue_design-master/msgqueue.c:95 | Writing a cleared node into the last slot appends it to the list |
| Links.ChainTake | 3_pool/queue_design-master/msgqueue.c:110 | Copying the first node's link into the head removes the first node |
| Links.ChainWithout | 3_pool/thread_pool-master/thrd_pool.c:229 | Freeing a node that is not on a list leaves the list as it is |
| Links.ChainElsewhere | 3_pool/thread_pool-master/thrd_pool.c:122-123 | A store to a slot outside a list leaves the list as it is |
| ThreadPoolInvariant.StepKeepsControl | 1_CPBase/threadPool/tp.cpp:18-27 | At most one thread is in a locked scope, and what a thread has read there still holds while it is inside |
| ThreadPoolInvariant.StepKeepsTasks | 1_CPBase/threadPool/tp.cpp:18-50 | Every step keeps each accepted task queued, in one worker's hand, or called |
| ThreadPoolInvariant.StepKeepsWake | 1_CPBase/threadPool/tp.cpp:19-60 | Every step keeps the wake-up promise below, spurious wake-ups included |
| ThreadPoolRuns.PopFindsATask | 1_CPBase/threadPool/tp.cpp:25-26 | front and pop are never called on an empty queue |
| ThreadPoolRuns.TasksAreConserved | 1_CPBase/threadPool/tp.cpp:25-28 | In every run tasks are popped in the order accepted, called at most once and only after the pop, and a popped task has been called or is in a worker's hand, never both |
| ThreadPoolRuns.SleepersLeaveNoWork | 1_CPBase/threadPool/tp.cpp:16-51 | While the pool runs, a sleeping worker implies no more queued tasks than notifications to come plus workers woken and not yet served; once it is stopped, a notify_all to come |
| ThreadPoolRuns.JoinedMeansDrained | 1_CPBase/threadPool/tp.cpp:55-64 | With at least one worker, when the destructor has joined them the queue is empty, everything accepted was popped in order, and each was called exactly once |
| ThreadPoolRuns.DrainedIffWorkers | 1_CPBase/threadPool/tp.cpp:55-64 | After the destructor the queue is empty if and only if there was a worker or nothing was accepted |
| ThreadPoolNoWorkers.TaskCanBeLeft | 1_CPBase/threadPool/tp.cpp:12-64 | A run of a pool made with no workers, in which the destructor returns with an accepted task still queued and never called |
| ThreadPoolRuns.NoneAcceptedAfterStop | 1_CPBase/threadPool/tp.cpp:45-49 | Once stop is set it stays set and no task is accepted any more |
| ThreadPoolRuns.ThrowMeansStopped | 1_CPBase/threadPool/tp.cpp:46-48 | An enqueue throws only in a stopped pool |
| ThreadPoolRuns.EnqueueAcceptedIff | 1_CPBase/threadPool/tp.cpp:43-50 | In every run an enqueue throws if and only if the pool was stopped at its test, and once past its push its task has been accepted if and only if it was not |
| ThreadPoolAlone.EnqueueAlone | 1_CPBase/threadPool/tp.cpp:34-53 | From every state of a running pool with the mutex free, enqueue left alone queues its task last, wakes a sleeper, if there is one, and does nothing else |
| ThreadPoolAlone.EnqueueThrowsAlone | 1_CPBase/threadPool/tp.cpp:43-48 | On a stopped pool it throws, with nothing queued and nobody woken |
| ThreadPoolAlone.WorkerServesAlone | 1_CPBase/threadPool/tp.cpp:15-28 | A worker at the start of its loop, or woken, that finds tasks takes the first and calls it, stopped or not |
| ThreadPoolAlone.WorkerRestsAlone | 1_CPBase/threadPool/tp.cpp:19-24 | With nothing queued it goes to sleep while the pool runs, and exits once it is stopped |
| ThreadPoolAlone.WorkerDrainsAlone | 1_CPBase/threadPool/tp.cpp:15-29 | Left alone with tasks that make no calls, a worker calls every queued task, in order, and then goes to sleep, or exits if the pool is stopped |
| ThreadPoolAlone.DestructorStopsAlone | 1_CPBase/threadPool/tp.cpp:55-60 | The destructor stops the pool and wakes everyone, and changes nothing else |
| ThreadPoolAlone.DestructorJoinsAlone | 1_CPBase/threadPool/tp.cpp:61-63 | Once every worker has exited it returns |
| TaskPools.TaskPool.Work | 1_CPBase/threadPool/tp.cpp:15-29 | Alone, a worker calls every queued task in order, then returns if the pool is stopped and waits otherwise |
| ThrdPoolInvariant.SpinWord | 3_pool/thread_pool-master/spinlock.h:72-91 | The lock word is set exactly while a thread is inside, and the exchange lets nobody else in |
| ThrdPoolInvariant.StepKeepsLocks | 3_pool/thread_pool-master/spinlock.h:72-91 | Every step keeps the word, the one thread inside, and the mutex in agreement |
| ThrdPoolRuns.SpinlockExcludes | 3_pool/thread_pool-master/spinlock.h:72-91 | In every run at most one thread is between spinlock_lock and spinlock_unlock |
| ThrdPoolInvariant.StepKeepsChain | 3_pool/thread_pool-master/thrd_pool.c:122-153 | Each store leaves the links from head spelling out the queue, appends to it, or takes its first |
| ThrdPoolInvariant.StepKeepsTail | 3_pool/thread_pool-master/thrd_pool.c:126-157 | tail addresses the last link but for the store that the thread inside the lock has yet to make |
| ThrdPoolRuns.QueueIsFifo | 3_pool/thread_pool-master/thrd_pool.c:119-160 | In every run pops follow push order, and whenever the spinlock is free tail addresses the last link, or head when the queue is empty |
| ThrdPoolRuns.NoUseAfterFree | 3_pool/thread_pool-master/thrd_pool.c:119-234 | No thread ever follows a pointer to a freed node or frees one twice |
| ThrdPoolRuns.TasksAreConserved | 3_pool/thread_pool-master/thrd_pool.c:198-234 | Every task node is in exactly one of queue, a thread's hand, or freed; no node is freed twice, and a handler is called at most once, after its node was freed |
| ThrdPoolRuns.OneHandEach | 3_pool/thread_pool-master/thrd_pool.c:340-350 | No two threads have the same task in hand |
| ThrdPoolCalls.TakenTasksAreCalled | 3_pool/thread_pool-master/thrd_pool.c:224-231 | In every run each task that a worker has popped has been called, or is in the hand of one worker, the call included, and never both; nothing else is ever called; until the queue is being destroyed these are all the pops |
| ThrdPoolCalls.WaitdoneMeansCalled | 3_pool/thread_pool-master/thrd_pool.c:224-231 | When thrdpool_waitdone returns, the tasks called are just those that workers popped, each once |
| ThrdPoolRuns.WaitdoneFreesAll | 3_pool/thread_pool-master/thrd_pool.c:360-368 | When thrdpool_waitdone returns, the queue is empty and every node ever allocated has been freed exactly once |
| ThrdPoolRuns.ShutdownWakesSleepers | 3_pool/thread_pool-master/thrd_pool.c:99-109 | A worker asleep with block cleared implies a thread that still owes the broadcast |
| ThrdPoolRuns.TerminateStoresFlags | 3_pool/thread_pool-master/thrd_pool.c:99-108 | A terminate that is about to broadcast has set quit and cleared block |
| ThrdPoolRuns.TerminateIsForGood | 3_pool/thread_pool-master/thrd_pool.c:298-301 | Once thrdpool_terminate has returned, quit is set, block is clear and no worker is asleep, in that and in every later state |
| ThrdPoolRuns.WorkersLeaveAfterQuit | 3_pool/thread_pool-master/thrd_pool.c:224-233 | A worker returns only from a pool that has quit |
| ThrdPoolRuns.StepTakes | 3_pool/thread_pool-master/thrd_pool.c:224-231 | Once the pool has quit, each pop by a worker uses up one worker that was past its test of quit |
| ThrdPoolRuns.LatePopsAreBounded | 3_pool/thread_pool-master/thrd_pool.c:224-301 | After quit is stored, by a client or from inside a task, workers pop at most one task for each of them past its test, so at most thrd_count |
| ThrdPoolRuns.PostRefusedIff | 3_pool/thread_pool-master/thrd_pool.c:342-343 | In every run a post is refused at its test if and only if the pool has quit |
| ThrdPoolRuns.LatePostsAreBounded | 3_pool/thread_pool-master/thrd_pool.c:342-348 | After quit is stored, at most the posts already past their test of it are linked in |
| ThrdPoolAlone.SpinnerWaits | 3_pool/thread_pool-master/spinlock.h:72-91 | A thread that spins on the word of the spinlock makes no exchange and no store as long as the word is set |
| ThrdPoolAlone.SpinEndsAlone | 3_pool/thread_pool-master/spinlock.h:72-91 | Once the word is clear, a spinning thread left alone gets in |
| ThrdPoolAlone.PostAlone | 3_pool/thread_pool-master/thrd_pool.c:119-130 | From every state that keeps the invariant with the spinlock free, a post left alone, in a pool that has not quit and malloc willing, links a new task in last, wakes a sleeper, if there is one, and does nothing else |
| ThrdPoolAlone.PostRefusedAlone | 3_pool/thread_pool-master/thrd_pool.c:342-343 | In a pool that has quit it is refused and changes nothing |
| ThrdPoolAlone.TerminateAlone | 3_pool/thread_pool-master/thrd_pool.c:298-301 | A terminate sets both flags and wakes everyone, and changes nothing else |
| ThrdPoolAlone.WorkerServesAlone | 3_pool/thread_pool-master/thrd_pool.c:224-230 | A worker that comes to the queue, past its test of quit or just woken, and finds tasks takes the first, frees its node and calls it |
| ThrdPoolAlone.WorkerRestsAlone | 3_pool/thread_pool-master/thrd_pool.c:171-189 | With nothing queued it goes to sleep while the pool blocks, and exits once it does not |
| ThrdPoolAlone.WorkerDrainsAlone | 3_pool/thread_pool-master/thrd_pool.c:218-234 | Left alone in a running pool with tasks that make no calls, a worker calls every queued task, in order, and then goes to sleep |
| ThrdPoolAlone.WorkerQuitsAlone | 3_pool/thread_pool-master/thrd_pool.c:224 | Between tasks a worker of a pool that has quit exits, whatever is queued |
| ThrdPoolAlone.WaitdoneAlone | 3_pool/thread_pool-master/thrd_pool.c:359-368 | Once every worker has exited, thrdpool_waitdone joins them, pops and frees every queued task, in order and unrun, and returns |
| ThrdPoolPosts.StepConservesIff | 3_pool/thread_pool-master/thrd_pool.c:120-187 | Call a worker covering when it is awake on its way to the queue, and a post when it has linked but not signalled. A step keeps this, in a blocking pool with a worker asleep or about to be there are no more queued tasks than cover, if and only if it is not a signal sent to nobody, past a worker between its empty check and its wait, with no cover to spare |
| ThrdPoolPosts.SignalConservesIff | 3_pool/thread_pool-master/thrd_pool.c:129 | A signal keeps that balance if and only if somebody is asleep, or no worker is between empty check and wait, or there was cover to spare |
| ThrdPoolPosts.RunConservesIff | 3_pool/thread_pool-master/thrd_pool.c:120-187 | A run keeps that balance at every state if and only if each of its steps can be taken without losing a wake-up |
| ThrdPoolPosts.RestLeavesNoTasks | 3_pool/thread_pool-master/thrd_pool.c:171-189 | When a run that has lost no wake-up comes to rest, a worker asleep in a blocking pool has left the queue empty |
| ThrdPoolMissedPost.PostCanBeMissed | 3_pool/thread_pool-master/thrd_pool.c:120-187 | The failing side: a run in which a post's signal comes between a worker's empty check and its wait; the task stays queued, the only worker sleeps, nobody is in a call, and the balance is broken |
| TaskQueues.TaskQueue.Add | 3_pool/thread_pool-master/thrd_pool.c:120-130 | Undisturbed, appends the task |
| TaskQueues.TaskQueue.Pop | 3_pool/thread_pool-master/thrd_pool.c:141-160 | Undisturbed, removes the first task and returns it, NULL just when the queue is empty |
| TaskQueues.TaskQueue.Destroy | 3_pool/thread_pool-master/thrd_pool.c:199-203 | Pops and frees every queued task, in order, and leaves none of them in memory |
| PagePool.AllocatedKeepsInv | 3_pool/3.1.2-mempool-main/mempool.c:63-99 | A request keeps grants disjoint and inside pages, pages disjoint, any two pages together over one page's capacity, and the bytes used equal to the bytes granted |
| PagePool.GrantsAreDisjoint | 3_pool/3.1.2-mempool-main/mempool.c:68-97 | For every sequence of requests that fit in a page, the ranges lie inside their pages, whose capacity is unchanged and never exceeded, are pairwise disjoint, and are clear of every page header |
| PagePool.GrantsMissFields | 3_pool/3.1.2-mempool-main/mempool.c:10-14 | No range handed out shares a byte with free_ptr, end or next of any page, and fields and ranges lie inside the pages that malloc returned |
| PagePool.HeaderHoldsFields | 3_pool/3.1.2-mempool-main/mempool.c:10-14 | The three eight-byte fields lie side by side and fill the header exactly |
| PagePool.FirstGrantFollowsFields | 3_pool/3.1.2-mempool-main/mempool.c:32 | The first request of a fresh page is placed right behind its last field |
| PagePool.PairsBoundTotal | 3_pool/3.1.2-mempool-main/mempool.c:68-91 | If any two of at least two pages exceed one page's capacity together, all of them exceed half of theirs |
| PagePool.OverHalfIsUsed | 3_pool/3.1.2-mempool-main/mempool.c:63-99 | With k >= 2 pages, more than k * cap / 2 bytes have been granted |
| PagePool.FirstFit | 3_pool/3.1.2-mempool-main/mempool.c:68-79 | The page chosen has room and no page before it has |
| PagePool.MemPool.constructor | 3_pool/3.1.2-mempool-main/mempool.c:24-42 | A new pool has one empty page |
| PagePool.MemPool.FindRoom | 3_pool/3.1.2-mempool-main/mempool.c:65-79 | The walk over the page list finds the first page with room, or null |
| PagePool.MemPool.AddPage | 3_pool/3.1.2-mempool-main/mempool.c:83-91 | A new page goes to the front of the list and leaves the rest linked |
| PagePool.MemPool.Alloc | 3_pool/3.1.2-mempool-main/mempool.c:63-99 | Answers as the value-level allocator does and keeps its invariant |
| BlockPool.LoadStore | 3_pool/3.1.2-mempool-main/mempool-v1.c:33 | A pointer stored into a block is read back |
| BlockPool.RunKeepsBalance | 3_pool/3.1.2-mempool-main/mempool-v1.c:49-67 | Under every legal sequence of calls and writes free and outstanding blocks partition the page's blocks, and nothing is free just when all are out |
| BlockPool.RunRefines | 3_pool/3.1.2-mempool-main/mempool-v1.c:49-67 | Served from the bytes of the page, with clients writing anything into the blocks they hold, every legal sequence of calls does what the list of free blocks does: the threading survives, no access leaves the page, and nothing after the page changes |
| BlockPool.HolderReadsItsWrites | 3_pool/3.1.2-mempool-main/mempool-v1.c:49-67 | Over any such sequence, a byte of a block that is held throughout reads as its holder last wrote it, whatever is allocated, returned and written elsewhere |
| BlockPool.OpRepresents | 3_pool/3.1.2-mempool-main/mempool-v1.c:49-67 | One call or write reaches only into the page, changes nothing after it, and leaves the bytes threading the new list of free blocks |
| BlockPool.Balance | 3_pool/3.1.2-mempool-main/mempool-v1.c:28 | Free plus outstanding is the initial count |
| BlockPool.BlockLayout | 3_pool/3.1.2-mempool-main/mempool-v1.c:28-35 | Blocks lie in the page and do not overlap |
| BlockPool.ThreadingUntouched | 3_pool/3.1.2-mempool-main/mempool-v1.c:55-65 | Any write inside an outstanding block leaves the free list threaded as it was |
| BlockPool.ReturnedIsThreaded | 3_pool/3.1.2-mempool-main/mempool-v1.c:62-67 | Storing the old head into the block and making it the head threads it in front |
| BlockPool.LineIsThreaded | 3_pool/3.1.2-mempool-main/mempool-v1.c:30-35 | The initial threading visits every block in address order |
| BlockPool.MemPool.Init | 3_pool/3.1.2-mempool-main/mempool-v1.c:18-39 | Fails just when malloc does; otherwise every block of the page is free, none smaller than 16 bytes, and what follows the page is as before exactly under the condition of TerminatorStaysIff |
| BlockPool.MemPool.Alloc | 3_pool/3.1.2-mempool-main/mempool-v1.c:49-59 | Returns NULL just when all blocks are out; otherwise the address of the first free block, which joins the outstanding ones |
| BlockPool.MemPool.Free | 3_pool/3.1.2-mempool-main/mempool-v1.c:62-67 | The block becomes the first free one |
| BlockPool.MemPool.Write | 3_pool/3.1.2-mempool-main/mempool-v1.c:49-59 | A client may write any byte of a block it holds without disturbing the pool |
| BlockPool.ThreadPage | 3_pool/3.1.2-mempool-main/mempool-v1.c:30-35 | The loop leaves each block holding the address of the next |
| BlockPool.Terminate | 3_pool/3.1.2-mempool-main/mempool-v1.c:36 | Stores the null after the last block, in the page or past it, and leaves every link as it was |
| BlockPool.TerminatorStaysIff | 3_pool/3.1.2-mempool-main/mempool-v1.c:28-36 | The terminator leaves alone what follows the page if and only if the page size modulo the block size is at least eight, or the bytes it falls on are zero already |
| BlockPool.BlocksOf32Spill | 3_pool/3.1.2-mempool-main/mempool-v1.c:74 | The failing side: with blocks of 32 bytes, as the program asks for, a nonzero byte after the page is lost |

## Left out

- Weak memory: the models interleave atomic accesses sequentially consistently; memory orders are not modelled, and the programs `relaxed.cc`, `acquire_release.cc` and `seq_cst.cc` that show them off are not part of this model.
- Heap addresses: the nodes of the skip list and of the C pool, and the tasks of `tp.cpp`, are numbers that are never reused, so reuse of an address by malloc is not modelled there; which memory is allocated at each step is. The non-intrusive MPSC queue does reuse addresses.
- Random heights: any height from 1 to kMaxHeight_ may be drawn; how likely each is, is not modelled.
- Comparators: the order is exact; the overflow of a comparator that subtracts is not modelled.
- Writer's search: Insert's own search and the filling of `prev_` touch nothing shared, so in the concurrent model they come before the first store in one piece; the class models them access by access.
- SkipListIterators.Iterator.Seek: the iterator's calls, as methods of the class, are over a list at rest; over the writer's interleavings Seek is `SkipListReaders.FindIsLinearizable`.
- SkipListIterators.Iterator.Prev: over a list at rest; over interleavings it is `SkipListBackward.DescentIsLinearizable`.
- SkipListIterators.Iterator.SeekToLast: over a list at rest; over interleavings it is `SkipListBackward.DescentIsLinearizable`.
- SkipListIterators.Iterator.SeekForPrev: over a list at rest; over interleavings it is `SkipListBackward.SeekForPrevIsLinearizable`, which does not promise that the loop ends under endless inserts.
- MpscIntrusiveObjects.MPSCQueueIntrusive.Dequeue: one call with every producer held where it is; its false answers under interleaving are in `MpscIntrusiveRuns`.
- MPSC queues destroyed while producers are inside a call: the destructors ask their caller to rule it out.
- MsgQueueRuns.PendingIsBounded: does not cover maxlen == 0, where `msg_max - 1` wraps and the queue is unbounded (`MsgQueue.Full` models the wrap), nor runs that have been in nonblocking mode.
- MessageQueues.MessageQueue.Get: the classes take one call at a time; a call that would sleep says so and stops there, and how the sleepers of several threads are woken is in the state machines.
- MsgQueue: message addresses and `linkoff` are abstracted to one link per message; `msg_cnt` is unbounded; creation failures and `msgqueue_destroy` are not modelled.
- TaskPools.TaskPool: the class has only the loop of the worker; enqueue and the destructor are steps of the state machine.
- ThreadPool: a task is the handle made by make_shared; its arguments, result and future are not modelled, nor is the failure to start a thread.
- ThrdPool: a caller of thrdpool_waitdone makes sure that no other client is in a call or makes one later.
- TaskQueues.TaskQueue.Pop: the class leaves the spinlock out, which nobody else holds; the state machine has it access by access.
- ThrdPool: failures of thread creation and the roll-back in `__threads_create`, and the fields `func` and `arg`, which go with the task's number.
- PagePool: `mp_dest`, whose loop never runs on a live pool, the empty `mp_free`, malloc failure, and a negative or too large size.
- BlockPool.MemPool.Free: freeing a block that is not outstanding is ruled out by a precondition, as is a null `m`; of the memory after the page, only the eight bytes that the terminator can reach are modelled.
- `LockedQueue.h`, `ProducerConsumerQueue.h`, `condition_variable.cpp` and `ThreadWrapper.hpp`: one lock around one container.
- `2_Net` and the demonstrations of smart pointers, lambdas, bind, vectors and copies.
