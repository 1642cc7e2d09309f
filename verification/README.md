# Verified models of the queues, the pipeline and the codecs

The sensor collects kernel traces with three threads, moves them through queues, and prints, parses and encodes what it
finds. This project models the parts of it that are easiest to get wrong and proves what their comments, asserts and
documentation promise:

- **The lock-free queue** (`concurrentqueue.h`): the free list with reference counts (`FreeList`), the optimistic dequeue
  counters (`DequeueCounters`), the explicit producer's ring and doubling index (`ExplicitProducer`, `ExplicitIndex`,
  `ExplicitRace`, `ExplicitRefusal`, `ExplicitValues`), the implicit producer's rotating and rewinding index
  (`ImplicitProducer`, `ImplicitIndex`, `ImplicitRace`, `ImplicitValues`), and the growing hash from threads to producers
  (`ProducerHash`). `CircularIndex` has the word arithmetic that both indices share, `ElementStore` the slots.
- **The single-producer single-consumer queue** (`readerwriterqueue.h`): all interleavings (`SpscQueue`), and what the
  constructor's capacity promises (`Capacity`, `PowerOfTwo`).
- **The semaphores and blocking wrappers** (`blockingconcurrentqueue.h`, `atomicops.h`): `BlockingQueue`, `SpscBlocking`.
- **JSON** (`json.hpp`): comparison (`JsonOrder`, `JsonNumbers`, `JsonLaws`), scanner, printer, parser, and the round trip.
- **The pipeline** (`multithreaded_sensor.h`, `simple_queue.h`, `data_aggregator.h`, `utils.h`): `Pipeline`, `SafeQueue`,
  `LineSplit`.
- **Number and byte codecs** (`format.h`, `format.cc`, `encoding.h`): `DecimalWriter`, `Base64`.

Concurrent code is a state machine: each atomic load, store, compare-exchange or fetch-and-add is one step, any number of
threads take their steps in any order, and a run is any finite sequence of steps. The main results are about every
reachable state. Sequential code that updates objects in place is a class whose methods are proved against the abstract
value, or a loop with its invariants.

For the two producers there is both: the classes prove what each operation does to the sequence of elements, one whole
enqueue at a time, and the machines `ExplicitRace` and `ImplicitRace` prove that consumers find their blocks when the
producer is interrupted between any two accesses. `ExplicitValues` and `ImplicitValues` put the elements into the slots of
those machines and prove that every consumer takes the element that was enqueued under its number.

Where the code falls short of what it seems to promise, there is an input that shows it and the exact condition under which
the promise holds:

- `operator==` and `operator<` on JSON values misbehave on floating-point numbers that are not whole, or so large that
  other integers are rounded to them (`JsonLaws.LawfulExactlyWhenTame`); what `operator<` is a weak order on is
  `JsonLaws.WeakOrderExactlyWhenPlaced`, and where it is transitive `JsonLaws.TransitiveExactlyWhenPlacedOrNumber`.
- A bulk enqueue of an explicit producer that gives up keeps the blocks it has linked into the ring but takes back their
  count, and a new index but not the entries in it; elements can then become impossible to find
  (`ExplicitRefusal.RefusalHarmlessExactly`).
- `get_string` keeps the backslash in front of a quote and of another backslash, and integers are parsed as doubles
  (`JsonRoundTrip.RoundTrip`); it drops the character after a surrogate pair (`JsonParser.PairDropsNext`).
- `split_string` does not carry over a residue of one character (`LineSplit.CutsMakeNoDifference`).
- `parse_nonnegative_int` misses some overflows (`DecimalWriter.ParsesExactly`).

## Model

| member | source | states |
|---|---|---|
| FreeList.EveryNodeInOnePlace | include/queue/moodycamel/concurrentqueue.h:1261-1340 | In every reachable state, for any number of threads, each node is exactly one of: in a client's hands, on the acyclic chain once, being added or taken by one thread, or flagged should-be-on-list with a reference outstanding |
| FreeList.NextIsFrozen | include/queue/moodycamel/concurrentqueue.h:1320-1340 | While a thread holds a reference to a node no step of any thread changes its next pointer |
| FreeList.NoAba | include/queue/moodycamel/concurrentqueue.h:1275-1300 | A successful head compare-exchange of try_get takes exactly the first node of the chain off and leaves the rest, whatever happened since the node and its next pointer were read |
| FreeList.TakenNodeIsNotFlagged | include/queue/moodycamel/concurrentqueue.h:1293-1296 | The assertion that the flag of a node just taken is clear |
| FreeList.HandedOutOnce | include/queue/moodycamel/concurrentqueue.h:1275-1314 | A node about to be returned by try_get is owned by nobody, kept by no other thread and on no chain |
| FreeList.NothingLost | include/queue/moodycamel/concurrentqueue.h:1261-1340 | When every thread is outside its operations each node is with a client or on the list, never both, and no count or flag is left over |
| FreeList.EmptyHandedOnlyWhenEmpty | include/queue/moodycamel/concurrentqueue.h:1275-1314 | try_get returns nothing only if the chain was empty at some moment during the call, whether a load of the head has seen that or a failed compare-exchange that reloads it |
| FreeList.LeavesWhenEmpty | include/queue/moodycamel/concurrentqueue.h:1275-1280 | A try_get that has just loaded the head leaves at once exactly if the chain is empty |
| FreeList.NeverStuck | include/queue/moodycamel/concurrentqueue.h:1261-1340 | No thread ever follows a link to a node that does not exist |
| DequeueCounters.GrantsFit | include/queue/moodycamel/concurrentqueue.h:1755-1797 | The heart of overcommit: if every unit granted had an effective count within the tail, all units granted and taken together fit under the tail |
| DequeueCounters.NeverOvertakes | include/queue/moodycamel/concurrentqueue.h:1755-1850 | Over all interleavings of single and bulk dequeuers and the enqueuer, no consumer takes an index that has not been written and published |
| DequeueCounters.EachIndexClaimedOnce | include/queue/moodycamel/concurrentqueue.h:1797-1806 | Every index below headIndex has been claimed by exactly one consumer, and none above |
| DequeueCounters.DeliveredInOrder | include/queue/moodycamel/concurrentqueue.h:2039-2129 | Together the consumers receive the elements below headIndex, each once, in order |
| DequeueCounters.OvercommitBehind | include/queue/moodycamel/concurrentqueue.h:1780-1787 | The assertion overcommit <= myDequeueCount |
| DequeueCounters.QuiescentExact | include/queue/moodycamel/concurrentqueue.h:1755-1765 | With no consumer inside a dequeue, dequeueOptimisticCount - dequeueOvercommit is headIndex, so the emptiness check is exact |
| DequeueCounters.DequeueAlone | include/queue/moodycamel/concurrentqueue.h:2343-2411 | A dequeue that meets no other consumer takes as many elements as there are, up to its maximum |
| DequeueCounters.CircularAgrees | include/queue/moodycamel/concurrentqueue.h:315-327 | circular_less_than on wrapped words is the unbounded order exactly while the indices are less than half the range apart in one direction and at most half in the other |
| DequeueCounters.WrappedDecisionsAgree | include/queue/moodycamel/concurrentqueue.h:2565-2590 | For spans below half the range the checks on wrapped words decide as those on unbounded counts: the same amount wanted and granted |
| CircularIndex.LookupSlot | include/queue/moodycamel/concurrentqueue.h:1807-1816 | Although the signed difference is divided by an unsigned block size, the computed slot is that of the block looked for, ahead or behind, because the index size is a power of two that divides the range |
| CircularIndex.SlotIsMod | include/queue/moodycamel/concurrentqueue.h:1735-1739 | Stepping with a mask is counting modulo the size |
| CircularIndex.WordsCompare | include/queue/moodycamel/concurrentqueue.h:1671-1686 | The fullness tests on wrapped words, while the tail is at most half the range ahead of the head |
| CircularIndex.BlocksNeeded | include/queue/moodycamel/concurrentqueue.h:1866-1868 | The number of blocks a bulk enqueue needs and the base of the first, computed with wrapping masks, are those of the unbounded counts |
| CircularIndex.StopMeans | include/queue/moodycamel/concurrentqueue.h:1964-1968 | Where a bulk operation stops in a block: at the block's end or at the new tail, whichever is first |
| CircularIndex.WalkReaches | include/queue/moodycamel/concurrentqueue.h:2074-2119 | Walking on from the slot of a block leads to the slots of the blocks after it |
| ExplicitRace.PreserveStep | include/queue/moodycamel/concurrentqueue.h:1652-1960 | Every single access of an enqueuer, starting one block or a bulk of them, giving up halfway included, and of any number of consumers keeps the invariant: the index holds the ring's blocks in order with rising bases, also between the writes of one entry |
| ExplicitRace.RunInv | include/queue/moodycamel/concurrentqueue.h:1652-1960 | The invariant holds in every state that is reached by runs in which refused operations do no harm |
| ExplicitRace.LookupExact | include/queue/moodycamel/concurrentqueue.h:1807-1816 | However stale the index, front and base a consumer has loaded, and wherever the producer stands, the entry it computes is that of its own block |
| ExplicitRace.BulkWalk | include/queue/moodycamel/concurrentqueue.h:2060-2119 | A bulk dequeue that looks up its first element's block and walks on finds the blocks of its other elements |
| ExplicitRace.ReusedWhenEmpty | include/queue/moodycamel/concurrentqueue.h:1659-1670 | A block is taken again only when it is that of no element left and all elements that were in it last have been taken |
| ExplicitRace.HeldBlockStays | include/queue/moodycamel/concurrentqueue.h:1818-1844 | The block a consumer holds is not the one the producer is entering |
| ExplicitRace.NeverStuck | include/queue/moodycamel/concurrentqueue.h:1797-1850 | A consumer that has claimed an element can always take its next step |
| ExplicitRace.GrowthIndex | include/queue/moodycamel/concurrentqueue.h:2148-2185 | Doubling keeps the invariant, also in the middle of a bulk enqueue, when the exposed front is not that of the last block entered |
| ExplicitRefusal.RefusalHarmlessExactly | include/queue/moodycamel/concurrentqueue.h:1886-1915 | After a refused bulk enqueue every element can be found through the index in all that follows, exactly if it has linked no block from the pool into the ring, and has not installed a new index after taking a block from ahead unless all elements had been taken by then |
| ExplicitRefusal.AlwaysServed | include/queue/moodycamel/concurrentqueue.h:1807-1816 | In runs where refused operations do no harm, every element that has not been taken can be found at any moment |
| ExplicitRefusal.UncountedMisleads | include/queue/moodycamel/concurrentqueue.h:1893-1899 | While pr_blockIndexSlotsUsed leaves a block of the ring out, the producer can go on until it overwrites the entry of an element that has not been taken |
| ExplicitRefusal.ShiftedMisleads | include/queue/moodycamel/concurrentqueue.h:1893-1915 | With originalBlockIndexFront set behind entries of blocks that were given back, the next block entered makes older elements be looked up in the wrong block |
| ExplicitValues.EachElementOnce | include/queue/moodycamel/concurrentqueue.h:1652-2129 | Over all interleavings of single accesses, what a consumer takes for its number is the element enqueued under it, and every number handed out and finished has been served |
| ExplicitValues.FindsItsElement | include/queue/moodycamel/concurrentqueue.h:1818-1844 | A consumer that holds its block finds its element in the slot |
| ExplicitValues.NothingRewritten | include/queue/moodycamel/concurrentqueue.h:1957-1975 | The elements enqueued only grow at the end, and what was delivered for a number stays |
| ExplicitProducer.ExplicitProducer.Enqueue | include/queue/moodycamel/concurrentqueue.h:1652-1752 | Appends exactly the element, or leaves the queue as it was; succeeds exactly if the tail block has room, or the oldest block has been emptied, or another block is within the limits and it and its index entry can be had |
| ExplicitProducer.ExplicitProducer.StartBlock | include/queue/moodycamel/concurrentqueue.h:1656-1742 | Re-use, insertion and index doubling keep the representation |
| ExplicitProducer.ExplicitProducer.NewBlockIndex | include/queue/moodycamel/concurrentqueue.h:2148-2185 | A doubled index serves the ring and every consumer as well as the old one |
| ExplicitProducer.ExplicitProducer.NextIsEmpty | include/queue/moodycamel/concurrentqueue.h:1656-1664 | The block after the tail is the oldest of the ring and reads as empty exactly if all its 32 elements have been dequeued |
| ExplicitProducer.ExplicitProducer.Claim | include/queue/moodycamel/concurrentqueue.h:1797-1800 | Takes the oldest unclaimed element's index |
| ExplicitProducer.ExplicitProducer.Locate | include/queue/moodycamel/concurrentqueue.h:1807-1816 | The lookup through a loaded index and front ends at the block the element was put in |
| ExplicitProducer.ExplicitProducer.Take | include/queue/moodycamel/concurrentqueue.h:1818-1844 | Moves out the element enqueued at the claimed index and flags its slot |
| ExplicitProducer.ExplicitProducer.LiveElementInPlace | include/queue/moodycamel/concurrentqueue.h:1659-1670 | Every element not yet taken is in its own unflagged slot of its own block of the ring |
| ExplicitProducer.EmptyMeansDrained | include/queue/moodycamel/concurrentqueue.h:1371-1395 | A block reads as empty exactly when all 32 elements have been dequeued |
| ExplicitProducer.RotateRing | include/queue/moodycamel/concurrentqueue.h:1659-1663 | Advancing over the oldest block rotates the ring |
| ExplicitProducer.ExtendRing | include/queue/moodycamel/concurrentqueue.h:1700-1710 | Inserting behind the tail extends the ring |
| ExplicitIndex.PublishWindow | include/queue/moodycamel/concurrentqueue.h:1733-1739 | Entering a block keeps the window of the index the ring's blocks in order with rising bases |
| ExplicitIndex.DoubledIndexes | include/queue/moodycamel/concurrentqueue.h:2148-2185 | A larger index that starts with the ring's entries, oldest first, serves as well |
| ExplicitIndex.CopyRing | include/queue/moodycamel/concurrentqueue.h:2160-2168 | The do-while loop copies exactly the ring's entries, oldest first, also when the index is full |
| ImplicitRace.PreserveStep | include/queue/moodycamel/concurrentqueue.h:2270-2340 | Every single access of the producer (test, key, tail, block, value, and the steps back) and of any number of consumers keeps the invariant of the block index and the pool |
| ImplicitRace.RunInv | include/queue/moodycamel/concurrentqueue.h:2415-2560 | The invariant holds in every reachable state, in the middle of enqueues, bulk enqueues and rollbacks too |
| ImplicitRace.KeyNeverInvalid | include/queue/moodycamel/concurrentqueue.h:2730-2735 | The assertion that the key at the tail a consumer has loaded is not INVALID_BLOCK_BASE |
| ImplicitRace.LookupExact | include/queue/moodycamel/concurrentqueue.h:2724-2742 | The assertion that the entry found has the key looked for and a block, for every interleaving with insertion, growth, rewind and rollback |
| ImplicitRace.BulkWalk | include/queue/moodycamel/concurrentqueue.h:2588-2655 | A bulk dequeue that looks up its first entry and walks on finds the entries of its other elements |
| ImplicitRace.HeldBlockStays | include/queue/moodycamel/concurrentqueue.h:2343-2398 | The block a consumer holds stays its element's block, is no other number's, and is not in the pool |
| ImplicitRace.FreedOnce | include/queue/moodycamel/concurrentqueue.h:2388-2399 | An emptied block is freed by one consumer only |
| ImplicitRace.FailureUndone | include/queue/moodycamel/concurrentqueue.h:2450-2470 | After a failed operation no block from its first one on is in use and the next block is the one it began with |
| ImplicitRace.LiveElementsReachable | include/queue/moodycamel/concurrentqueue.h:2724-2742 | Every published element not yet taken is in a block that an entry names |
| ImplicitRace.NeverStuck | include/queue/moodycamel/concurrentqueue.h:2343-2411 | A consumer that has claimed an element can always take its next step |
| ImplicitValues.EachElementOnce | include/queue/moodycamel/concurrentqueue.h:2279-2664 | Over all interleavings of single accesses, blocks going back to the pool and out again, what a consumer takes for its number is the element enqueued under it, and every number handed out and finished has been served |
| ImplicitValues.FindsItsElement | include/queue/moodycamel/concurrentqueue.h:2374-2405 | A consumer that holds its block finds its element in the slot |
| ImplicitIndex.UseIndex | include/queue/moodycamel/concurrentqueue.h:2688-2700 | Taking the entry behind the tail keeps every block in use at the slot its number belongs to |
| ImplicitIndex.GrowIndex | include/queue/moodycamel/concurrentqueue.h:2745-2786 | Rotating the entries into an index of twice the size keeps every block in use where its number belongs |
| ImplicitIndex.RewindIndex | include/queue/moodycamel/concurrentqueue.h:2716-2722 | Moving the tail back keeps the index |
| ImplicitIndex.RewindRoom | include/queue/moodycamel/concurrentqueue.h:2450-2466 | A failed bulk enqueue can rewind to its first block: none of its entries has been taken twice, even across growth |
| ImplicitIndex.LookupFinds | include/queue/moodycamel/concurrentqueue.h:2724-2742 | The entry at a block's slot of any index a consumer may hold has that block's key and block |
| ImplicitIndex.BuildIndex | include/queue/moodycamel/concurrentqueue.h:2755-2775 | The copying loop rotates the pointers so that the oldest entry comes first |
| ImplicitIndex.FreeMeans | include/queue/moodycamel/concurrentqueue.h:2690-2693 | The entry behind the tail is free exactly if the block one capacity ago is out of use |
| ImplicitProducer.ImplicitProducer.Enqueue | include/queue/moodycamel/concurrentqueue.h:2270-2340 | Appends exactly the element, or leaves the queue as it was; when it succeeds is stated exactly |
| ImplicitProducer.ImplicitProducer.InsertEntry | include/queue/moodycamel/concurrentqueue.h:2687-2714 | Inserts an entry unless it is in use and the index may not or cannot grow |
| ImplicitProducer.ImplicitProducer.EnqueueBulk | include/queue/moodycamel/concurrentqueue.h:2415-2560 | Appends exactly the items in order, or leaves the queue as it was, and fails only if a block it needs is refused |
| ImplicitProducer.ImplicitProducer.Rollback | include/queue/moodycamel/concurrentqueue.h:2450-2470 | Takes back every block of a failed bulk enqueue: homes, index and chain are as before |
| ImplicitProducer.ImplicitProducer.Locate | include/queue/moodycamel/concurrentqueue.h:2724-2742 | The entry found has the key of the element's block, and the block |
| ImplicitProducer.ImplicitProducer.Take | include/queue/moodycamel/concurrentqueue.h:2343-2411 | Moves out the element enqueued at the claimed index; whoever empties the block takes it out of the index |
| ImplicitProducer.ImplicitProducer.LiveElementInPlace | include/queue/moodycamel/concurrentqueue.h:2270-2340 | Every element not yet taken is in its own slot of the block in use for it |
| ImplicitProducer.ImplicitProducer.SizeLimit | include/queue/moodycamel/concurrentqueue.h:2279-2284 | The queue spans less than half the index range and never exceeds its size limit |
| ProducerHash.LoadBound | include/queue/moodycamel/concurrentqueue.h:3226-3268 | Every table, however old, holds fewer than three quarters of its capacity |
| ProducerHash.NoTableFillsUp | include/queue/moodycamel/concurrentqueue.h:3162-3310 | In every reachable state every table, stale ones included, has an empty slot |
| ProducerHash.ProbesEnd | include/queue/moodycamel/concurrentqueue.h:3174-3215 | No linear probe looks at more slots than its table has, and a slot under a thread's own key already holds its producer |
| ProducerHash.SameProducerAgain | include/queue/moodycamel/concurrentqueue.h:3174-3215 | A registered thread is given the same producer by every later call, through concurrent resizes and lazy migrations |
| ProducerHash.ProducersNotShared | include/queue/moodycamel/concurrentqueue.h:3262-3305 | No two threads are given the same producer |
| ProducerHash.AdmittedAfterResize | include/queue/moodycamel/concurrentqueue.h:3228-3268 | A thread that has extended the table, or found it extended, is admitted |
| ProducerHash.OneResizer | include/queue/moodycamel/concurrentqueue.h:3228-3260 | One thread at most is extending the table |
| SpscQueue.FirstInFirstOut | include/queue/moodycamel/readerwriterqueue.h:186-277 | For every interleaving of one producer and one consumer by single accesses, the dequeued values are a prefix of the enqueued ones, and the rest is what the blocks hold in ring order |
| SpscQueue.EnqueueAppends | include/queue/moodycamel/readerwriterqueue.h:414-508 | A successful call appends its value at one step, and nothing else changes the sequence enqueued |
| SpscQueue.NoFilledBlockSkipped | include/queue/moodycamel/readerwriterqueue.h:216-270 | No block between front and tail block is empty, and the blocks beyond hold nothing enqueued, in spite of the stale shadow indices |
| SpscQueue.NextBlockHasElement | include/queue/moodycamel/readerwriterqueue.h:245-252 | The consumer's assertion that the next block has an element |
| SpscQueue.NextBlockIsEmpty | include/queue/moodycamel/readerwriterqueue.h:448-459 | The producer's assertion that the next block is empty |
| SpscQueue.ReadsTheOldest | include/queue/moodycamel/readerwriterqueue.h:284-317 | What try_dequeue moves out and peek points at is the oldest element |
| SpscQueue.NonEmptyCallSucceeds | include/queue/moodycamel/readerwriterqueue.h:186-277 | A call that finds the queue not empty succeeds, whatever the producer does |
| SpscQueue.NeverStuck | include/queue/moodycamel/readerwriterqueue.h:186-277 | Every started operation can take its next step: no missing block, no slot outside a block, no read of an empty slot |
| PowerOfTwo.CeilIsLeast | include/queue/moodycamel/readerwriterqueue.h:519-531 | ceilToPow2 is the least power of two not below its argument |
| PowerOfTwo.CeilWraps | include/queue/moodycamel/readerwriterqueue.h:519-531 | ceilToPow2 wraps to zero for zero and above 2^63 |
| Capacity.EnoughBlocks | include/queue/moodycamel/readerwriterqueue.h:82-104 | The constructor's block count leaves room for maxSize elements besides one block and the spare slots |
| Capacity.FullMeansPromised | include/queue/moodycamel/readerwriterqueue.h:414-508 | When no block has room at least maxSize elements are stored |
| Capacity.InitialBlocks | include/queue/moodycamel/readerwriterqueue.h:82-104 | The initial block count and size |
| Capacity.ReaderWriterQueue.TryEnqueue | include/queue/moodycamel/readerwriterqueue.h:151-165 | Succeeds whenever fewer than maxSize elements are stored, and appends exactly the element |
| Capacity.ReaderWriterQueue.InnerEnqueue | include/queue/moodycamel/readerwriterqueue.h:414-508 | Appends the element, or fails without a change when neither block has room and it may not allocate |
| Capacity.ReaderWriterQueue.TryDequeue | include/queue/moodycamel/readerwriterqueue.h:186-277 | Returns the oldest element exactly if there is one |
| Capacity.ReaderWriterQueue.Pop | include/queue/moodycamel/readerwriterqueue.h:322-387 | Drops the oldest element exactly if there is one |
| CircularIndex.SlotDistinct | include/queue/moodycamel/concurrentqueue.h:1735-1739 | Fewer numbers in a row than there are slots have different slots |
| BlockingQueue.WaitersMatched | include/queue/moodycamel/blockingconcurrentqueue.h:199-299 | In every reachable state the waiters are the kernel permits, the pending releases and max(0, -m_count) together |
| BlockingQueue.NoPermitTwice | include/queue/moodycamel/blockingconcurrentqueue.h:199-299 | Completed acquisitions never exceed the initial count and the permits signalled |
| BlockingQueue.NoLostWakeup | include/queue/moodycamel/blockingconcurrentqueue.h:199-299 | No waiter sleeps while there is a permit for it |
| BlockingQueue.PermitsWithinMax | include/queue/moodycamel/blockingconcurrentqueue.h:253-299 | waitMany(max) with max > 0 returns between 1 and max |
| BlockingQueue.ReservedItemsThere | include/queue/moodycamel/blockingconcurrentqueue.h:641-675 | The items in the queue cover the permits acquired and not yet used, so the retry loops of wait_dequeue and wait_dequeue_bulk find theirs |
| BlockingQueue.AtRest | include/queue/moodycamel/blockingconcurrentqueue.h:405-484 | With no thread inside a call the permits are the items |
| BlockingQueue.OnlyBlockedWait | include/queue/moodycamel/blockingconcurrentqueue.h:199-299 | A thread that cannot go on is waiting for a kernel permit |
| SpscBlocking.DequeueSucceeds | include/queue/moodycamel/readerwriterqueue.h:693-713 | assert(success) after tryWait or wait never fails |
| SpscBlocking.CountAtLeastMinusOne | include/queue/moodycamel/atomicops.h:500-554 | m_count >= -1 in every reachable state |
| SpscBlocking.FirstInFirstOut | include/queue/moodycamel/readerwriterqueue.h:640-740 | The blocking queue is first in, first out |
| SpscBlocking.BlockedOnlyWhenEmpty | include/queue/moodycamel/readerwriterqueue.h:704-715 | The consumer sleeps without a kernel permit only when the queue is empty and no signal is under way |
| SpscBlocking.SizeApproxExactAtRest | include/queue/moodycamel/readerwriterqueue.h:744-748 | At rest size_approx is exact |
| JsonNumbers.SettledCompares | include/utils/json.hpp:1551-1572 | A whole double below 2^53 (or an odd multiple of two below 2^54) compares with every integer as the integer it is, in both directions of the conversion |
| JsonNumbers.NeighbourRounds | include/utils/json.hpp:1563-1572 | Every other whole double is the rounding of an integer that is not equal to it |
| JsonNumbers.PlacedCompares | include/utils/json.hpp:1634-1655 | A settled double, and any negative one from -2^53 on, is less and greater than the integers that it should be |
| JsonNumbers.RoundMonotone | include/utils/json.hpp:1634-1655 | Rounding an integer to the nearest double keeps the order |
| JsonOrder.Trichotomy | include/utils/json.hpp:1590-1663 | For values whose floating-point numbers are settled, containers included, exactly one of <, == and > holds, == does not depend on the order, and nothing is less than itself |
| JsonOrder.EqualIsEquality | include/utils/json.hpp:1507-1578 | operator== is equality on values without floating-point numbers |
| JsonOrder.EqualAsReals | include/utils/json.hpp:1507-1578 | operator== on values with settled floating-point numbers is equality of the real numbers in them |
| JsonOrder.LessAsReals | include/utils/json.hpp:1590-1663 | operator< on values with all numbers in place is the lexicographic order of the real numbers in them |
| JsonOrder.PlacedTransitive | include/utils/json.hpp:1590-1663 | operator< is transitive on values with all numbers in place |
| JsonOrder.TiedAreSame | include/utils/json.hpp:1590-1663 | Of two such values neither is less only if they are the same real numbers |
| JsonLaws.LawfulExactlyWhenTame | include/utils/json.hpp:1507-1663 | == does not depend on the order and exactly one of <, == and > holds between a value and all values without floating-point numbers, exactly if every floating-point number in it is whole and no other integer is rounded to it |
| JsonLaws.WeakOrderExactlyWhenPlaced | include/utils/json.hpp:1590-1663 | operator< is a strict weak order on the values with all numbers in place, and stays one with another value added exactly if that has all numbers in place too |
| JsonLaws.TransitiveExactlyWhenPlacedOrNumber | include/utils/json.hpp:1590-1663 | operator< is transitive on the values with all numbers in place and one more value exactly if that has all numbers in place or is a number itself |
| JsonLaws.NumbersTransitive | include/utils/json.hpp:1634-1655 | As soon as one of three values is a floating-point number, operator< is transitive on them, wherever their numbers are |
| JsonLaws.NoWeakOrder | include/utils/json.hpp:1634-1655 | 1 is tied with 1.25 and with 1.5, which are ordered, and three arrays are each less than the next, all the way round |
| JsonOrder.KindsInOrder | include/utils/json.hpp:243-315 | null < boolean < number < object < array < string |
| JsonLaws.EqualNotSymmetric | include/utils/json.hpp:1551-1572 | 1 == 1.5 but not 1.5 == 1, and 2^53 as a double equals the integer 2^53 + 1 but not the other way round |
| JsonScanner.AcceptsNumbers | include/utils/json.hpp:3176-3893 | The automaton accepts exactly the numbers of section 6 of RFC 7159 |
| JsonScanner.NumberFromIsLongest | include/utils/json.hpp:3176-3893 | The scanner's number ends where the longest prefix that is a number ends, with backtracking over an incomplete fraction or exponent |
| JsonScanner.EndsAtFirstQuote | include/utils/json.hpp:3176-3893 | An accepted string ends at the first unescaped quote |
| JsonScanner.SkipsWhiteSpace | include/utils/json.hpp:3176-3893 | Exactly the white space in front of a token is skipped |
| JsonScanner.NumberTokens | include/utils/json.hpp:3176-3893 | A number token is the longest number at its start; where a number could start and none is found, there is none |
| JsonScanner.StringTokens | include/utils/json.hpp:3176-3893 | What a string token consists of |
| JsonScanner.Lexer.Scan | include/utils/json.hpp:3176-3893 | The scanner moves from its cursor to the token that the grammar says, and terminates |
| JsonPrinter.EscapeString | include/utils/json.hpp:1787-1868 | Escapes every character of the string |
| JsonPrinter.DumpValue | include/utils/json.hpp:1885-1995 | dump, with its loops over elements and members, prints the text that is then proved to be parsed back |
| JsonParser.Parser.GetString | include/utils/json.hpp:3923-4025 | get_string decodes the escapes in a token, surrogate pairs included, keeping some backslashes |
| JsonParser.PairPointExact | include/utils/json.hpp:3080-3092 | A surrogate pair becomes the code point that UTF-16 writes as that pair |
| JsonParser.PairDropsNext | include/utils/json.hpp:3988-4005 | A surrogate pair becomes the UTF-8 of its code point and the character after it is lost: what follows is decoded as it should be exactly if nothing does |
| JsonParser.Parser.ParseInternal | include/utils/json.hpp:4109-4232 | The recursive descent gives what the grammar-level parse gives, and advances |
| JsonParser.Parser.ParseAll | include/utils/json.hpp:4098-4107 | The whole text must be one value |
| JsonRoundTrip.RoundTrip | include/utils/json.hpp:1885-1995 | parse(dump(v, indent)) is v, for the compact form and every indentation, exactly if no string or key in v contains a quote or a backslash and every integer in it is a double |
| JsonRoundTrip.PrintedIsParsed | include/utils/json.hpp:4098-4232 | What comes back for every other value: its strings and keys with a backslash in front of each quote and backslash, its integers rounded to doubles |
| JsonRoundTrip.ValueRead | include/utils/json.hpp:4109-4232 | A value printed anywhere in a text is read up to its end and no further |
| JsonRoundTrip.StringRead | include/utils/json.hpp:3967-3981 | A printed string is scanned to its closing quote and decoded |
| JsonRoundTrip.QuoteGainsBackslash | include/utils/json.hpp:3967-3981 | A string of one quote comes back with a backslash in front of it |
| SafeQueue.SafeQueue.Enqueue | include/queue/simple/simple_queue.h:25-30 | Appends one value |
| SafeQueue.SafeQueue.EnqueueBulk | include/queue/simple/simple_queue.h:44-49 | Appends the first size values of the array |
| SafeQueue.SafeQueue.WaitDequeueBulk | include/queue/simple/simple_queue.h:51-64 | Moves the oldest values, up to the capacity, to the front of the array, in order |
| SafeQueue.DataAggregator.Append | include/sensor/data_aggregator.h:19-24 | Adds one record at the end of the pack |
| SafeQueue.DataAggregator.MakeNewPack | include/sensor/data_aggregator.h:33-41 | Hands out the pack and starts an empty one |
| Pipeline.PreserveStep | include/sensor/multithreaded_sensor.h:134-215 | Every step of reader, worker and sender keeps the invariant of both queues and the packs |
| Pipeline.DispatchedInOrder | include/sensor/multithreaded_sensor.h:190-212 | For every schedule, what has been dispatched at any time is a prefix of the collected records in order |
| Pipeline.FinishedMeansComplete | include/sensor/multithreaded_sensor.h:204-208 | finished is only set when everything has been dispatched |
| Pipeline.PacksLargeEnough | include/sensor/multithreaded_sensor.h:182-185 | Every pack has at least the limit's size, except the last one of all once the worker has flushed what was left over, and none is empty unless the limit is zero |
| Pipeline.RestMeansDone | include/sensor/multithreaded_sensor.h:143-212 | When no thread can go on all have stopped, everything is dispatched, and one null is left in the stream queue |
| Pipeline.StepsEnd | include/sensor/multithreaded_sensor.h:143-212 | Every step lowers a rank, so every schedule ends |
| LineSplit.SplitString | include/utils/utils.h:109-130 | The complete lines, and the residue carried over unless it is a single character |
| LineSplit.ReadStream | include/sensor/multithreaded_sensor.h:143-156 | The reader's loop over the reads, with the newline added at the end of the file |
| LineSplit.CutsMakeNoDifference | include/utils/utils.h:109-130 | The lines of all bulks are those of the whole stream with a newline added, exactly if no read but the last leaves a single character |
| LineSplit.LoneCharacterLost | include/utils/utils.h:124-128 | A stream cut after the first character of a line loses it |
| DecimalWriter.CountExact | include/utils/format.h:597-626 | For every 32- and 64-bit value the count from the leading zeros and the power table is the number of digits |
| DecimalWriter.CountDigitsInLoop | include/utils/format.h:605-618 | The fallback loop counts the same |
| DecimalWriter.TablesRight | lib/format.cc:413-437 | The power tables hold the powers of ten |
| DecimalWriter.TableRight | lib/format.cc:407-412 | The digit table holds the two digits of every number below 100 |
| DecimalWriter.FormatDecimal | include/utils/format.h:630-651 | Fills exactly the counted cells with the digits and leaves all others alone |
| DecimalWriter.FormatInt.constructor | include/utils/format.h:2460-2473 | Formats every signed 64-bit value, the least included, inside the 22-byte buffer |
| DecimalWriter.FormatInt.FromUnsigned | include/utils/format.h:2474-2476 | Formats every unsigned 64-bit value inside the 22-byte buffer |
| DecimalWriter.FormatInt.FormatReverse | include/utils/format.h:2439-2458 | Writes exactly the digits backwards, staying within the buffer |
| DecimalWriter.ReadsBack | include/utils/format.h:2460-2467 | The text of a signed value reads back as it |
| DecimalWriter.ParseNonnegativeInt | lib/format.cc:207-222 | The loop over the digits, with its unsigned arithmetic and its test for a wrap |
| DecimalWriter.ParsesExactly | lib/format.cc:207-222 | The result is the number, or the error beyond INT_MAX, exactly if not: the number is beyond INT_MAX, at most INT_MAX modulo 2^32, and never went down modulo 2^32 digit by digit |
| DecimalWriter.ParsesWritten | lib/format.cc:207-222 | Every number up to INT_MAX is read back from its digits |
| DecimalWriter.TenNinesMisread | lib/format.cc:211-217 | 9999999999 is read as 1410065407 |
| Base64.Encode | include/utils/encoding.h:16-57 | The loop and the tail produce the text |
| Base64.Decode | include/utils/encoding.h:58-96 | The loop and the tail produce the bytes |
| Base64.RoundTrip | include/utils/encoding.h:16-96 | base64_decode(base64_encode(b)) == b |
| Base64.LengthExact | include/utils/encoding.h:16-57 | Four characters for every three bytes begun |
| Base64.AsInTheStandard | include/utils/encoding.h:16-57 | The text is that of section 4 of RFC 4648: the bits regrouped by six, zero-filled, and padded with = |

## Left out

- Sockets, the trace pipe, files, clocks, rates and the event counters around the threads: input and output.
- Memory orders and fences: every access to a shared variable is one sequentially consistent step.
- Raw memory: allocation is a parameter that succeeds or fails; placement, alignment, destructors, and moving or swapping
  whole queues are not modelled. An allocation never returns more than 2^58 index entries (`CircularIndex.MAX_ENTRIES`).
- Element constructors and assignments that throw, and the paths that catch them.
- ExplicitProducer.ExplicitProducer.Enqueue: one whole enqueue is one step for the consumers of this class; what they meet in the middle of it, and bulk enqueues, are the subject of ExplicitRace and ExplicitValues.
- ExplicitRefusal.RefusalHarmlessExactly: the size limit of a producer, and the half of the index range that it keeps free, are not part of the machine; in the runs that show the harm they do not stop the producer before.
- ExplicitRace.RunInv: runs that go on after a refused operation that does harm; what becomes of those is ExplicitRefusal.
- ImplicitProducer.ImplicitProducer.Enqueue: one whole enqueue is one step for the consumers of this class; what they meet in the middle of it is the subject of ImplicitRace.
- ImplicitProducer.ImplicitProducer.Take: the count, the entry and the block are updated in one step; ImplicitRace has them apart.
- The loops over the blocks of a bulk operation of the explicit producer and of every bulk dequeue: a bulk enqueue
  constructs its elements one step each in `ExplicitValues`, the walk from block to block is `ExplicitRace.BulkWalk` and
  `ImplicitRace.BulkWalk`, and a bulk consumer is as many consumers whose loads follow each other directly.
- The null block index that the implicit producer dereferences when its very first allocation failed: the model begins
  with an index.
- Thread-exit recycling of implicit producers, which is compiled out, consumer-token rotation, and memory statistics.
- ProducerHash.NoTableFillsUp: assumes that no allocation fails, as the source's comments do.
- BlockingQueue.NoLostWakeup: the kernel semaphore is a counter, and the truncation of a count to int in signal is not modelled.
- SpscBlocking.CountAtLeastMinusOne: only signal(1) is modelled, the one call there is; signal(0) with a waiter would release it.
- JsonLaws.LawfulExactlyWhenTame: NaN, the infinities and doubles beyond the integer range, for which the cast is undefined, are no values of the model.
- JsonRoundTrip.RoundTrip: floating-point numbers, and the integers from 2^63 - 512 on, which are rounded to 2^63, for which the cast back is undefined, are outside.
- JsonParser.Parser.ParseAll: texts with fractions, exponents or numbers beyond the integers are answered with Outside.
- JsonParser.Parser.GetString: strtoul on what are no hexadecimal digits is answered with Outside; get_string only comes to that after a surrogate pair has made it drop a backslash.
- JsonParser.Parser.ParseInternal: a comma in front of the first element or member is accepted, as the code does.
- Characters are units of text; a byte above 127 stands for itself.
- Pipeline.RestMeansDone: no dispatch throws; an exception would drop the rest of the sender's array.
- LineSplit.ReadStream: a moved-from string is empty.
- DecimalWriter.FormatDecimal: width, precision, padding, bases other than ten, wide characters and floating point are not modelled; nor is the growth of MemoryBuffer.
- Other streams, trace fields, gzip, and the Windows code.
