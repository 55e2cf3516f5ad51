# A verified model of the network library's queues, timers, buffers and protocols

The library runs event loops over sockets. What is hard in it is not the sockets: it is the queues through
which threads hand tasks to a loop, the wheel that fires timers, and the code that turns a stream of bytes
into messages. This project models these parts and proves what they are for.

| file | models | main results |
|---|---|---|
| `FreeList.dfy` | the lock-free free list of blocks, one atomic access a step, any number of threads | reference counting, no ABA, nothing lost; when a call comes back with no node |
| `DequeueCounters.dfy` | the optimistic and overcommit counters of `dequeue` and `dequeue_bulk`, one access a step | claimed indices are below the tail and distinct; exactly what a dequeue claims, and when it claims less |
| `ExplicitRuns.dfy`, `ImplicitRuns.dfy`, `Claims.dfy` | one producer of each kind and its consumers, one access a step, with the counters | every consumer takes the value enqueued at its index, whichever index it loaded; each once; blocks go back exactly when they are empty; every operation ends, and succeeds when allocations do |
| `ExplicitProducer.dfy` | the ring of blocks and the circular block index | every unread index leads to its block; exactly which blocks are taken again; a bulk enqueue leaves what single ones leave |
| `ImplicitProducer.dfy` | the block index of pointers, with failing allocations and rollback | both assertions of the lookup; blocks go back once; exactly when a bulk enqueue succeeds |
| `ProducerHash.dfy` | the chain of hash tables from threads to producers | it is a map; every probe ends; exactly when a thread gets no producer |
| `Circular.dfy`, `Blocks.dfy`, `Modular.dfy`, `Sets.dfy`, `Options.dfy` | index arithmetic that wraps around, powers of two, set sizes | when it is unbounded arithmetic; masks are remainders |
| `RingQueue.dfy` | the bounded multi-producer multi-consumer ring, one access a step | first in, first out exactly with two slots or more |
| `TimerWheel.dfy` | the timing wheel and its linked lists | it is a map of countdowns; exactly when a timer fires, from its interval |
| `TcpBuffer.dfy` | the byte buffer: an array and two indices | it is a queue of bytes |
| `Codec.dfy` | the line and the length framing | inverse on streams; which bytes are refused |
| `StringPiece.dfy`, `HttpParser.dfy`, `HttpPrinter.dfy`, `HttpGrammar.dfy`, `HttpLimits.dfy`, `HttpQuery.dfy`, `HttpMessages.dfy` | the incremental HTTP parser and the printer | which bytes are a message, character by character; chunks do not matter; exactly when a message is complete, and when print and parse are inverse |
| `Barrier.dfy` | the phase barrier of the benchmark library | nobody leaves early; one last thread; exactly when a thread may wake |

`dafny verify dfyconfig.toml` checks everything.

Concurrent protocols are transition systems: a state, one action per atomic access, and lemmas over all
action sequences. Auxiliary parts of such a state (the list as a sequence, tickets, claimed values) are
written but read by no access; only two rules are stated with them: a client adds a node to the free list just
while it has the node, and the pool hands out a block just while nobody has it. Code that runs by itself is a
class with the fields of the source; a ghost field holds what it refines (the values enqueued, the map of
threads, the countdowns), `Valid()` ties the two, and each method states what becomes of both. Most class invariants are predicates of a value, `State()`, so
that lemmas can be about values.

Inputs that the model takes as parameters: results of allocations, blocks handed out by the pool, hashes of
thread ids, the bytes that a read delivers, and what fresh memory holds. Elements are integers; no step looks
at one.

Where the code and what is said about it disagree, the model follows the code:

- A ring of capacity 1 is not first in, first out (`RingQueue.FifoExactly`), although the constructor accepts it.
- `TcpBuffer::clear` and `reset` put the indices to 8 and not to the reserved size (`TcpBuffer.TcpBuffer.Clear`).
- `LineCodec` takes a single end-of-transmission byte for a message although more bytes of its line may follow
  (`Codec.LinePrefixTaken`), and `LengthCodec` encodes messages that it then refuses (`Codec.LengthRoundTrip`).
- A timer whose number of ticks is a multiple of the wheel's size fires every T + M ticks after its first
  execution and not every T, and every timer fires first on tick T + 1 (`TimerWheel.FiresExactly`); a timer that is
  meant to execute for ever fires once (`TimerWheel.ForeverFiresOnce`).
- An HTTP message that starts with the end of a header section is never complete (`HttpParser.NeverComplete`); all
  others are exactly when they are whole (`HttpParser.CompleteExactly`).
- The status of a response line without a second word is read from the lines after it (`HttpMessages.StatusFrom`,
  `HttpMessages.StatusOfNextLine`); it is the line's own exactly when there is a second word
  (`HttpMessages.StatusOfLine`).

## Model

| member | source | states |
|---|---|---|
| FreeList.InvStep | Common/concurrentqueue.h:1466-1545 | Every atomic access of `add` and `try_get`, by any thread, keeps the invariant: reference words count the list's reference and the threads holding the node, the should-be-on-list bit is set exactly while the node waits to be added, the next pointers lead once through exactly the listed nodes. |
| FreeList.InvAlways | Common/concurrentqueue.h:1466-1545 | The invariant holds at every moment of every interleaving of any number (below 2^31 - 1) of threads. |
| FreeList.CountsReferences | Common/concurrentqueue.h:1480-1517 | At every moment the masked reference count of a node is its list reference plus the number of threads between taking and giving back a reference. |
| FreeList.OneAgent | Common/concurrentqueue.h:1523-1545 | At most one thread at a time adds a node or has just taken it off, and meanwhile the node is not on the list. |
| FreeList.NoAba | Common/concurrentqueue.h:1496-1505 | When the head CAS of `try_get` succeeds, it installs the true successor of the head: the list afterwards is the list before without its first node. |
| FreeList.AssertHolds | Common/concurrentqueue.h:1500 | The assertion after that CAS never fails. |
| FreeList.Quiescent | Common/concurrentqueue.h:1466-1517 | With no call running, the list holds exactly the nodes that were added once more than they were handed out, each once. |
| FreeList.NullMeansEmpty | Common/concurrentqueue.h:1485-1517 | Every return of `try_get` without a node, also one that comes after adding a node again, follows a moment of the same call at which the head was null and the list empty. |
| FreeList.Conserved | Common/concurrentqueue.h:1466-1545 | At every moment a node was added as often as it was handed out, or once more while it is not with a client. |
| FreeList.LoneAdd | Common/concurrentqueue.h:1523-1545 | In every run, an `add` that runs while no other call does takes five accesses and puts its node at the front of the list, with one reference. |
| FreeList.LoneGet | Common/concurrentqueue.h:1485-1517 | In every run, a `try_get` that runs while no other call does hands out the first node and leaves the rest of the list; it comes back with none exactly when the list is empty, and changes nothing then. |
| RingQueue.InvStep | Common/LockFreeCurcularQueue.h:71-149 | Every load, CAS and store of `enqueue` and `dequeue` keeps the slot invariant; the sequence number of a slot determines its position and whether it is published. |
| RingQueue.InvAlways | Common/LockFreeCurcularQueue.h:58-149 | A ring of at least two slots keeps the invariant over every interleaving. |
| RingQueue.FifoExactly | Common/LockFreeCurcularQueue.h:71-149 | Over all runs, the k-th dequeue claim returns the value of the k-th enqueue claim, if and only if the ring has at least two slots. |
| RingQueue.OneSlotLosesValue | Common/LockFreeCurcularQueue.h:85-99 | The interleaving that breaks this with one slot: a producer overwrites a value that a consumer is about to claim. |
| RingQueue.NothingLost | Common/LockFreeCurcularQueue.h:71-149 | With no call running, every claimed value was returned for its own position or sits, published, in the slot of its position. |
| RingQueue.Exclusive | Common/LockFreeCurcularQueue.h:99-101 | No two threads are between claim and publication on one slot. |
| RingQueue.SequenceGrows | Common/LockFreeCurcularQueue.h:100 | Sequence numbers never decrease, and dequeuePos <= enqueuePos <= dequeuePos + N. |
| RingQueue.EnqueueFalse | Common/LockFreeCurcularQueue.h:90-93 | In every run, `enqueue` returns false only from the load of the sequence number, and only when its position is the next one and the same slot's previous position has not been released. |
| RingQueue.DequeueFalse | Common/LockFreeCurcularQueue.h:136-139 | In every run, `dequeue` returns false only from the load of the sequence number, and only when its position is the next one and has not been published. |
| RingQueue.RetryMeansProgress | Common/LockFreeCurcularQueue.h:82-98 | A call goes round its loop again only because the counter moved on, unless a weak CAS failed for no reason. |
| RingQueue.LoneEnqueue | Common/LockFreeCurcularQueue.h:71-109 | In every run, an `enqueue` that runs while no other call does claims the next position for its value within five accesses; it returns false, and changes nothing, exactly when as many values as there are slots were not dequeued. |
| RingQueue.LoneDequeue | Common/LockFreeCurcularQueue.h:117-149 | In every run, a `dequeue` that runs while no other call does returns the value of the oldest position not yet dequeued; it returns false, and changes nothing, exactly when there is none. |
| DequeueCounters.InvStep | Common/concurrentqueue.h:1962-2059 | Every access of any number of single and bulk consumers, and every enqueue, keeps the ticket invariant: a passing ticket m is covered by the tail once the failing tickets below it are discounted. |
| DequeueCounters.HeadBelowTail | Common/concurrentqueue.h:2266-2276 | The ticket count: a consumer that passed both checks finds head + its number of elements at most tail. |
| DequeueCounters.IndicesBelowTail | Common/concurrentqueue.h:2002-2010 | In every run, the indices taken by `headIndex.fetch_add` are below the tail at that moment. |
| DequeueCounters.IndicesDistinct | Common/concurrentqueue.h:2010 | No two consumers hold the same index. |
| DequeueCounters.ClaimedForGood | Common/concurrentqueue.h:2276 | An index that was claimed stays below the head for good and is never claimed again. |
| DequeueCounters.EffectiveCount | Common/concurrentqueue.h:2052-2055 | With no dequeue running, optimistic count = head + overcommit, and head <= tail: a check of the counters compares head and tail. What that gives a dequeue is `LoneDequeue`. |
| DequeueCounters.LoneDequeue | Common/concurrentqueue.h:1962-2010 | In every run with all threads idle, a consumer that asks for max > 0 elements and runs by itself claims exactly the min(max, tail - head) indices from the head on; it comes back with nothing, and leaves the state as it was, exactly when head = tail. |
| DequeueCounters.ShortMeansTaken | Common/concurrentqueue.h:2255-2276 | In every run, whatever others do between its loads, a call that decides for n elements but asked for more, n = 0 included, saw a tail of at most head + n + the tickets of other consumers outstanding since it loaded the overcommit. |
| DequeueCounters.CallEnds | Common/concurrentqueue.h:1962-2059 | Every access of a call brings it nearer to its return, whatever others do. |
| ExplicitRuns.InvStep | Common/concurrentqueue.h:1856-2337 | Every access of one producer (single and bulk enqueues, blocks taken again or new, larger indexes) and of any number of its consumers (counters, index, front, base, block, elements, flags) keeps the invariant: every index that was ever published has the entries of all blocks from the oldest unread one on. |
| ExplicitRuns.InvAlways | Common/concurrentqueue.h:1856-2337 | The invariant holds at every moment of every interleaving. |
| ExplicitRuns.LookupFinds | Common/concurrentqueue.h:2013-2047 | In every run, whichever index a consumer loaded and whatever the producer did between its loads, it ends at the block of the element it claimed, which holds the value enqueued at this index; the flag it sets afterwards is not set. |
| ExplicitRuns.EntriesWritten | Common/concurrentqueue.h:2015-2024 | The base and the block that a consumer loads are from entries that were written. |
| ExplicitRuns.TakenAreEnqueued | Common/concurrentqueue.h:1961-2059 | In every run of single and bulk enqueues and dequeues, the value taken at a claimed index is the one enqueued there, in the order of all enqueues, and no index is taken twice. |
| ExplicitRuns.NothingLost | Common/concurrentqueue.h:1961-2337 | With no dequeue running, exactly the elements below the head were taken; with no enqueue running either, the tail is the number of values enqueued. |
| ExplicitRuns.LogIsEnqueued | Common/concurrentqueue.h:2164-2267 | What was written into the blocks is, in order, what the enqueue operations brought. |
| ExplicitRuns.TakeAheadOk | Common/concurrentqueue.h:1864-1874 | After finding all flags of the block ahead set, one load after the other, taking the block drops no element that is claimed and unread. |
| ExplicitRuns.LargerOk | Common/concurrentqueue.h:2363-2400 | A larger index has all entries of the current one, at the slots that its own front leads to. |
| ExplicitRuns.NewBlockMeans | Common/concurrentqueue.h:1864-1880 | In every run, the producer sets out to take a new block only when the oldest block has an element that is not dequeued, or there is none but those that this operation entered, or it has linked in a new one already. |
| ExplicitRuns.GrowsWhenFull | Common/concurrentqueue.h:1889-1900 | In every run, a larger index is made only when every slot of the current one has a block of the ring, and it has twice its size. |
| ExplicitRuns.ProducerEnds | Common/concurrentqueue.h:1856-2252 | In every run, each access of the producer lowers a rank of its operation, and no other access changes it: every enqueue ends after a bounded number of its own accesses. |
| ExplicitRuns.ConsumerEnds | Common/concurrentqueue.h:2010-2059 | In every run, each access of a consumer after its claim lowers a rank until it returns. |
| ImplicitRuns.InvStep | Common/concurrentqueue.h:2494-2893 | Every access of one producer (entries inserted and rewound, blocks requisitioned, larger indexes, failed allocations and their undoing) and of any number of its consumers (counters, index, tail, key, value, elements, counter, clearing the entry, giving back the block) keeps the invariant. |
| ImplicitRuns.InvAlways | Common/concurrentqueue.h:2494-2893 | The invariant holds at every moment of every interleaving, whichever allocations fail. |
| ImplicitRuns.LookupFinds | Common/concurrentqueue.h:2955-2971 | In every run, whichever index a consumer loaded and whatever the producer inserted or undid between its loads, both assertions of the lookup hold, and the consumer ends at the block of the element it claimed, which holds the value enqueued at this index; an entry that is cleared has the consumer's own block, and a block that is given back is out. |
| ImplicitRuns.TakenAreEnqueued | Common/concurrentqueue.h:2558-2625 | In every run the value taken at a claimed index is the one that a successful operation enqueued there, and no index is taken twice. |
| ImplicitRuns.NothingLost | Common/concurrentqueue.h:2494-2893 | With no dequeue running, exactly the elements below the head were taken, and the tail is the number of values that successful operations enqueued: failed ones leave nothing. |
| ImplicitRuns.BlocksReturned | Common/concurrentqueue.h:2606-2614 | With no call running, the blocks that are not back with the pool are exactly those with elements still to be dequeued. |
| ImplicitRuns.LogIsEnqueued | Common/concurrentqueue.h:2633-2781 | What was written below the tail is, in order, what the operations brought that succeeded. |
| ImplicitRuns.EntryFree | Common/concurrentqueue.h:2914-2921 | The check of the entry after the tail finds it free exactly when the window of block numbers has room or the oldest number's entry was cleared. |
| ImplicitRuns.UndoFinds | Common/concurrentqueue.h:2676-2681 | The lookup of a block that is taken out again finds its entry, however far the tail was rewound before. |
| ImplicitRuns.GrowOk | Common/concurrentqueue.h:2926-2938 | A larger index keeps the entries of all block numbers, and the entry after its tail is one that was never used: the assertion there holds. |
| ImplicitRuns.SetKeyOk | Common/concurrentqueue.h:2914-2920 | Using an entry again drops only a block number all of whose elements were dequeued. |
| ImplicitRuns.FailureMeans | Common/concurrentqueue.h:2505-2540 | In every run, an operation starts to fail only when the pool has no block for it or a larger index cannot be allocated, and asks for a larger index only when the window is full and its oldest entry had not been cleared when it looked. |
| ImplicitRuns.AllSucceed | Common/concurrentqueue.h:2494-2781 | In every run in which no allocation fails, every operation succeeds: between operations, all values that were brought are enqueued, in order. |
| ImplicitRuns.ProducerEnds | Common/concurrentqueue.h:2494-2781 | In every run, each access of the producer lowers a rank of its operation, also while a failed one is undone, and no other access changes it. |
| ImplicitRuns.ConsumerEnds | Common/concurrentqueue.h:2571-2625 | In every run, each access of a consumer after its claim lowers a rank until it returns. |
| Blocks.BaseDiff | Common/concurrentqueue.h:2075-2076 | The difference of block bases is 32 times the number of blocks that the indices start, also from index 0. |
| ExplicitProducer.LookupFinds | Common/concurrentqueue.h:2015-2024 | The arithmetic of the circular index leads from the published slot to the block an unread element was written into, and the element is there. |
| ExplicitProducer.ReusableMeans | Common/concurrentqueue.h:1864 | The block ahead of the tail is usable exactly when all 32 elements of the oldest block were dequeued. |
| ExplicitProducer.TakeableMeans | Common/concurrentqueue.h:2079 | The blocks that a bulk enqueue takes again are the oldest ones all of whose elements were dequeued, up to the number it needs; the next one has an element that was not. |
| ExplicitProducer.RingAfterMeans | Common/concurrentqueue.h:2078-2151 | Position by position, the ring after an operation: turned past the blocks taken again, with the new ones in order behind the others. |
| ExplicitProducer.ReusedRoom | Common/concurrentqueue.h:1864-1874 | Taking the empty block ahead drops no element that is still to be read and keeps the index. |
| ExplicitProducer.InsertedRoom | Common/concurrentqueue.h:1903-1946 | Linking in a new block keeps the ring, the index and all elements. |
| ExplicitProducer.TakenManyGood | Common/concurrentqueue.h:1623-1641 | Setting c flags in a row comes to reading c elements one by one. |
| ExplicitProducer.FlagsUnset | Common/concurrentqueue.h:1608-1630 | The assertions of `set_empty` and `set_many_empty` hold: flags of claimed, unread elements are not set. |
| ExplicitProducer.ReindexedIndex | Common/concurrentqueue.h:2377-2394 | The copied index of twice the size maps the same indices to the same blocks. |
| ExplicitProducer.ReadFacts | Common/concurrentqueue.h:2013-2049 | What a consumer finds for an index it claimed, and that marking it as dequeued keeps the invariant. |
| ExplicitProducer.ResettingNext | Common/concurrentqueue.h:2155-2162 | The walk that clears emptiness flags visits each newly entered block once and stops at the tail block. |
| ExplicitProducer.CopyIndex | Common/concurrentqueue.h:2377-2385 | The copy loop puts the slots in use, oldest first, at the front of the new array. |
| ExplicitProducer.Producer.constructor | Common/concurrentqueue.h:1778-1793 | A new producer is empty and has an index of twice the given size. |
| ExplicitProducer.Producer.Claim | Common/concurrentqueue.h:2276 | Takes the next indices. |
| ExplicitProducer.Producer.Read | Common/concurrentqueue.h:2013-2050 | Returns the value enqueued at that index and marks just this index as dequeued. |
| ExplicitProducer.Producer.SetManyEmpty | Common/concurrentqueue.h:1623-1633 | Sets exactly the flags of the elements given, none of which was set. |
| ExplicitProducer.Producer.ReadFromSlot | Common/concurrentqueue.h:2289-2333 | Moves out, in order, what one block has of the elements wanted. |
| ExplicitProducer.Producer.ReadBulk | Common/concurrentqueue.h:2279-2336 | Returns the values enqueued at the claimed indices, in order, with one lookup, and marks exactly these as dequeued. |
| ExplicitProducer.Producer.NewBlockIndex | Common/concurrentqueue.h:2363-2400 | Doubles the index; the same indices map to the same blocks. |
| ExplicitProducer.Producer.ReuseBlock | Common/concurrentqueue.h:1864-1874 | Makes room in the empty block ahead without a new block; nothing unread is lost. |
| ExplicitProducer.Producer.AddBlock | Common/concurrentqueue.h:1903-1946 | Makes room in a new block; the ring gets exactly this block. |
| ExplicitProducer.Producer.RequisitionBlock | Common/concurrentqueue.h:1889-1920 | The same when the index may be full: it grows exactly if it is. |
| ExplicitProducer.Producer.Insert | Common/concurrentqueue.h:1903-1919 | A new block gets its storage, is linked in behind the tail block and enters the index. |
| ExplicitProducer.Producer.MakeRoom | Common/concurrentqueue.h:1861-1946 | When the tail block is full, takes the oldest block again if all its elements were dequeued, and only then; otherwise links in the new block, with a larger index exactly when the index is full. |
| ExplicitProducer.Producer.Enqueue | Common/concurrentqueue.h:1856-1959 | Appends the value to the queue's contents, leaves all else. The ring afterwards is known exactly: the oldest block is taken again if and only if a block is needed and all its elements were dequeued, and otherwise the one new block is linked in; the index is replaced exactly when it is full then. |
| ExplicitProducer.Producer.EnterBlocksAhead | Common/concurrentqueue.h:2078-2090 | Enters empty blocks ahead until enough are entered or the block ahead cannot be used: it is not empty, or was entered by the same operation. |
| ExplicitProducer.Producer.EmptyAhead | Common/concurrentqueue.h:2079 | The guard of that loop holds exactly when the oldest block is empty and was not entered by the same operation. |
| ExplicitProducer.Producer.EnterNewBlocks | Common/concurrentqueue.h:2092-2151 | Enters exactly the missing number of new blocks, growing the index when it is full. |
| ExplicitProducer.Producer.ResetEntered | Common/concurrentqueue.h:2153-2162 | Clears the flags of exactly the blocks entered. |
| ExplicitProducer.Producer.FillBlocks | Common/concurrentqueue.h:2178-2243 | Fills the blocks along the ring; the values appended are the items, in order. |
| ExplicitProducer.Producer.EnqueueBulk | Common/concurrentqueue.h:2062-2252 | Appends all the items in order, leaves all else; the ring afterwards has just the takeable blocks turned to the back and new ones for the others that the items start. |
| ExplicitProducer.Producer.EnqueueEach | Common/concurrentqueue.h:1856-1959 | The same items enqueued one after the other, from the same state with the same new blocks, leave what the bulk enqueue leaves: the contents with the items appended, and nothing else changed. |
| ImplicitProducer.LookupFinds | Common/concurrentqueue.h:2955-2971 | Both assertions of the lookup hold for every element that is still to be read, and the entry found has its block. |
| ImplicitProducer.NextEntry | Common/concurrentqueue.h:2914-2917 | The entry after the tail may be used exactly when the window of the index has room or its oldest block was given back. |
| ImplicitProducer.OpenedOpen | Common/concurrentqueue.h:2919-2920 | Putting in the next key keeps the keys contiguous, 32 apart, back from the tail. |
| ImplicitProducer.PlacedIndex | Common/concurrentqueue.h:2540 | With the block in place the index is right again. |
| ImplicitProducer.WithdrawnIndex | Common/concurrentqueue.h:2942-2946 | After a failed allocation the rewound index is right again, though the key stays behind. |
| ImplicitProducer.GrownIndex | Common/concurrentqueue.h:2989-3008 | The grown index maps the same indices to the same entries, and its next entry is vacant. |
| ImplicitProducer.TakenIndex | Common/concurrentqueue.h:2602-2616 | Reading an element, and giving back a block with its last one, keeps the index. |
| ImplicitProducer.TakenReleased | Common/concurrentqueue.h:2606-2615 | A block number is given back when the last of its 32 elements is read, and was not given back before. |
| ImplicitProducer.GivenBackOnce | Common/concurrentqueue.h:2606-2615 | At all times between operations: given back are exactly the blocks whose 32 elements were all read, each once; blocks still in use are all different. |
| ImplicitProducer.RollingLookup | Common/concurrentqueue.h:2676-2681 | During a rollback the lookup finds the next block to take out although it is ahead of the tail. |
| ImplicitProducer.RollbackDone | Common/concurrentqueue.h:2675-2683 | After the rollback the index and the blocks are as before the bulk enqueue. |
| ImplicitProducer.CopyIndex | Common/concurrentqueue.h:2990-2997 | The copy loop puts the pointers in order, from the one after the tail round to the tail. |
| ImplicitProducer.Producer.constructor | Common/concurrentqueue.h:2430-2436 | A new producer is empty. |
| ImplicitProducer.Producer.Claim | Common/concurrentqueue.h:2808 | Takes the next indices. |
| ImplicitProducer.Producer.SetEmpty | Common/concurrentqueue.h:1612-1617 | Counts an element as read; true exactly for the last one of its block. |
| ImplicitProducer.Producer.Read | Common/concurrentqueue.h:2571-2618 | Returns the value enqueued at that index; gives back the block exactly when all its elements were read. |
| ImplicitProducer.Producer.SetManyEmpty | Common/concurrentqueue.h:1635-1640 | Counts several elements as read; true exactly when the block is empty then. |
| ImplicitProducer.Producer.ReadBulk | Common/concurrentqueue.h:2810-2878 | Returns the values at the claimed indices, in order, and gives back exactly the blocks that become empty on the way. |
| ImplicitProducer.Producer.NewBlockIndex | Common/concurrentqueue.h:2973-3015 | Doubles the index: the old pointers, oldest first, and as many fresh entries. |
| ImplicitProducer.Producer.InsertEntry | Common/concurrentqueue.h:2908-2940 | Succeeds exactly when the next entry is free or the index can grow; the assertion on the fresh key holds; a failure changes nothing. |
| ImplicitProducer.Producer.StartBlock | Common/concurrentqueue.h:2508-2540 | Starts a block exactly when an entry and a block can be had; a failure leaves the index right. |
| ImplicitProducer.Producer.Enqueue | Common/concurrentqueue.h:2494-2555 | Appends the value, or fails exactly when a block is needed and cannot be had, and then the contents stay. |
| ImplicitProducer.Producer.EnterBlocks | Common/concurrentqueue.h:2652-2707 | Starts blocks up to the first failure, as many as can be started; they are those of the pool, in order and chained. |
| ImplicitProducer.Producer.Rollback | Common/concurrentqueue.h:2675-2683 | Takes exactly the blocks of this operation out again and gives them back, in order. |
| ImplicitProducer.Producer.GiveBack | Common/concurrentqueue.h:3087-3094 | The walk along the chain meets exactly these blocks. |
| ImplicitProducer.Producer.FillBlocks | Common/concurrentqueue.h:2717-2778 | Fills the blocks along the chain; the values appended are the items, in order. |
| ImplicitProducer.Producer.EnqueueBulk | Common/concurrentqueue.h:2633-2781 | Appends all the items in order if and only if all the blocks that they need can be started; otherwise contents and blocks are as before, and the blocks started go back. |
| ImplicitProducer.StartableMeans | Common/concurrentqueue.h:2668 | A block is started if the pool has one and the index has room or can grow; the first that is not lacks a block, or both the room and the allocation of an index. |
| ImplicitProducer.WindowMeans | Common/concurrentqueue.h:2914-2938 | The window has room exactly while it has numbers left or all elements of its oldest block were dequeued; one more block takes the next number, the oldest one's place, or a window of twice the size. |
| ImplicitProducer.Producer.EnqueueEach | Common/concurrentqueue.h:2494-2555 | The same items enqueued one after the other, from the same state with the same allocations, succeed exactly when the bulk enqueue does and then leave the same contents; otherwise they leave the items before the failure. |
| ProducerHash.Find | Common/concurrentqueue.h:3418-3455 | The probe ends, because less than the whole table is used, and tells whether the id is in the table. |
| ProducerHash.FindFree | Common/concurrentqueue.h:3431-3446 | The probe for a slot ends at the first slot on the id's way that holds no id: all before it do. |
| ProducerHash.PutOk | Common/concurrentqueue.h:3525-3529 | An id put there can be found, and a reused slot was counted already. |
| ProducerHash.EraseOk | Common/concurrentqueue.h:3557-3566 | A tombstone makes the id disappear, and every other id can still be found past it. |
| ProducerHash.LiveBound | Common/concurrentqueue.h:3426-3428 | The used slots of a table and the threads missing from it bound the number of live threads. |
| ProducerHash.MigrateOk | Common/concurrentqueue.h:3430-3447 | There is room in the main table for every thread of an older one, without counting it again. |
| ProducerHash.InsertOk | Common/concurrentqueue.h:3514-3531 | Entering a new thread keeps less than half of the main table used, and its count right. |
| ProducerHash.GrowOk | Common/concurrentqueue.h:3467-3491 | A new main table has room for all live threads. |
| ProducerHash.NotInAny | Common/concurrentqueue.h:3414-3456 | A thread is in some table exactly when it is alive and has a producer. |
| ProducerHash.ExitOk | Common/concurrentqueue.h:3555-3567 | With the id gone from every table, the chain maps exactly the threads left. |
| ProducerHash.Queue.constructor | Common/concurrentqueue.h:3339-3355 | At first no thread has a producer. |
| ProducerHash.Queue.RecycleOrCreate | Common/concurrentqueue.h:3234-3251 | Returns an inactive producer of this kind, now in use, or a new one, and a new one exactly when there is none; nothing exactly when that cannot be allocated either. |
| ProducerHash.Queue.Lookup | Common/concurrentqueue.h:3414-3456 | Finds the thread's producer in the newest table that has the thread, or the thread has none. |
| ProducerHash.Queue.Migrate | Common/concurrentqueue.h:3429-3447 | The thread is in the main table then; the map stays. |
| ProducerHash.Queue.Resize | Common/concurrentqueue.h:3461-3496 | It fails exactly when the main table is too small for one more thread and a larger one cannot be allocated, and changes nothing then; it changes nothing either when the main table is large enough; otherwise the new main table is the first doubling that is. |
| ProducerHash.Queue.Insert | Common/concurrentqueue.h:3514-3532 | The map gets exactly this thread, in a slot that held no id; the count goes up by one unless that slot was a reusable one. |
| ProducerHash.Queue.GetOrAdd | Common/concurrentqueue.h:3395-3540 | The chain of tables is a map from live threads to producers: a thread gets its own producer, or one that no other thread has. It gets none exactly when it has none and either the main table is too small for one more thread and a larger one cannot be allocated, or no producer of its kind is inactive and a new one cannot be. |
| ProducerHash.Queue.ThreadExited | Common/concurrentqueue.h:3543-3571 | The map loses exactly this thread, and just its producer may be used again. |
| Circular.CircularLessIsOrder | Common/concurrentqueue.h:484-490 | The wrapped comparison agrees with the true order of indices up to half the range apart, except for y - x = 2^63 exactly. |
| Circular.BlockBaseDiffCounts | Common/concurrentqueue.h:2075 | The number of blocks that the machine computes is right also when the subtraction wraps. |
| Circular.SignedDifference | Common/LockFreeCurcularQueue.h:86 | The signed difference of two words is the true difference within half the range. |
| Circular.LookupSlotAgrees | Common/concurrentqueue.h:2018-2024 | The machine's slot (signed difference, division towards zero, mask) is that of unbounded arithmetic, for sizes that divide 2^64. |
| Circular.RoundUpIsLeast | Common/concurrentqueue.h:500-514 | Rounding up gives the least power of two that is not smaller. |
| Circular.RoundUpTooLarge | Common/LockFreeCurcularQueue.h:44-56 | It comes to 0 exactly for 0 and beyond 2^63. |
| Circular.RoundUpAtLeastTwo | Common/LockFreeCurcularQueue.h:58-62 | The ring has at least two slots exactly when a capacity of at least two is asked for. |
| Circular.MaskIsRemainder | Common/LockFreeCurcularQueue.h:84 | Masking with a power of two less one is the remainder, as numbers. |
| Circular.PowerDivides | Common/LockFreeCurcularQueue.h:62-63 | Every power of two divides the range of words. |
| Circular.MaskIsIndex | Common/LockFreeCurcularQueue.h:84 | The slot that is computed from the word of a position is the slot of the unbounded position that the ring's theorems use. |
| TimerWheel.LinkedPush | Net/src/TimerWheel.cpp:83-92 | A node pushed to the head of a slot's list keeps it acyclic and linked in both directions. |
| TimerWheel.LinkedBypass | Net/src/TimerWheel.cpp:133-151 | Unlinking keeps the list acyclic and linked in both directions. |
| TimerWheel.InsertArith | Net/src/TimerWheel.cpp:72-73 | Slot and rotations of a node that is inserted amount to its number of ticks. |
| TimerWheel.TicksMean | Net/src/TimerWheel.cpp:61-71 | The number of ticks of an interval is 1 when the interval is shorter than a tick, and otherwise the whole number t with t * tickLength <= interval < (t + 1) * tickLength. |
| TimerWheel.TicksUnique | Net/src/TimerWheel.cpp:61-71 | Only that number is. |
| TimerWheel.AfterArith | Net/src/TimerWheel.cpp:155-156 | When the slot moves on, the current slot's nodes are a whole turn away and every other node is nearer by one tick. |
| TimerWheel.InsertRefines | Net/src/TimerWheel.cpp:55-98 | An insertion starts one countdown and leaves the others. |
| TimerWheel.DrainStart | Net/src/TimerWheel.cpp:114 | The invariant of the loop of `tick` holds at its start: exactly the countdowns at 0 are to fire. |
| TimerWheel.DrainTurn | Net/src/TimerWheel.cpp:117-121 | A node with rotations left is passed, and only its rotation goes down. |
| TimerWheel.FireAgain | Net/src/TimerWheel.cpp:124-152 | A timer that fires with executions left is back on the wheel once, even when it is put into the slot that is being drained. |
| TimerWheel.FireLast | Net/src/TimerWheel.cpp:124-152 | A timer that fires for the last time is off the wheel. |
| TimerWheel.DrainEnd | Net/src/TimerWheel.cpp:155-156 | At the end exactly the timers whose countdown was 0 fired, and every other countdown went down by one. |
| TimerWheel.TimerWheel.constructor | Net/src/TimerWheel.cpp:21-46 | The wheel is empty at first. |
| TimerWheel.TimerWheel.InsertNode | Net/src/TimerWheel.cpp:55-98 | The new node heads the list of the slot where it belongs. |
| TimerWheel.TimerWheel.Insert | Net/src/TimerWheel.cpp:55-98 | The wheel refines a map of countdowns: this timer's starts at its number of ticks, whether its count is a number or FOREVER; as a clock it takes the insertion step that `FiresAfterInterval` is about. |
| TimerWheel.TimerWheel.Unlink | Net/src/TimerWheel.cpp:133-152 | Takes exactly this node out and returns the one behind it. |
| TimerWheel.TimerWheel.Execute | Net/src/TimerWheel.cpp:124-152 | The timer executes once, its count goes down unless it is FOREVER, and it goes back on the wheel exactly if executions are left. |
| TimerWheel.TimerWheel.Tick | Net/src/TimerWheel.cpp:103-157 | Fires exactly the timers whose countdown is 0, once each; every other countdown goes down by one, and those that go on start over; as a clock the wheel takes the tick step that RunLife and FiresExactly are about. |
| TimerWheel.Schedule | Net/include/Timer.h:156-167 | A timer's ticks by its countdown, period and count alone. |
| TimerWheel.RunLife | Net/src/TimerWheel.cpp:103-157 | In every run, whatever other timers do, a timer lives as its own ticks say. |
| TimerWheel.FiresExactly | Net/src/TimerWheel.cpp:61-78 | In every run, a timer of T ticks fires on tick m exactly if m = T + 1 + jP for some j < n, where P = T if M does not divide T, and T + M if it does, and n is its count, or 1 for FOREVER. |
| TimerWheel.FiresAfterInterval | Net/src/TimerWheel.cpp:61-78 | The same over the interval: in every run a timer that is inserted with it fires on the next tick exactly if that is tick T + 1 + jP, where T is 1 for an interval shorter than a tick and else the number of whole ticks in it. |
| TimerWheel.FirstAfterInterval | Net/src/TimerWheel.cpp:61-78 | In every run, a timer of one tick or more fires first on the tick that ends just after its interval. |
| TimerWheel.ForeverFiresOnce | Net/src/TimerWheel.cpp:127-132 | In every run, a timer that is meant to execute for ever fires on tick T + 1 and never again. |
| TcpBuffer.TcpBuffer.constructor | Net/src/TcpBuffer.cpp:11-16 | An empty queue of bytes with the reserved space in front. |
| TcpBuffer.TcpBuffer.ReusePrependableSpace | Net/src/TcpBuffer.cpp:183-192 | The overlapping copy keeps the bytes that can be read. |
| TcpBuffer.TcpBuffer.Expend | Net/src/TcpBuffer.cpp:167-182 | There is room enough, the array does not shrink, the contents stay; the array is replaced exactly when moving does not free enough. |
| TcpBuffer.TcpBuffer.EnsureWritableBytes | Net/src/TcpBuffer.cpp:96-104 | Both assertions hold; nothing moves when there is room. |
| TcpBuffer.TcpBuffer.Append | Net/src/TcpBuffer.cpp:61-66 | Appends exactly these bytes. |
| TcpBuffer.TcpBuffer.HasWritten | Net/src/TcpBuffer.cpp:105-110 | The bytes behind the readable ones become readable. |
| TcpBuffer.TcpBuffer.Unwrite | Net/src/TcpBuffer.cpp:111-116 | Takes back the last bytes. |
| TcpBuffer.TcpBuffer.Consume | Net/src/TcpBuffer.cpp:146-161 | Drops bytes from the front; an empty buffer starts over. |
| TcpBuffer.TcpBuffer.Retrieve | Net/src/TcpBuffer.cpp:75-84 | Points to the bytes dropped from the front, or to nothing and changes nothing when there are too few. |
| TcpBuffer.TcpBuffer.AppendFromFd | Net/src/TcpBuffer.cpp:33-60 | A two-part scatter read of at most the writable space and 64 kB, or of the writable space alone when that is larger, appends exactly the bytes received; an error appends none. |
| TcpBuffer.TcpBuffer.FindBorder | Net/include/TcpBuffer.h:241-246 | The first occurrence of the border, or the number of readable bytes when there is none. |
| TcpBuffer.TcpBuffer.Clear | Net/include/TcpBuffer.h:296-300 | The indices stay valid if and only if the reserved space is at most 8 bytes and the array has 8. |
| TcpBuffer.ClearedTooLow | Net/include/TcpBuffer.h:296-300 | With a reserved space of 16 bytes, clear leaves an invalid buffer. |
| Codec.LineTryDecode | Net/src/Codec.cpp:8-25 | The loop finds the first line. |
| Codec.LineEncode | Net/src/Codec.cpp:26-30 | Appends the line's frame. |
| Codec.LineRoundTrip | Net/src/Codec.cpp:8-30 | A line's frame, whatever follows, decodes to the line if and only if the line has no line break. |
| Codec.LinePrefix | Net/src/Codec.cpp:10-24 | A proper part of a frame decodes to nothing, except a single end-of-transmission byte. |
| Codec.LinePrefixTaken | Net/src/Codec.cpp:10-14 | The exception. |
| Codec.LineStream | Net/src/Codec.cpp:8-30 | Decoding again and again what was encoded gives the lines back, and leaves a part of one more frame. |
| Codec.LineDecodeExactly | Net/src/Codec.cpp:8-25 | For any bytes: without a line feed nothing is decoded, but for a single byte 4; otherwise the first line is, without its break, and exactly the break's carriage return is taken off too. |
| Codec.BigEndianInverse | Net/src/Codec.cpp:38 | The length in network order is read back as it was written, modulo 2^32. |
| Codec.LengthEncode | Net/src/Codec.cpp:50-55 | Appends the message's frame. |
| Codec.LengthRoundTrip | Net/src/Codec.cpp:32-55 | A message's frame, whatever follows, decodes to the message if and only if it has at most 2^20 bytes. |
| Codec.LengthPrefix | Net/src/Codec.cpp:34-48 | Every proper part of a frame decodes to nothing yet. |
| Codec.LengthStream | Net/src/Codec.cpp:32-55 | Decoding again and again what was encoded gives the messages back, and leaves a part of one more frame. |
| Codec.LengthDecodeSound | Net/src/Codec.cpp:32-55 | Any bytes decode to a message if and only if they start with its frame and it has at most 2^20 bytes. |
| Codec.LengthDecodeExactly | Net/src/Codec.cpp:34-48 | Bytes are refused exactly when their first eight are there and do not start with "mBdT" or say a length above 2^20; a message is taken exactly when neither is so and all of it is there. |
| Codec.FrameBytes | Net/src/Codec.cpp:26-30 | Byte by byte, what the frames are: "mBdT", the length with its highest byte first, and the message; or the line, 13 and 10. |
| Barrier.BarrierObject.constructor | ThreadPool/threadpool_test/google-benchmark/src/mutex.h:101 | All threads are counted and none has entered. |
| Barrier.BarrierObject.Enter | ThreadPool/threadpool_test/google-benchmark/src/mutex.h:132-149 | The part of `createBarrier` before the wait is the step of the model. |
| Barrier.BarrierObject.Wake | ThreadPool/threadpool_test/google-benchmark/src/mutex.h:138-149 | So is the part from the wait on. |
| Barrier.BarrierObject.RemoveThread | ThreadPool/threadpool_test/google-benchmark/src/mutex.h:114-118 | So is `removeThread`. |
| Barrier.StepInv | ThreadPool/threadpool_test/google-benchmark/src/mutex.h:104-150 | Entering, waking up and being removed keep the invariant, also when a removal completes the phase. |
| Barrier.EnteredAlways | ThreadPool/threadpool_test/google-benchmark/src/mutex.h:133-135 | In every run entered <= running, and the check at the start of `createBarrier` never fails. |
| Barrier.OneLastThread | ThreadPool/threadpool_test/google-benchmark/src/mutex.h:138-149 | In every run and for every phase that ended, exactly one thread is told that it was the last, and exactly those that entered came back. |
| Barrier.NoneLeavesEarly | ThreadPool/threadpool_test/google-benchmark/src/mutex.h:135-149 | In every run, no thread comes back from its k-th wait before every thread still counted has called wait for the k-th time. |
| Barrier.EntersExactly | ThreadPool/threadpool_test/google-benchmark/src/mutex.h:132-149 | In every run, a thread that enters returns at once, and is told that it is the last, if and only if all other threads that are counted are inside the phase; otherwise it waits. |
| Barrier.WakesExactly | ThreadPool/threadpool_test/google-benchmark/src/mutex.h:138-149 | In every run, a thread inside may wake if and only if its phase has ended or all threads counted are inside it; in the first case it is told that it was not the last, in the second that it is. |
| StringPiece.StringPiece.EatWord | Common/stringPiece.h:227-241 | Takes the first word off the text in view. |
| StringPiece.StringPiece.EatLine | Common/stringPiece.h:243-251 | Takes the first line off, up to its break. |
| StringPiece.StringPiece.Eat | Common/stringPiece.h:146-151 | Moves the front on, even past the end. |
| StringPiece.StringPiece.TrimSpace | Common/stringPiece.h:252-259 | Trims white space at both ends. |
| HttpParser.HttpMsg.LowerCase | Net/HTTP/http.cpp:84-87 | Lowers every letter. |
| HttpParser.HttpMsg.ParseLine | Net/HTTP/http.cpp:75-96 | What one header line comes to: a field, the end of the headers, or an error. |
| HttpParser.HttpMsg.ParseHeaders | Net/HTTP/http.cpp:72-97 | The fields of all lines, later ones over earlier ones. |
| HttpParser.HttpMsg.ScanHead | Net/HTTP/http.cpp:54-62 | Stops at the first end of a header section, or three bytes before the end. |
| HttpParser.HttpMsg.ParseBody | Net/HTTP/http.cpp:110-124 | Takes the body as soon as, and only when, all of it is there. |
| HttpParser.HttpMsg.TryDecode | Net/HTTP/http.cpp:40-125 | The loops compute what the functional decoder says. |
| HttpParser.FindEndPrefix | Net/HTTP/http.cpp:54-62 | More bytes do not change the end that was found, and what was scanned need not be scanned again. |
| HttpParser.TakeHeadTwice | Net/HTTP/http.cpp:69-113 | A header section parsed from a part of the bytes leaves what it would leave with all of them. |
| HttpParser.ChunksDoNotMatter | Net/HTTP/http.cpp:40-125 | For every chain of growing prefixes the calls leave the same message, first line and scan position as one call with the last prefix; negative content lengths and their exceptions included. |
| HttpParser.CompleteExactly | Net/HTTP/http.cpp:40-125 | However the bytes arrive, a message is complete if and only if its header section ends and is well formed, its whole body is there, and it does not start with the end of a header section. |
| HttpParser.NeverComplete | Net/HTTP/http.cpp:64-67 | In every run a message that starts with the end of a header section leaves everything as at the start. |
| HttpParser.EmptyHeadIsWhole | Net/HTTP/http.cpp:64-67 | The input that shows it: the four characters alone are a whole message and are never complete. |
| HttpParser.NegativeLength | Net/HTTP/http.cpp:101-121 | A negative content length -n makes the copy of the body throw exactly when n is at most the size of the header section. |
| HttpGrammar.AcceptedExactly | Net/HTTP/http.cpp:72-97 | Header lines are accepted if and only if each is white space, a name without white space that ends with a colon, and a value with white space around it, up to a last line of white space, all in terms of characters; the headers are those of these fields. |
| HttpGrammar.WordIs | Common/stringPiece.h:227-241 | A word is what stands between white space: space, and characters 9 to 13. |
| HttpGrammar.TrimIs | Common/stringPiece.h:252-259 | Trimming takes just the white space at both ends. |
| HttpGrammar.LowerIs | Net/HTTP/http.cpp:83-87 | Just the letters A to Z are moved by 32. |
| HttpGrammar.LastField | Net/HTTP/http.cpp:88 | A header has the value of the last field of its name. |
| HttpGrammar.NoField | Net/HTTP/http.cpp:88 | A header that no field names is not there. |
| HttpGrammar.AtollOf | Net/HTTP/http.cpp:101 | A number is read from white space, a sign, and digits up to the first other character. |
| HttpGrammar.HeadParts | Net/HTTP/http.cpp:51-70 | Every header section has a first line and header lines, split at the first line break. |
| HttpGrammar.FirstCallWaits | Net/HTTP/http.cpp:51-67 | Without the end of a header section, or with one at the very start, a first call says NotComplete. |
| HttpGrammar.FirstCallError | Net/HTTP/http.cpp:69-97 | With one, a first call says Error if and only if the header lines do not spell fields. |
| HttpGrammar.FirstCall | Net/HTTP/http.cpp:51-125 | With fields, it says Complete exactly when the body is there as long as the content-length says, Continue100 exactly when it is not and there is an expect header, NotComplete otherwise, and throws exactly for the negative lengths of `NegativeLength`; headers, body and first line are given over the bytes. |
| HttpGrammar.LastCall | Net/HTTP/http.cpp:40-125 | The same for the last of any number of calls with growing buffers; Continue100 is said only by the first of them that has the whole header section. |
| HttpGrammar.RefusedForGood | Net/HTTP/http.cpp:93-96 | However the bytes arrive, lines that do not spell fields are refused by every call that has all of them, and the message never completes. |
| HttpGrammar.WholeExactly | Net/HTTP/http.cpp:51-125 | Bytes start with a whole message if and only if their header lines spell fields and as much body is there as these say. |
| HttpPrinter.PrintRest | Net/HTTP/http.cpp:153-166 | What is printed after the first line. |
| HttpPrinter.AtollDecimal | Net/HTTP/http.cpp:101 | A printed length is read back. |
| HttpGrammar.PrintedText | Net/HTTP/http.cpp:141-169 | Character by character, what is printed: at most 4095 characters of the first line, the fields, the two that are added, with the length in decimal digits, a blank line, and the body. |
| HttpPrinter.ScanLines | Net/HTTP/http.cpp:54-62 | The scan does not stop inside printed header lines. |
| HttpPrinter.ParseSection | Net/HTTP/http.cpp:72-97 | Printed fields are parsed into the same fields. |
| HttpPrinter.PrintedParses | Net/HTTP/http.cpp:40-169 | A printed message is parsed from the front of any bytes that start with it: all of it and nothing else is taken, and first line, headers and body are those printed. |
| HttpPrinter.HeadParses | Net/HTTP/http.cpp:51-97 | A first line and fields that were printed are found again, whatever follows. |
| HttpLimits.ParsedHeaders | Net/HTTP/http.cpp:72-97 | Whatever the bytes, headers have names without white space and values that are trimmed lines. |
| HttpLimits.TooLong | Net/HTTP/http.cpp:144-151 | A first line that the printer's buffer cuts off spoils the fields: with its line break gone it swallows the first one, and the others are read; with only its line feed gone, the first field's name loses its first character and all else is read as it was printed. |
| HttpMessages.HttpRequest.Encode | Net/HTTP/http.cpp:141-169 | Appends the printed request and returns its size. |
| HttpMessages.HttpRequest.TryDecode | Net/HTTP/http.cpp:171-191 | Takes the request line apart, with the url and the arguments, when and only when a call comes to it. |
| HttpMessages.VerbPrinted | Net/HTTP/http.cpp:202-213 | The first word printed for each verb is literally "GET", "POST", "PUT", "DELETE", "HEAD" or "UNKNOWN". |
| HttpMessages.VerbMeans | Net/HTTP/http.cpp:215-226 | For any line, the verb parsed is GET, POST, PUT, DELETE or HEAD exactly when the first word is that word, and UNKNOWN for all others. |
| HttpMessages.RequestLineMeans | Net/HTTP/http.cpp:171-189 | A line of three words with white space between them is parsed into the verb of the first, the target and the version. |
| HttpMessages.CStringSame | Net/HTTP/http.cpp:147-150 | What `%s` prints of a text: all of it without null characters, and otherwise the part before the first one. |
| HttpQuery.ParseUrlParams | Net/HTTP/http.cpp:228-252 | The loop finds the url before the first question mark, and the arguments behind it, later ones over earlier ones. |
| HttpQuery.TargetMeans | Net/HTTP/http.cpp:230-233 | The url is what stands before the first question mark, the query what stands behind it. |
| HttpQuery.QueryParts | Net/HTTP/http.cpp:235-248 | Every query is pairs joined by ampersands, each with an equals sign behind a key without one, and a rest without an equals sign. |
| HttpQuery.QueryMeans | Net/HTTP/http.cpp:235-248 | The arguments of such a query are its pairs, and the rest is ignored. |
| HttpQuery.LastPair | Net/HTTP/http.cpp:245 | An argument has the value of the last pair with its key. |
| HttpQuery.QueryRoundTrip | Net/HTTP/http.cpp:236-248 | Pairs with different keys that were joined to a query are found again if and only if no key has an equals sign and no value an ampersand. |
| HttpMessages.HttpResponse.Encode | Net/HTTP/http.cpp:271-297 | Appends the printed response and returns its size. |
| HttpMessages.HttpResponse.TryDecode | Net/HTTP/http.cpp:299-311 | Takes the status line apart; the number of the status is read from where the second word starts, without regard to the end of the line. |
| HttpMessages.StatusPrinted | Net/HTTP/http.cpp:276-278 | The first line printed is version, number in decimal digits with a sign when it is negative, and reason. |
| HttpMessages.ResponseLineMeans | Net/HTTP/http.cpp:304-308 | A line of a word, a number and a rest is parsed into the version, the number and the rest without the white space around it. |
| HttpMessages.StatusFrom | Net/HTTP/http.cpp:306 | With a second word, the status is the number that this starts with; without one, it is the number that the next lines start with. |
| HttpMessages.StatusOfLine | Net/HTTP/http.cpp:306 | Whatever lines follow, the status is that of the line itself if and only if the line has a second word. |
| HttpMessages.StatusOfNextLine | Net/HTTP/http.cpp:306 | The input that shows it: a whole response without a status whose status is read from the name of its first field. |
| HttpMessages.RequestRoundTrip | Net/HTTP/http.cpp:141-191 | Decoding a printed request, whatever follows it, completes, takes exactly its bytes and recovers method, target, version, body and the lower-case headers under those that printing adds. |
| HttpMessages.RequestRoundTripExactly | Net/HTTP/http.cpp:141-191 | With header names that differ in lower case, this holds if and only if target and version are words that can be printed (no version without a target), the first line fits the buffer, and the fields have words for names and trimmed lines for values. |
| HttpMessages.ResponseRoundTrip | Net/HTTP/http.cpp:271-311 | The same for responses, with any status number and reason. |
| HttpMessages.ResponseRoundTripExactly | Net/HTTP/http.cpp:271-311 | With header names that differ in lower case, it holds if and only if the version is a word and the reason a trimmed line or nothing, both without null characters, the first line fits the buffer, and the fields are as for requests. |

## Left out

- Memory orders and fences: all accesses are sequentially consistent.
- Wrap-around of 64-bit counters inside the protocols: positions are unbounded there, and `Circular.dfy` says when machine arithmetic agrees. The leeway check that makes `enqueue` return false when the tail would pass the head by half the range is left out with it.
- Constructors of elements that throw, `MAX_SUBQUEUE_SIZE`, and allocation failures of the explicit producer.
- The failed first allocation of an implicit producer's index, after which every `enqueue` of it returns false.
- Threads inside the hash tables: an operation is one step there, with the resize lock always free; the free list, the dequeue counters, both kinds of producers with their consumers, the ring and the barrier are interleaved access by access.
- ExplicitRuns.InvStep: clearing or setting all flags of a block that no consumer can reach is one step, and so is the copy into a larger index before it is published.
- ImplicitRuns.InvStep: the copy into a larger index is one step, and so is giving back the chain of a failed operation; a bulk dequeue of at most 0 elements does not look at the block of the head.
- ExplicitProducer.Producer.Claim: taking indices is one step that needs enough elements; that consumers only take indices that exist is proved in `DequeueCounters`, and for producer and consumers together in `ExplicitRuns` and `ImplicitRuns`.
- Blocks, nodes, producers and threads are numbers, and their fields maps from them; freeing memory, destructors, move and swap of queues, consumer tokens and their rotation, and debugging branches are not modelled.
- Blocks of another size than 32, and emptiness counters for explicit producers of larger blocks.
- Liveness: that a waiting thread of the barrier is notified, and that a thread is scheduled at all. A `try_get`, `add` or ring operation may try again as long as others make progress; that the operations of the producers and their consumers end is proved in `ExplicitRuns` and `ImplicitRuns`.
- In the wheel: the timer descriptor, insertion from other threads, `cancel`, and callbacks that insert timers or change counts.
- TimerWheel.TimerWheel.Insert: asks for a timer that is not on the wheel and whose count is not 0, because the two nodes of a timer share its count and, when that is finite, the assertion of `execute` (Net/include/Timer.h:158) fails when it is used up.
- TcpBuffer.TcpBuffer.Valid: holds over append, consume, retrieve, hasWritten, unwrite, expend and reads; `prepend`, `shrink`, `swap`, `readView` and `retrieveAllToString` are not modelled.
- Codec.LengthEncode: lengths from 2^32 bytes on are cut to 32 bits as in the source, but sizes that an `int` cannot hold are not cut when they are returned.
- HTTP: bodies that are views of the input, `clear`, status numbers that an `int` cannot hold, characters beyond one byte, and reading past the end of the buffer for a status that is not there. Bodies have at most 2^63 - 1 bytes, as strings do, and numbers that a signed word cannot hold are clamped, as the GNU C library does.
- HttpMessages.RequestRoundTripExactly: speaks of header names that differ in lower case, those that printing adds included; for others `RequestRoundTrip` says what is recovered when the other conditions hold.
- HttpMessages.ResponseRoundTripExactly: likewise.
- The server and client around the parser, the router, remote procedure calls, loggers, sockets, event loops, the thread pool's tasks and the set of timers of `TimerQueue`: plumbing, input and output, or without an interesting invariant.
