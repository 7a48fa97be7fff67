# A model of the lightning++ server, with proofs

This project models the concurrent core of the server in Dafny, from the lock-free queue up to the
life of a connection, and the text transformations at its edges, and proves what they are for.

`dafny verify dfyconfig.toml` checks all of it.

## The layers

1. **The queue.** `FreeList`, `Tickets`, `SubQueue` and `BlockIndex` are step systems: any number of
   threads interleave, and the theorems hold after every run. In `FreeList`, `Tickets` and `BlockIndex` one
   atomic load, store, compare-and-swap or fetch-and-add is one step; `SubQueue` takes an operation of the
   free list or of the index as one, `SubQueueCalls` follows whole calls through its runs, and `IndexedQueue`
   joins it to the steps of `BlockIndex`.
   `ImplicitProducer`, `ProducerHash` and `TryDequeue` are classes whose methods keep the loops and in-place
   updates of the source and are proved against specifications; in `TryDequeue` other threads may take any
   steps of `Tickets` between two accesses of the call.
   `MachineArithmetic` (with `Bits`) connects the unbounded counters of the step systems to 64-bit words.
2. **Semaphore, blocking queue, executor.** `Semaphore`, `BlockingQueue` and `Executor` are step systems.
   Their invariants are exact accounts, from which follow that permits are neither lost nor over-issued,
   that a consumer in its retry loop always has an item, and that a shutdown runs every task once and ends.
3. **The server.** `Server` is one step system of the accepting thread, the manager with its event loop,
   and the workers, with two queues, two pipes, the one-shot epoll set and the map of connections.
   Descriptors are reused as the kernel reuses them. `ServerProgress` shows that no
   reachable state is stuck, and that `start` returns once the manager has left its loop.
4. **Text.** `Strings` is `formatEx` with its rounds; `Regex` and `UriMapper` compile URI patterns, parse
   what was emitted and compare languages; `PlainStream` buffers and frames; `HttpRequest` parses, and is
   joined to the framing by a round trip from the wire.

`Common` and `Modular` hold what several modules share: sums over maps, distinct sequences, arithmetic
modulo a variable.

History that a statement needs but no step reads is kept in fields marked as such (`place`, `taken`,
`signalled`, `past`), and each main theorem is stated about the program's own containers and counters.

## What the code does that its comments do not say

- `createExactMatch` never returns when the URI contains `{}`: `formatEx` calls itself for ever
  (`UriMapper.ExactMatchTerminates`).
- `createWithWildcard` emits no `^` and no `$` of its own, although its comment shows them. Under
  `regex_match` this makes no difference (`Regex.AnchorsAreImplied`), and the model follows the code.
- The comment on `UriMapper::add` says that the later of two matching patterns wins. The map is unordered,
  and an order of iteration may find the earlier one (`UriMapper.EarlierMayWin`). The later one wins in every
  order exactly when no two registered expressions match the path (`UriMapper.LaterWins`).
- With several consumers `try_dequeue` may return false although there is an element that nobody has
  claimed (`Tickets.AnElementMayBeMissed`): it does so undisturbed exactly when no sub-queue has more elements
  than tickets in flight. It takes two consumers (`Tickets.MissesNeedTwo`): a single one, as either channel of
  the server has, misses nothing.
- Tasks are claimed in the order in which they were added, but may start in another
  (`Executor.StartsMayOvertake`). They always start in that order exactly with fewer than two workers
  (`Executor.OrderIsKeptByOneWorker`).
- The manager strips the empty line together with the line end before it, so a request without headers
  reaches the parser without a line end and is answered with 400 (`HttpRequest.WireRoundTrip`).
- A header that does not fit into 65536 bytes is never dispatched, and stays in the buffer
  (`PlainStream.NextHeader`).
- `readUntilToken` takes nothing from the buffer and puts what it has received too much behind it. The bytes
  keep their order exactly when what it takes and what was in the buffer commute, as when the buffer is empty
  (`PlainStream.Stream.ReadUntilToken`, `PlainStream.OrderCanBeLost`).
- `read` loses what it has taken out of the stream when `recv` fails, and pads with zeros at the end of the
  stream. It can lose something exactly when the buffer does not suffice, and is not empty or more than one
  byte is asked for and there is something to come (`PlainStream.WhenReadCanLose`).
- When `start` returns, descriptors may still be open, those of connections and of clients left in the return
  queue and no others (`Server.WhatIsLeftAtTheEnd`, `Server.AConnectionMayBeLeft`,
  `Server.AReturnedClientMayBeLeft`).

## Model

| member | source | states |
|---|---|---|
| `MachineArithmetic.CircularLessThanIsExact` | lightning/moodycamel/concurrentqueue.h:487-495 | on 64-bit residues of counters less than 2^64 apart, the comparison is `<` of the counters if and only if their difference lies in (-2^63, 2^63] |
| `MachineArithmetic.CircularLessThanRefinesLess` | lightning/moodycamel/concurrentqueue.h:487-495 | counters less than 2^63 apart compare as unbounded numbers do, which is what lets the step systems use unbounded counters |
| `MachineArithmetic.DifferenceComparesExactly` | lightning/moodycamel/concurrentqueue.h:2571-2582 | the two checks of `dequeue`, a difference of two registers compared with a third, decide the comparison of the unbounded counters |
| `MachineArithmetic.FinaliseRoundTrip` | lightning/moodycamel/concurrentqueue.h:461-470 | the 64-bit hash finaliser is undone by an explicit inverse on every 64-bit value |
| `MachineArithmetic.FinaliseIsInjective` | lightning/moodycamel/concurrentqueue.h:461-470 | distinct thread ids keep distinct hashes |
| `MachineArithmetic.CeilToPow2` | lightning/moodycamel/concurrentqueue.h:503-518 | the loop of shifts yields the least power of two not below x for 1 <= x <= 2^63, and 0 for every other 64-bit x |
| `MachineArithmetic.OrShifted` | lightning/moodycamel/concurrentqueue.h:508-513 | one smearing step doubles the run of ones below the top bit, up to the width of the number |
| `MachineArithmetic.MaskIsRemainder` | lightning/moodycamel/concurrentqueue.h:2927-2927 | a 64-bit register masked with 2^k - 1 is the remainder by 2^k of the counter, of negative ones as well |
| `MachineArithmetic.MaskRoundsDown` | lightning/moodycamel/concurrentqueue.h:2973-2973 | the register without the masked bits is that of the counter rounded down to a multiple of 2^k |
| `MachineArithmetic.MaskedSlot` | lightning/moodycamel/concurrentqueue.h:2980-2981 | the masked sum of tail and cast offset is the remainder of their sum, for an offset that is negative |
| `FreeList.Preserved` | lightning/moodycamel/concurrentqueue.h:1479-1558 | every atomic step of `add` and `try_get` keeps the invariant of nodes, threads and chain |
| `FreeList.InvariantOnRuns` | lightning/moodycamel/concurrentqueue.h:1479-1558 | the invariant holds after every interleaving of any number of threads |
| `FreeList.NoNodeIsGivenTwice` | lightning/moodycamel/concurrentqueue.h:1493-1534 | a node about to be returned is with no client by the calls and returns so far, not reachable from the head, and not in the hands of another thread |
| `FreeList.PopInstallsTrueSuccessor` | lightning/moodycamel/concurrentqueue.h:1497-1516 | no ABA: a successful head exchange of `try_get` installs the node's successor, and the list loses exactly that node |
| `FreeList.PushLosesNothing` | lightning/moodycamel/concurrentqueue.h:1536-1558 | a successful head exchange of `add` puts the node in front of the whole old list, in which it was not |
| `FreeList.ReferenceCountsAreExact` | lightning/moodycamel/concurrentqueue.h:1479-1558 | the chain is acyclic, the low bits of `freeListRefs` are the transient holders plus the list's own reference, and the popper's assertion holds |
| `FreeList.QuiescentListIsExact` | lightning/moodycamel/concurrentqueue.h:1479-1558 | with no thread inside, the list holds exactly the nodes given and not taken, each with one reference |
| `FreeList.LedgerIsPlace` | lightning/moodycamel/concurrentqueue.h:1479-1534 | the clients' account of what they hold, from calls and returns alone, agrees with the recorded places in every run |
| `FreeList.LoneGet` | lightning/moodycamel/concurrentqueue.h:1493-1534 | from every reachable state with nobody inside, a `try_get` that runs alone returns null and changes nothing if the list is empty, and otherwise returns the first node, which is then the client's by the calls and returns, and leaves the rest |
| `FreeList.LoneAdd` | lightning/moodycamel/concurrentqueue.h:1479-1490 | an `add` that runs alone puts its node in front of the list and changes nothing else |
| `FreeList.NullMeansEmpty` | lightning/moodycamel/concurrentqueue.h:1493-1534 | whatever the others do meanwhile, a `try_get` that returns null met an empty list during the call |
| `FreeList.WordOperationsAreExact` | lightning/moodycamel/concurrentqueue.h:1560-1566 | with fewer than 2^31 - 2 threads the pair of bit and count behaves as the 32-bit word: additions, subtractions and tests |
| `Tickets.Preserved` | lightning/moodycamel/concurrentqueue.h:2571-2636 | every atomic step of the ticket protocol keeps counters, ticket sets, threads and indices consistent |
| `Tickets.PassedAtMostTail` | lightning/moodycamel/concurrentqueue.h:1977-2067 | the cardinality argument of the comments: consumers past the second check and elements taken are never more than elements enqueued |
| `Tickets.ClaimsAreSafe` | lightning/moodycamel/concurrentqueue.h:2571-2582 | a consumer past the second check takes an index strictly below `tailIndex` that nobody else owns |
| `Tickets.TicketConservation` | lightning/moodycamel/concurrentqueue.h:2571-2636 | at all times the optimistic count is head plus overcommit plus tickets in flight, and head is at most tail |
| `Tickets.LoneDequeue` | lightning/moodycamel/concurrentqueue.h:2571-2639 | a `dequeue` that runs alone fails, changing nothing, exactly when there are no more unclaimed elements than tickets in flight, and otherwise claims the oldest; with no ticket in flight it fails exactly on an empty sub-queue |
| `Tickets.RefusedMeansMatched` | lightning/moodycamel/concurrentqueue.h:2571-2582 | whatever the others do meanwhile, a `dequeue` refuses only when all elements unclaimed as it began are matched by tickets of others, in flight then or taken until it looked |
| `Tickets.OneConsumerMissesNothing` | lightning/moodycamel/concurrentqueue.h:2571-2582 | with one consumer a `dequeue` refuses only if the sub-queue was empty as it began |
| `Tickets.MissesNeedTwo` | lightning/moodycamel/concurrentqueue.h:2571-2582 | there is a run in which a `dequeue` refuses although there was an unclaimed element as it began if and only if there are two consumers or more |
| `Tickets.AnElementMayBeMissed` | lightning/moodycamel/concurrentqueue.h:2571-2639 | a run of any two consumers in which one, running alone, is refused although there is an element that nobody has claimed |
| `SubQueue.Preserved` | lightning/moodycamel/concurrentqueue.h:2507-2639 | every step of producer, consumers and other users of the pools keeps blocks, index entries and elements consistent |
| `SubQueue.EachElementMovesOnce` | lightning/moodycamel/concurrentqueue.h:2583-2618 | a consumer moves the element of its own index, which is there, constructed, unmoved, and the one enqueued with that index |
| `SubQueue.LookupFindsTheBlock` | lightning/moodycamel/concurrentqueue.h:2584-2589 | from its claim to its release a consumer's index leads to the block that holds its element |
| `SubQueue.ReleaseIsSafe` | lightning/moodycamel/concurrentqueue.h:1617-1631 | a block is given back only by the consumer that emptied its 32nd slot, when nobody uses it and it is in no container |
| `SubQueue.CountNeverOverflows` | lightning/moodycamel/concurrentqueue.h:1617-1631 | the emptying count is the number of emptied slots, and the step that completes it is unique |
| `SubQueue.BlocksAreConserved` | lightning/moodycamel/concurrentqueue.h:3076-3134 | every block of the initial pool is at every time in exactly one of: unissued, free list, index, producer's hand, consumer's hand, elsewhere |
| `SubQueue.QuiescentContents` | lightning/moodycamel/concurrentqueue.h:2507-2639 | with no consumer at work, exactly the elements below `headIndex` were moved out, each unchanged, and blocks remain exactly for what remains |
| `SubQueueCalls.ClaimedElementIsDelivered` | lightning/moodycamel/concurrentqueue.h:2583-2628 | whatever others do in between, six steps of a consumer that owns an index are enough: then the element enqueued there has been moved out, destroyed and counted |
| `SubQueueCalls.EnqueuePublishesUnlessRefused` | lightning/moodycamel/concurrentqueue.h:2507-2568 | however others interfere, an enqueue that has ended published exactly its element, unless it needed a block and was given no index entry, or found the pool exhausted and the free list empty and got no memory |
| `SubQueueCalls.EnqueueTakesNineSteps` | lightning/moodycamel/concurrentqueue.h:2507-2568 | nine steps of the producer are enough for an enqueue to end, whatever others do |
| `BlockIndex.AdvanceSound` | lightning/moodycamel/concurrentqueue.h:2921-2940 | both stores of an insertion, the key and the tail, keep all headers coherent |
| `BlockIndex.KeyedSound` | lightning/moodycamel/concurrentqueue.h:2932-2932 | between the two stores, with the key in place and the tail not yet moved, all headers are coherent too |
| `BlockIndex.RewindSound` | lightning/moodycamel/concurrentqueue.h:2955-2959 | rewinding the tail keeps all headers coherent |
| `BlockIndex.GrowSound` | lightning/moodycamel/concurrentqueue.h:2986-3028 | publishing a header of twice the capacity keeps all headers, old and new, coherent |
| `BlockIndex.FullMeansExact` | lightning/moodycamel/concurrentqueue.h:2921-2945 | a full index holds the entries of the last `capacity` blocks in order, each with its own key |
| `BlockIndex.GrowBlocks` | lightning/moodycamel/concurrentqueue.h:2986-3028 | growing changes no block's entry |
| `BlockIndex.AnyTailWillDo` | lightning/moodycamel/concurrentqueue.h:2968-2984 | whichever slot is taken for the tail, however stale, the computed slot is that of the block, for negative offsets too |
| `BlockIndex.TailKeyIsValid` | lightning/moodycamel/concurrentqueue.h:2968-2984 | while a block is in use the key at the tail of any published header is valid |
| `BlockIndex.LookupSurvivesInterleaving` | lightning/moodycamel/concurrentqueue.h:2921-3028 | after any run of stores of keys, tails and values, reuses, rewinds and growths, through any header loaded before, with tail, key and block each loaded later than the one before, a lookup finds the block that is in use throughout |
| `IndexedQueue.StepMirrors` | lightning/moodycamel/concurrentqueue.h:2507-2628 | each step of the sub-queue is a run of operations on the circular index, possible one after the other, after which the index again holds exactly the blocks that the sub-queue has |
| `IndexedQueue.EveryStateIsMirrored` | lightning/moodycamel/concurrentqueue.h:2507-2628 | in every run of the sub-queue from the beginning, the index holds exactly its blocks, and the counter of the next block is that of the tail |
| `IndexedQueue.LookupInTheQueue` | lightning/moodycamel/concurrentqueue.h:2584-2588 | for a claimed element that is not emptied, header, tail, key and block, loaded at any later and later points between operations of a run, lead to its block |
| `IndexedQueue.LookupIsLocated` | lightning/moodycamel/concurrentqueue.h:2582-2588 | in every run the lookup of a consumer through the circular index yields the block with which the sub-queue goes on |
| `ImplicitProducer.Index.InsertEntry` | lightning/moodycamel/concurrentqueue.h:2921-2953 | an entry for the next block is found or made, or nothing changes; it fails exactly without a header, or when full and memory fails |
| `ImplicitProducer.Index.NewBlockIndex` | lightning/moodycamel/concurrentqueue.h:2986-3028 | the copying loop and the stores publish exactly the grown table |
| `ImplicitProducer.Index.CopyEntries` | lightning/moodycamel/concurrentqueue.h:3005-3013 | the loop copies every entry once, oldest first |
| `ImplicitProducer.Index.EntryFor` | lightning/moodycamel/concurrentqueue.h:2961-2984 | the lookup yields the entry of the block with that base |
| `ImplicitProducer.Inserted` | lightning/moodycamel/concurrentqueue.h:2921-2953 | inserting an entry moves no block in use and gives the entry the next block's key |
| `ImplicitProducer.Producer.RequisitionBlock` | lightning/moodycamel/concurrentqueue.h:3114-3133 | the next block of the pool while there is one; else one of the free list, which loses it, if that is not empty; else a block never born before, if allocation is allowed and memory there; none exactly when none of the three has one |
| `ImplicitProducer.Producer.Enqueue` | lightning/moodycamel/concurrentqueue.h:2507-2568 | on success the contents are the old ones and the element; on failure contents, tail block, held blocks and the block mapping are as before; it succeeds inside a block; where a new block is needed it succeeds if the index, once allocated, has room and pool or free list has a block, whatever the heap does, or if there is memory for what is missing, and without permission to allocate only then |
| `ImplicitProducer.Producer.EnqueueBulk` | lightning/moodycamel/concurrentqueue.h:2646-2794 | all or nothing: on success the contents are the old ones followed by exactly the items; on failure everything is restored and every acquired block is given back; it succeeds if no block is needed, or if the index, once allocated, has room and pool and free list have blocks for all that are needed, whatever the heap does, or if there is memory for what is missing, and without permission to allocate only then |
| `ImplicitProducer.Producer.AllocateBlocks` | lightning/moodycamel/concurrentqueue.h:2659-2722 | either a chain of exactly the blocks needed, in the index and linked in order, or the state before, with the same condition for success |
| `ImplicitProducer.Producer.RollBack` | lightning/moodycamel/concurrentqueue.h:2682-2699 | the rollback restores the tail of the index, the block mapping, the pools and the tail block |
| `ImplicitProducer.Producer.Fill` | lightning/moodycamel/concurrentqueue.h:2724-2790 | the nested loops put each item in its slot, block by block, and stop at the last block |
| `ImplicitProducer.UndoneStep` | lightning/moodycamel/concurrentqueue.h:2690-2694 | in the middle of a rollback the key at the tail is valid, and one more block leaves the index |
| `ImplicitProducer.UndoneSettled` | lightning/moodycamel/concurrentqueue.h:2690-2694 | after the rollback no block in use is newer than the tail, and every block is where it was |
| `ImplicitProducer.ContentsGrow` | lightning/moodycamel/concurrentqueue.h:2507-2568 | publishing elements from the tail on appends exactly them to the contents |
| `TryDequeue.ConcurrentQueue.Dequeue` | lightning/moodycamel/concurrentqueue.h:2571-2639 | the loads, checks and additions of `dequeue` with anything of others in between: it fails only when what was there is matched by tickets of others, as the only consumer only on an empty sub-queue, and undisturbed exactly when no more elements are unclaimed than tickets are in flight |
| `TryDequeue.ConcurrentQueue.SizeApprox` | lightning/moodycamel/concurrentqueue.h:1757-1762 | a size of 0 is returned only when what was there is matched by tickets of others, and undisturbed the size is exact |
| `TryDequeue.ConcurrentQueue.Score` | lightning/moodycamel/concurrentqueue.h:1147-1163 | the scoring loop finds undisturbed the first of the fullest sub-queues up to the third that is not empty, and none exactly when all are empty; disturbed, none only when all were matched by tickets of others |
| `TryDequeue.ConcurrentQueue.TryDequeue` | lightning/moodycamel/concurrentqueue.h:1145-1176 | false is returned only when, of every sub-queue, all that was there at some time during the call was matched by tickets of others; to a single consumer only when all were empty as the call began; undisturbed exactly when no sub-queue has more elements than tickets in flight, and otherwise the oldest element of the best one, or of the first that can be had, is taken and nothing else |
| `ProducerHash.Probe` | lightning/moodycamel/concurrentqueue.h:3431-3472 | the probe loop ends, and finds the thread's entry exactly when the table has one |
| `ProducerHash.FindRoom` | lightning/moodycamel/concurrentqueue.h:3448-3462 | the insertion loop ends at the first slot that is free or a tombstone |
| `ProducerHash.NotThere` | lightning/moodycamel/concurrentqueue.h:3467-3471 | a probe that meets a free slot has missed no entry |
| `ProducerHash.EntryAdded` | lightning/moodycamel/concurrentqueue.h:3530-3547 | an entry in the first usable slot keeps every other thread's probe path, and one slot stays free |
| `ProducerHash.EntryRemoved` | lightning/moodycamel/concurrentqueue.h:3571-3579 | a tombstone keeps every other thread's probe path |
| `ProducerHash.LiveFits` | lightning/moodycamel/concurrentqueue.h:3441-3447 | live threads are no more than the used slots of the newest table and the threads still to be moved there |
| `ProducerHash.ImplicitProducers.GetOrAdd` | lightning/moodycamel/concurrentqueue.h:3408-3553 | the chain of tables is a map from live threads to producers: a known thread gets its own; a new one an inactive one if there is any, and a new one only otherwise, which no live thread has; it fails, changing nothing, exactly when the table must grow and cannot, or nothing is inactive and memory for a producer fails |
| `ProducerHash.ImplicitProducers.Lookup` | lightning/moodycamel/concurrentqueue.h:3429-3474 | all tables are searched, and an entry found in an older one is moved; a thread is found exactly when it is live |
| `ProducerHash.ImplicitProducers.Grow` | lightning/moodycamel/concurrentqueue.h:3478-3510 | the new table is large enough for the count, and reserves room for every live thread |
| `ProducerHash.ImplicitProducers.Insert` | lightning/moodycamel/concurrentqueue.h:3528-3549 | the count covers used slots and threads to be moved, whether a free slot or a tombstone is taken |
| `ProducerHash.ImplicitProducers.ThreadExited` | lightning/moodycamel/concurrentqueue.h:3556-3584 | the thread's entries are gone from every table, its producer can be reused, and nobody else is affected |
| `Semaphore.EffectBalances` | lightning/moodycamel/lightweightsemaphore.h:290-430 | each atomic step keeps the account of waiters and the account of permits exact |
| `Semaphore.Preserved` | lightning/moodycamel/lightweightsemaphore.h:290-430 | every step of every call keeps both accounts |
| `Semaphore.AccountsAreExact` | lightning/moodycamel/lightweightsemaphore.h:290-430 | after any run: slow waiters are max(-count, 0) plus tokens plus posts owed, and permits granted are initial plus signalled minus max(count, 0), tokens and owed |
| `Semaphore.NeverOverIssued` | lightning/moodycamel/lightweightsemaphore.h:290-430 | permits granted never exceed those there at first plus those signalled, and tokens on the way never exceed waiters |
| `Semaphore.NothingIsLost` | lightning/moodycamel/lightweightsemaphore.h:369-430 | with no call in progress the count is exactly what was never handed out |
| `Semaphore.NoWakeUpIsLost` | lightning/moodycamel/lightweightsemaphore.h:290-324 | while the count is not negative every slow waiter has a token or a post coming; one with neither waits because all permits are taken |
| `Semaphore.GivingUpIsExact` | lightning/moodycamel/lightweightsemaphore.h:311-323 | a waiter that times out takes back its decrement exactly, and only while nobody has signalled it |
| `Semaphore.LoneTry` | lightning/moodycamel/lightweightsemaphore.h:369-399 | a `tryWait` or `tryWaitMany` that runs alone takes min(max(count, 0), max) permits |
| `Semaphore.LoneWait` | lightning/moodycamel/lightweightsemaphore.h:380-414 | a `wait` or `waitMany` that runs alone and finds a permit returns at once with as many as there are, up to its maximum |
| `Semaphore.LoneWaitSleeps` | lightning/moodycamel/lightweightsemaphore.h:290-312 | without a permit it spins as often as it may, and then has decremented the counter once and sleeps, or takes it back if its time is up |
| `Semaphore.LoneWakeUp` | lightning/moodycamel/lightweightsemaphore.h:304-366 | a sleeper that is given a token and runs alone returns with that permit, and with up to `max - 1` more if they are there |
| `Semaphore.LoneTimeOut` | lightning/moodycamel/lightweightsemaphore.h:311-323 | a waiter whose time is up, alone, takes its decrement back and returns with nothing while the counter is negative, and otherwise takes the token posted for it |
| `Semaphore.LoneSignal` | lightning/moodycamel/lightweightsemaphore.h:421-430 | a `signal` that runs alone raises the counter and posts exactly one token for each waiter it reaches |
| `Semaphore.RefusedMeansNone` | lightning/moodycamel/lightweightsemaphore.h:369-399 | whatever the others do meanwhile, a call for at least one permit gets none only if there was none at some time during the call |
| `Semaphore.WaitersWait` | lightning/moodycamel/lightweightsemaphore.h:290-366 | a waiter comes back with nothing only when the wait of the kernel failed or its time was up |
| `BlockingQueue.ItemsAreAccountedFor` | lightning/moodycamel/blockingconcurrentqueue.h:137-144 | items in the inner queue are available permits plus permits granted and not redeemed plus enqueues not signalled, in every reachable state |
| `BlockingQueue.RetryLoopHasItems` | lightning/moodycamel/blockingconcurrentqueue.h:298-307 | a consumer in the retry loop has items owed to it, over and above what other consumers are owed |
| `BlockingQueue.SleepersMissNothing` | lightning/moodycamel/blockingconcurrentqueue.h:365-373 | a consumer sleeps with no wake-up coming only while every signalled item belongs to another consumer |
| `BlockingQueue.CounterIsItemsAtRest` | lightning/moodycamel/blockingconcurrentqueue.h:137-144 | with no call in progress the counter is the number of items |
| `BlockingQueue.RefusedMeansNone` | lightning/moodycamel/blockingconcurrentqueue.h:298-307 | whatever the others do meanwhile, `try_dequeue` is refused only if at some time during the call the semaphore had no permit |
| `BlockingQueue.LoneTryDequeue` | lightning/moodycamel/blockingconcurrentqueue.h:298-307 | with no other call in progress it gets a permit for as many items as there are, up to its maximum, may take all of them, and is refused exactly when the queue is empty |
| `Executor.Preserved` | lightning/MPMCTaskExecutor.hpp:53-84 | every step of client and workers keeps the queue, the tasks and the shutdown consistent |
| `Executor.StopRunsEverything` | lightning/MPMCTaskExecutor.hpp:53-69 | when `stop_all` returns, every task added before has run exactly once to its end, none added later has started, every worker has exited and no null is left |
| `Executor.NoTaskRunsTwice` | lightning/MPMCTaskExecutor.hpp:71-84 | tasks start at most once, and are claimed in the order in which they were added |
| `Executor.OrderIsKeptByOneWorker` | lightning/MPMCTaskExecutor.hpp:71-84 | in every run of one client tasks start in the order in which they were added, a task only when all before it have been started, if and only if there are fewer than two workers |
| `Executor.StartsMayOvertake` | lightning/MPMCTaskExecutor.hpp:71-84 | with any two workers a run in which a task that was added later starts first |
| `Executor.ShutdownNeverStarves` | lightning/MPMCTaskExecutor.hpp:58-69 | during the shutdown a worker that waits always finds something to take |
| `Executor.ShutdownEnds` | lightning/MPMCTaskExecutor.hpp:53-84 | however the steps interleave, `stop_all` has returned after a bounded number of them: none is stuck before, and each uses up the bound |
| `Executor.IdleMeansDone` | lightning/MPMCTaskExecutor.hpp:71-84 | without a shutdown, when no worker can take a step, every task added so far has run to its end, once |
| `Executor.AnotherClientsTaskMayBeLost` | lightning/MPMCTaskExecutor.hpp:58-69 | for any two clients and any number of workers, a run in which a task of the one is never run when the other shuts down, so that one client for all calls is needed |
| `Server.Preserved` | NonblockingClientManagerTask.cpp:22-158 | every step of acceptor, manager and workers keeps ownership, descriptors, wake-ups and shutdown consistent |
| `Server.OwnedExactlyOnce` | NonblockingClientManagerTask.cpp:89-158 | an accepted client whose descriptor is open is in exactly one of acceptor's hand, new queue, connections, task queue, worker, return queue; a closed one is in none |
| `Server.ArmedMeansConnected` | NonblockingClientManagerTask.cpp:81-119 | an armed descriptor belongs to a connection whose client is nowhere else, so never with a worker |
| `Server.DrainsNeverCollide` | NonblockingClientManagerTask.cpp:89-119 | both `emplace` calls store their client, and both calls of `epoll_ctl` find what they need |
| `Server.EventsFindTheirConnection` | NonblockingClientManagerTask.cpp:121-124 | the lookup at the head of `handleClientEvent` succeeds for every client event |
| `Server.ConnectionsAreWatched` | NonblockingClientManagerTask.cpp:121-158 | until the loop ends every connection is either armed or has its event pending, not both |
| `Server.NoWakeUpIsLost` | NonblockingClientManagerTask.cpp:46-62 | for both channels an item in the queue means a byte in the pipe, a publisher that has not written yet, or a drain that will look again, even when full pipes drop bytes |
| `Server.NewClientsAreDrained` | NonblockingClientManagerTask.cpp:48-54 | at the read that returns 0 the new-client queue is empty and the acceptor has published its last client |
| `Server.NewClientIsWatched` | NonblockingClientManagerTask.cpp:89-101 | a client taken out of the new-client queue is connected, registered and armed from then on |
| `Server.ReturnedAsTold` | NonblockingClientManagerTask.cpp:103-119 | a client taken out of the return queue is watched again if it is to be kept alive, and its descriptor is closed and known nowhere if not |
| `Server.DecisionIsCarriedOut` | ClientRequestHandler.cpp:81-86 | from the publication of a worker's decision to its consequence: whatever happens in between, the manager that takes the client out goes by it |
| `Server.EventIsHandled` | NonblockingClientManagerTask.cpp:121-158 | the event of a client: a failure closes it, an incomplete header is waited for with the descriptor armed, a complete one takes it out of the connections and puts it last among the tasks |
| `Server.NoWriteAfterClose` | ClientRequestHandler.cpp:81-86 | no worker writes to the return pipe, and the acceptor not to its own, after it is closed |
| `Server.WhatIsLeftAtTheEnd` | HttpServer.cpp:51-69 | when `start` returns no client is on its way, and the descriptors still open are those of the connections and of clients nobody took from the return queue |
| `Server.AConnectionMayBeLeft` | HttpServer.cpp:51-69 | from every initial state, for any client and descriptor, a run in which `start` returns with the descriptor of a connection open |
| `Server.AReturnedClientMayBeLeft` | HttpServer.cpp:51-69 | and one in which it returns with the descriptor of a client in the return queue open, whether it was to be kept alive or not |
| `ServerProgress.NeverStuck` | HttpServer.cpp:51-69 | in every reachable state in which `start` has not returned and the acceptor is not waiting for a client, some thread can take a step |
| `ServerProgress.StartReturns` | HttpServer.cpp:60-69 | once the manager has left its loop, however the steps interleave, `start` has returned after a number of steps that the tasks and the workers determine |
| `Strings.ReplaceFirst` | lightning/uriMapper/Strings.hpp:38-59 | the loop computes one round: the first occurrences replaced, one for each replacer, or none when there are too few |
| `Strings.FormatEx` | lightning/uriMapper/Strings.hpp:35-65 | the recursion returns what the rounds determine, and ends whenever they settle |
| `Strings.FormattingSettles` | lightning/uriMapper/Strings.hpp:35-65 | with inert replacers the number of separators bounds the number of rounds |
| `Strings.FormattedMeans` | lightning/uriMapper/Strings.hpp:12-65 | the result is none with fewer separators than replacers, and else the pieces glued by the replacers in turn while all of them fit, and by the separator after that |
| `Strings.GlueIsCyclic` | lightning/uriMapper/Strings.hpp:12-65 | place i of the glue is replacer i modulo k below k times floor(n / k), and the separator from there on |
| `Strings.RoundSplits` | lightning/uriMapper/Strings.hpp:45-59 | a round succeeds exactly with enough separators, and leaves exactly the remaining pieces; self-overlapping separators included |
| `Strings.NeverSettles` | lightning/uriMapper/Strings.hpp:61-62 | when the replacers bring at least as many separators as there are replacers, no number of rounds is enough exactly when the first round finds enough separators |
| `Strings.RoundBrings` | lightning/uriMapper/Strings.hpp:45-59 | for any replacers, a round succeeds exactly with enough separators, and the result has at least those that are left and those that the replacers bring |
| `Strings.SplitJoins` | lightning/uriMapper/Strings.hpp:35-65 | the pieces joined by the separator are the string |
| `UriMapper.SanitizedPlaceholder` | Strings.cpp:7-12 | sanitising neither makes nor hides a placeholder |
| `UriMapper.ExactMatchTerminates` | UriMapper.cpp:6-19 | `createExactMatch` comes to an end if and only if the URI has no `{}` in it, and then yields the anchored literal |
| `UriMapper.CreateExactMatch` | UriMapper.cpp:6-19 | the compiled text is the sanitised literal between its anchors |
| `UriMapper.CreateWithWildcard` | UriMapper.cpp:35-43 | every separator of the sanitised URI is replaced by the group, or the URI is taken as it is when there is none |
| `UriMapper.WildcardsEmit` | Strings.cpp:14-19 | compiling a URI with wildcards emits the text of its tokens, one after the other |
| `UriMapper.EmittedParses` | UriMapper.cpp:35-43 | the text emitted for any tokens parses back to the regular expression of those tokens |
| `UriMapper.PatternMatches` | UriMapper.cpp:58-72 | the regular expression of a pattern matches the rest of an input exactly when the pattern accepts it |
| `UriMapper.CompilationPreservesMeaning` | UriMapper.cpp:6-72 | the full-match language of the compiled text is exactly the literal, or the glob in which each slash and star is a slash with text in one line, or nothing at the end; a dot, which is not sanitised, is any character within a line |
| `UriMapper.UriMapper.Add` | UriMapper.cpp:45-56 | the compiled text maps to the resolver, replacing an earlier one, and nothing else changes; a text that is no regular expression is refused |
| `UriMapper.UriMapper.Match` | UriMapper.cpp:58-72 | none is returned exactly when no registered expression matches the path up to its first NUL; otherwise one that does, with its resolver, namely the first in some order of iteration |
| `Regex.AnchorsAreImplied` | UriMapper.cpp:35-43 | anchors around an expression change nothing about which paths `regex_match` accepts |
| `UriMapper.AlwaysWins` | UriMapper.cpp:58-72 | an expression that matches is found in every order of iteration exactly when no other one matches |
| `UriMapper.LaterWins` | UriMapper.cpp:45-72 | the one added last among those that match is found in every order exactly when no two match |
| `UriMapper.EarlierMayWin` | UriMapper.cpp:45-72 | with `/a` added before `/*` an order finds `/a` for the path `/a` |
| `PlainStream.Stream.Peek` | PlainStream.cpp:88-100 | nothing is taken out, and the buffer is exactly the first bytes of what lies ahead: what it had if that is enough, and otherwise all up to the amount that `recv`, asked again and again, hands over before it fails or the stream ends |
| `PlainStream.AllIsOffered` | PlainStream.cpp:90-98 | without a failure of `recv` that is all there is, up to the amount, whatever the pieces |
| `PlainStream.OfferedBeforeFailure` | PlainStream.cpp:90-98 | with a failure it is what the pieces before the failure add up to, up to the amount |
| `PlainStream.Stream.Read` | PlainStream.cpp:10-28 | whatever `recv` answers: bytes come in order, zeros only after the end of the stream, no `recv` when the buffer suffices, and consumed, buffered and unread bytes stay one sequence; when `recv` fails nothing is returned, and the buffer and all that was received is gone |
| `PlainStream.ReadingWithoutFailure` | PlainStream.cpp:10-28 | without a failure of `recv` a `read` succeeds with all it asks for or all there is, and the end of the stream is no failure |
| `PlainStream.ReadingUpToFailure` | PlainStream.cpp:17-26 | a failure before enough has come ends it, and exactly what had come until then is gone |
| `PlainStream.WhenReadCanLose` | PlainStream.cpp:10-28 | some answers of `recv` make a `read` lose bytes if and only if the buffer does not suffice, and either is not empty, or more than one byte is asked for and there is something to come |
| `PlainStream.FirstFailureLosesTheBuffer` | PlainStream.cpp:10-28 | a buffer that is not empty and does not suffice is lost when the first `recv` fails |
| `PlainStream.Stream.ReadFromLeftover` | PlainStream.cpp:102-116 | the front of the buffer is taken and the rest stays |
| `PlainStream.Stream.ReadUntilToken` | PlainStream.cpp:38-69 | whatever the pieces, what is returned is all that comes up to the first token, or everything without one, and what was received behind it, no more than a chunk, goes to the end of the buffer; it fails exactly when its last `recv` does; the stream keeps its order if and only if what is taken and what was in the buffer commute |
| `PlainStream.OrderCanBeLost` | PlainStream.cpp:38-69 | for every token, a buffer and bytes to come that change places |
| `PlainStream.Stream.InjectBuffer` | PlainStream.cpp:83-86 | the data is put in front of the buffer |
| `PlainStream.NextHeader` | NonblockingClientManagerTask.cpp:135-147 | there is a header exactly when the first empty line ends within what `peek` reaches, so, when `recv` does not fail, within 65536 bytes of what lies ahead, and the parser is then given exactly the bytes before it; otherwise nothing is taken out |
| `PlainStream.Connection.HandleEvent` | NonblockingClientManagerTask.cpp:135-158 | after any number of events, whatever the chunking, what was dispatched is a sequence of requests cut at the first empty line of what follows the one before; an event dispatches the next one exactly when its first empty line ends within what `peek` reaches |
| `PlainStream.Connection.ReadBody` | HttpRequest.cpp:158-174 | reading a body takes the next bytes of the stream, all that are asked for or all there are unless `recv` fails, and keeps all later requests intact |
| `PlainStream.FramingIsUnique` | NonblockingClientManagerTask.cpp:135-147 | two ways in which the same bytes came to be cut agree on every request that both have reached |
| `PlainStream.OneMoreFollows` | NonblockingClientManagerTask.cpp:135-147 | one more header cut from what lies ahead extends the sequence of requests |
| `HttpRequest.GetNextToken` | HttpRequest.cpp:40-52 | the token up to the delimiter or the end, and an index that moves on with every token that is not empty |
| `HttpRequest.ParseRequestLine` | HttpRequest.cpp:54-68 | the first three tokens of the line |
| `HttpRequest.TokenMeans` | HttpRequest.cpp:40-52 | a token is what precedes the first delimiter, or the whole text when there is none |
| `HttpRequest.KeyAndValueMeans` | HttpRequest.cpp:77-84 | a header line is cut at its first `: `; one without it is all key, with an empty value |
| `HttpRequest.ParseHeaders` | HttpRequest.cpp:70-87 | the loop ends on every input, and of several headers with one key the first is kept |
| `HttpRequest.FirstWinsMeans` | HttpRequest.cpp:83-83 | a lookup finds exactly the keys that occur, with the value of the first occurrence |
| `HttpRequest.CreateRequest` | HttpRequest.cpp:89-105 | parsing succeeds exactly when a line end occurs |
| `HttpRequest.RoundTrip` | HttpRequest.cpp:40-105 | a printed request line with one or more headers is parsed back to it, with the first of duplicate keys |
| `HttpRequest.RequestsWithoutHeadersAreRejected` | HttpRequest.cpp:91-96 | a printed request with no header has no line end and is rejected |
| `HttpRequest.WireRoundTrip` | HttpRequest.cpp:89-110 | what the manager cuts out of a printed request, an empty line and anything after it, is parsed back to that request if it has a header, and rejected if it has none |

## Left out

- Memory orders, fences and sanitizer attributes: steps are sequentially consistent. The correctness of
  the weaker orders the source asks for is not modelled.
- Counters are unbounded in the step systems. The comparisons agree with those of 64-bit words as long as
  the counters compared are less than 2^63 apart (`MachineArithmetic`); that a run keeps them so close is
  assumed.
- `ExplicitProducer`, tokens, consumer rotation and `dequeue_bulk`: the framework creates no tokens and
  dequeues one element at a time.
- Exceptions of element constructors and assignments, and the branches that undo them.
- `MAX_SUBQUEUE_SIZE`: the default, no limit, is modelled.
- Blocks, index entries and hash tables are values in fields (`seq`, `map`) with numbers for addresses, not
  heap objects; headers are a sequence in the order of their publication. Aliasing through stale pointers is
  therefore modelled by stale numbers.
- Masking with a power of two minus one is modelled as a remainder, which it is by
  `MachineArithmetic.MaskIsRemainder`.
- `FreeList.Preserved`: the compare-and-swaps that the source allows to fail spuriously fail only when the
  value differs; a spurious failure has the effect of a step that is modelled already.
- `SubQueue.Preserved`: the index is a map from bases to blocks there. `IndexedQueue` shows that the circular
  index of `BlockIndex` follows it step by step; the steps of the free list are the subject of `FreeList`.
- `ImplicitProducer.Producer.Enqueue`: one call at a time. What consumers may do between two steps of the
  producer is the subject of `SubQueue.Preserved` and `IndexedQueue.LookupIsLocated`.
- `ProducerHash.ImplicitProducers.GetOrAdd`: one call at a time, so that the branch in which another thread
  is resizing is not reached.
- `TryDequeue.ConcurrentQueue.TryDequeue`: producers added during the call are not seen by it.
- `Semaphore.Preserved`: kernel waits may fail at any time, which covers time-outs and errors; the cast of
  the number of posts to `int` is not modelled.
- `BlockingQueue.ItemsAreAccountedFor`: a call of the inner queue is one step; that an item which is there
  is found in the end is not claimed.
- `Executor.StopRunsEverything`: tasks do not throw.
- `Server.Preserved`: plain clients; `accept`, `epoll_ctl` and `close` succeed when their arguments allow it;
  a fatal error of `epoll_wait` and exceptions while an error response is written are left out.
- `PlainStream.Connection.ReadBody`: a body shorter than its length, or `recv` without data, leaves the
  request with what was read; the error response is not modelled.
- Liveness: calls are shown to end after a bounded number of their own steps, or alone; nothing is claimed
  about the fairness of the scheduler. A keep-alive connection whose next request is already buffered waits for the next
  event as in the code.
- `SSLStream`, `SSLServer`, `SSLClient`, certificates and timeouts of sockets.
- `UriMapper.CompilationPreservesMeaning`: for URIs without the characters `+ ( ) | ^ $ \ { }`, which are not
  sanitised and mean something in a regular expression, and, when there is a wildcard, with every star after
  a slash. For others the text is what it is as a regular expression.
- `UriMapper.UriMapper.Add`: for URIs without `\`, `{` and `}`, since the model's parser does not have the
  escapes of letters and the counted quantifiers of the standard library.
- `Strings.FormattedMeans`: for replacers that are not empty, do not contain the separator, and begin and end
  with characters outside it. For others only `Strings.RoundBrings` and
  `Strings.NeverSettles` are stated.
- `computeUriParameters`, response output, static files, builders, middlewares and the setters of the server.
