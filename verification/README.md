# Verified model of the chat server

A Dafny model of the concurrent and stateful core of a C++ chat application, with proofs:

* the lock-free ring buffer (`include/Atomic_queue/atomic_queue.h`): any number of threads, one shared-memory
  access per step, stale loads, spurious failures of the weak compare-and-swap, blocking and non-blocking
  operations, both slot protocols, unbounded and 32-bit counters;
* its index arithmetic, the same ring behind a mutex, and the ticket lock;
* the server: slot table, repeated unicast, load balancer, wake-ups between threads, the handshake with a client;
* the wire format of messages.

## How it is organised

| file | contents |
|---|---|
| `Wrappers.dfy`, `Resources.dfy` | optional values; message actions, their names, and the states of a client record |
| `Bits.dfy`, `IndexMap.dfy` | bitwise operators on numbers; rounding to powers of two, sizing, the index shuffle |
| `AtomicQueue.dfy` | the lock-free ring as a machine of interleaved atomic accesses |
| `Answers.dfy` | what each of its calls answers, seen from outside |
| `Ledger.dfy`, `Conservation.dfy`, `Draining.dfy` | its per-slot ledger and exclusion, conservation of values, progress |
| `Word32.dfy`, `RealDraining.dfy` | the machine with 32-bit counters as the image of the one with unbounded counters |
| `Spsc.dfy`, `Overtaking.dfy`, `Ordering.dfy` | order with one thread per side, disorder with more, the exact condition |
| `NilProtocol.dfy`, `NilSafety.dfy` | the sentinel protocol: refined by the four-state slots, and safe by itself |
| `MutexRing.dfy`, `TicketLock.dfy` | the ring behind a mutex, as a class; the ticket lock |
| `ServerMessage.dfy` | the wire format |
| `ClientTable.dfy`, `ChatServer.dfy` | the slot table on values, and the classes that update it in place |
| `LoadBalancer.dfy`, `Seating.dfy` | the listener's choice of workers, by itself and together with the slot table |
| `Wakeups.dfy`, `Broadcast.dfy` | event counters between threads; what the listener sends on to everyone |
| `Handshake.dfy`, `Dialogue.dfy` | one client and its worker in every interleaving; and word for word what they say |
| `WorkerLoop.dfy` | the whole server: listener, table, load balancer, all workers with their lists of clients |
| `Accounts.dfy`, `Reports.dfy` | its books (descriptors, worker numbers, counts); word for word what is pushed and told |

Code that many threads interleave in (the lock-free ring, the ticket lock, event counters, the two ends of the
handshake) is a step machine, because what matters happens between its accesses. Code that one thread runs to its
end, or that a mutex serialises, is a class or a method with loops, tied by its postcondition to a function about
which the properties are proved. `K` workers, `C` clients per worker, queue capacities and the size of the slot
table are parameters everywhere.

A client's send queue has one producer, the listener, and one consumer, the client's worker: `Spsc` shows that such a
ring is a bounded first-in first-out queue, and the classes above it use a bounded sequence.

Atomic accesses are taken to be sequentially consistent; the machine records, besides what the code stores, only
a trace that no step reads. The state of the 32-bit machine is the same type with `wrap` set.

## What the code does that its documentation does not say

* A run-time queue asked for more than 2^30 and at most 2^31 slots gets 2^31 of them and then refuses every
  `try_push`: its capacity is negative as an `int` (`Word32.CapacityLimit`, `Word32.SizeAboveLimit`).
* The mutex ring of a size that does not divide 2^32 stops being first-in first-out at the counter's wrap
  (`MutexRing.FifoIffSizeDivides`); sizes rounded up to powers of two are never affected.
* Values come out in the order of their tickets exactly when nobody pushes, or nobody pops, or at most one thread
  pushes, and at most one pops or there is a single slot (`Ordering.InOrderIff`): a second producer can overtake a push
  a whole lap older on the same slot, and a second consumer can return the later ticket's value first. With one
  producer and one consumer the order holds for every size, whether or not it divides 2^32
  (`Spsc.PoppedIsPrefixOfPushed`): unlike in the mutex ring, a slot that is taken makes the producer wait.
* `unlock()` without a ticket advances `next_` by two and passes over a waiting thread
  (`TicketLock.SkippedThreadStarves`), or the next one to arrive (`TicketLock.NextArrivalStarves`); `LockGuard` never calls it.
* The workers are documented as balanced between a minimum and a maximum. The load balancer is also called for a
  connection that found the slot table full and was closed. With K * C slots its counts add up to the clients
  connected exactly as long as every such call meets a ceiling equal to the limit, and no call overwrites a running
  worker; then no worker exceeds the limit and nobody with a slot is refused (`Seating.CountsMatchIffSeated`). The
  first such call on a fresh server is refused and leaves the ceiling one too high, so the second counts a client that
  does not exist (`Seating.NobodyIsCounted`). When everyone has left, the ceiling restarts at 0 and catches
  up with call K + 2, except with one worker or a limit of one; in these two cases, and no others, call K * C + 1
  counts a client above the limit (`LoadBalancer.LimitExceededAfterEmptying`). For the load balancer alone `LoadBalancer.LimitKeptIff` says
  exactly when the limit is kept.
* A call overwrites a running worker, and its clients drop out of the counts, exactly when the slot numbered by the
  count of running workers is taken, not all workers are launched, and no running worker has room under the ceiling
  (`LoadBalancer.CountsAddUpIff`); that takes a lower-numbered worker emptying first, but does not always follow from it.
* Two pushes announced before one read of the event counter leave a message stranded
  (`Wakeups.StrandedIffReadsCoalesce`), the listener's own message at shutdown is never announced, a worker that pops
  a client meant for another drops it, and one that ends before it hears of a client leaves it on the queue
  (`Wakeups.EveryClientServedIff`).
* A client that reads the server's confirmation before its other thread has set `init_req` drops it, and the
  handshake never finishes (`Handshake.ConfirmationDecides`, `Handshake.TheRaceStalls`).

* A line typed before the client has acted upon the confirmation, and sent after it, is pushed without an id
  (`Dialogue.AnEarlyLineHasNoId`). The listener cannot read the empty id, and its loop ends for good
  (`Reports.NoIdStopsTheListener`).

## Model

| member | source | states |
|---|---|---|
| IndexMap.RoundUp32Correct | include/Atomic_queue/atomic_queue.h:89-111 | the or-and-shift fold returns the least power of two at or above the request for requests 1 to 2^31, and 0 for all other 32-bit requests |
| IndexMap.RoundUp64Correct | include/Atomic_queue/atomic_queue.h:113-115 | the same on 64 bits, up to 2^63 |
| IndexMap.BitOfRemap | include/Atomic_queue/atomic_queue.h:58-68 | the xor form moves every bit of the index to its place under "swap the low b bits with the next b" |
| IndexMap.RemapSwapsDigits | include/Atomic_queue/atomic_queue.h:52-63 | the two low base-2^b digits trade places and the rest of the index stays |
| IndexMap.RemapIsInvolution | include/Atomic_queue/atomic_queue.h:58-68 | shuffling twice gives the index back |
| IndexMap.RemapPermutes | include/Atomic_queue/atomic_queue.h:40-68 | for every power of two of at least 2^(2b) the shuffle stays below it and is its own inverse there |
| IndexMap.RemapSpreadsCacheLine | include/Atomic_queue/atomic_queue.h:52-63 | two indices of one cache line always end up in different cache lines |
| IndexMap.MaskIsRemainder | include/Atomic_queue/atomic_queue.h:546-555 | masking a ticket with size - 1 is its remainder, for every power of two |
| IndexMap.DynamicSizeIsSound | include/Atomic_queue/atomic_queue.h:575-577 | whatever is requested, the constructor's size is a power of two for which the mask is the remainder and the shuffle a permutation; it has room for the request exactly up to 2^31 |
| IndexMap.StaticSizeIsSound | include/Atomic_queue/atomic_queue.h:367-368 | the compile-time size and the shuffle chosen for it always fit together; with contention minimised the size is the least power of two, and 0 exactly for requests of 0 or above 2^31 |
| IndexMap.PlacementIsOneToOne | include/Atomic_queue/atomic_queue.h:70-73 | such a placement sends different remainders to different slots inside the array |
| Ledger.SlotsGoRound | include/Atomic_queue/atomic_queue.h:222-339 | one access moves one counter on by one, or one slot on in the cycle EMPTY, STORING, STORED, LOADING, or changes one element whose slot is STORING or LOADING; never two of these |
| Ledger.LedgerStep | include/Atomic_queue/atomic_queue.h:225-307 | every access, by any thread, keeps each slot's books: pushes let in minus pops let in is 1 while STORING or STORED and 0 while EMPTY or LOADING, with exactly one owner in STORING and LOADING |
| Ledger.LedgerRun | include/Atomic_queue/atomic_queue.h:225-339 | so does every run, blocking operations included |
| Ledger.OwnersDiffer | include/Atomic_queue/atomic_queue.h:237-240 | two threads never own the same element in a state whose books are right |
| Ledger.ElementsAreExclusive | include/Atomic_queue/atomic_queue.h:262-265 | in every run no two threads touch one element together, and a slot is STORING or LOADING exactly while one thread owns it |
| Ledger.BoundsStep | include/Atomic_queue/atomic_queue.h:276-312 | every access of a run of try_push and try_pop keeps the counters within one capacity and every stale load on the safe side |
| Ledger.CountersStayClose | include/Atomic_queue/atomic_queue.h:285-307 | in every such run tail <= head <= tail + size, and per slot pushes lead pops by 0 or 1, by 1 exactly when a ticket in [tail, head) maps to it |
| Conservation.ValuesAreConserved | include/Atomic_queue/atomic_queue.h:225-339 | in every run of any operations, each value was handed in as often as it was refused, returned, is stored, or is carried by an operation in progress |
| Answers.EveryCallIsAnswered | include/Atomic_queue/atomic_queue.h:276-339 | in every run, of any mixture of operations, each accepted call is answered once or a thread is still in it: a push has stored its element, a try_push has stored it or refused its own value, a pop has returned a value, a try_pop has returned one or come back empty-handed; the values returned and refused are those of the answers, in order |
| Answers.BlockingPopsReturnValues | include/Atomic_queue/atomic_queue.h:314-339 | when only push and pop are called nothing is refused, the pops accepted number the values returned plus the threads in a pop, and the pushes accepted those that stored plus the threads in a push |
| Answers.PopTakesATicket | include/Atomic_queue/atomic_queue.h:328-339 | pop takes the ticket at tail_ and moves it on by one whatever head_ is, and then stands at that slot |
| Answers.PopWaitsForAPush | include/Atomic_queue/atomic_queue.h:224-246 | on a new queue a pop so takes ticket 0 and waits at its slot: as long as nobody pushes, whatever others pop, it stays there and nothing is returned |
| Draining.NeverDeadlocked | include/Atomic_queue/atomic_queue.h:225-312 | in every reachable state of a try-only run some operation in progress has an access that is not a spin |
| Draining.AdvanceDecreasesMeasure | include/Atomic_queue/atomic_queue.h:225-312 | each such access lowers the work left, retries lost to others included |
| Draining.EveryDrainEndsAtRest | include/Atomic_queue/atomic_queue.h:225-312 | once calls stop, in any schedule with spins and swaps failing by themselves, the accesses that advance a thread are at most the work left plus one per failed swap; when none is possible all operations are complete and the STORED slots are exactly those of tickets in [tail, head) |
| Draining.EveryStateDrains | include/Atomic_queue/atomic_queue.h:225-312 | and such a drain exists from every reachable state |
| Word32.StepSimulates | include/Atomic_queue/atomic_queue.h:277-312 | with 32-bit wrap-around, signed comparison and compare-and-swap on words, a timely access is the image mod 2^32 of the unbounded machine's access, for sizes up to 2^30 dividing 2^32 |
| Word32.SwapIsFaithfulIff | include/Atomic_queue/atomic_queue.h:285-288 | a compare-and-swap of head_ on words acts as one on unbounded counters exactly unless the counter moved by a non-zero multiple of 2^32 since it was loaded |
| Word32.PopSwapIsFaithfulIff | include/Atomic_queue/atomic_queue.h:304-307 | the same for the compare-and-swap of tail_ |
| Word32.RealRunIsIdealRun | include/Atomic_queue/atomic_queue.h:277-312 | a whole try-only run of the 32-bit queue is the image of the unbounded run when fewer than 2^31 - size operations fall between any load and its last use |
| Word32.RealQueueIsSafe | include/Atomic_queue/atomic_queue.h:277-312 | such a 32-bit run has exclusive elements, at most size tickets outstanding, conserved values and no deadlock |
| RealDraining.RealDrainEndsAtRest | include/Atomic_queue/atomic_queue.h:225-312 | the drain result for 32-bit counters: once calls stop in such a run, effective accesses are bounded by the work left plus the failed swaps, and at the end the STORED slots are those of the outstanding tickets counted mod 2^32 |
| Word32.RealQueueConserves | include/Atomic_queue/atomic_queue.h:276-339 | with blocking push and pop mixed in, every timely 32-bit run still has exclusive elements and conserved values |
| Word32.DynamicSizeIsWordSized | include/Atomic_queue/atomic_queue.h:575-577 | the constructor's sizes for requests up to 2^30 all meet the size condition |
| Word32.CapacityLimit | include/Atomic_queue/atomic_queue.h:280-287 | with 2^31 slots every try_push is refused; with fewer an empty queue lets it pass |
| Word32.SizeAboveLimit | include/Atomic_queue/atomic_queue.h:575-577 | the constructor chooses 2^31 slots exactly for requests above 2^30 and at most 2^31 |
| Spsc.FifoStep | include/Atomic_queue/atomic_queue.h:226-339 | with one producer and one consumer every access, in either mode, with unbounded or 32-bit counters and for any size, keeps the elements published and not returned in their slots, no two in one, and nothing else STORED |
| Spsc.PoppedIsPrefixOfPushed | include/Atomic_queue/atomic_queue.h:224-339 | in every such run, of any length and blocking operations included, the values returned are a prefix of the values accepted; the producer and the consumer may be one thread, and the size need not divide 2^32 |
| Spsc.QueueRefines | include/Atomic_queue/atomic_queue.h:276-312 | each access is one step of a bounded sequence, taking effect at the head or tail update, or at the load that refuses |
| Spsc.SpscRefinesBoundedQueue | include/Atomic_queue/atomic_queue.h:276-312 | every try-only run, with unbounded counters or with 32-bit ones and fewer than 2^31 slots, refines a bounded sequence: refused only when full, empty-handed only when empty |
| Spsc.RefinesIffSignedSize | include/Atomic_queue/atomic_queue.h:279-308 | with 32-bit counters every try-only run does so exactly when there are fewer than 2^31 slots |
| Overtaking.TwoProducersOvertake | include/Atomic_queue/atomic_queue.h:285-311 | for every size and any two producers and a consumer there is a try-only run in which the pop of ticket 0 returns the value of ticket size |
| Overtaking.ProducerOvertakesAndReads | include/Atomic_queue/atomic_queue.h:314-326 | for every size a thread with a blocking push can overtake another's push and pop its own value as that of ticket 0 |
| Overtaking.TwoConsumersReorder | include/Atomic_queue/atomic_queue.h:304-311 | for every size from two on, with one producer (who may be one of them) and any two consumers, there is a try-only run in which the value of ticket 1 is returned first |
| Ordering.OneSlotIsInOrder | include/Atomic_queue/atomic_queue.h:225-339 | with one producer and one slot every run returns values in ticket order, however many consumers there are |
| Ordering.InOrderIff | include/Atomic_queue/atomic_queue.h:225-339 | for any threads, each pushing, popping, both or neither: every run returns values in ticket order exactly when nobody pushes, or nobody pops, or at most one thread pushes and at most one pops or there is one slot; the same for try-only runs when no thread does both |
| NilProtocol.StepRefines | include/Atomic_queue/atomic_queue.h:191-272 | each access of the four-state slot protocol is one access of the NIL protocol or invisible in it: the push acts at the store of STORED, the pop at the swap to LOADING |
| NilProtocol.FourStatesRefineNil | include/Atomic_queue/atomic_queue.h:191-272 | every run of the four-state queue is, minus its invisible accesses, a run of the NIL queue with the same calls, refusals, tickets and results |
| NilSafety.NilValuesAreConserved | include/Atomic_queue/atomic_queue.h:191-219 | in every run of the NIL queue, blocking operations included, each value was handed in as often as refused, returned, in a cell, or carried by an operation in progress |
| NilSafety.NilNeverDeadlocked | include/Atomic_queue/atomic_queue.h:191-219 | in every try-only run of the NIL queue tail <= head <= tail + size, a cell holds a value exactly while one more push than pop has passed it, and some operation in progress has an access that is not a wait |
| MutexRing.AtomicQueueMutex.TryPush | include/Atomic_queue/atomic_queue_mutex.h:47-56 | writes the remapped slot in place and advances head_ mod 2^32 when there is room, else changes nothing |
| MutexRing.AtomicQueueMutex.TryPop | include/Atomic_queue/atomic_queue_mutex.h:58-66 | moves the element at tail_ out and advances tail_ mod 2^32, or finds the ring empty |
| MutexRing.PushAppends | include/Atomic_queue/atomic_queue_mutex.h:47-56 | on contents read from tail to head, a push appends or, at capacity, leaves them, across counter wrap |
| MutexRing.PopRemovesFirst | include/Atomic_queue/atomic_queue_mutex.h:58-66 | a pop returns and removes the oldest element, across counter wrap |
| MutexRing.FifoIffSizeDivides | include/Atomic_queue/atomic_queue_mutex.h:32-66 | every sequence of operations is answered as by a bounded FIFO exactly when the size divides 2^32 |
| MutexRing.RoundedSizesAreFifo | include/Atomic_queue/atomic_queue_mutex.h:33-40 | hence every ring that minimises contention is a FIFO for ever |
| MutexRing.SignedAnswersAreExact | include/Atomic_queue/atomic_queue_mutex.h:68-74 | was_empty and was_full are right in every state of rings below 2^31 slots; above, an empty ring claims to be full |
| TicketLock.ExclusiveAndFair | include/Atomic_queue/spinlock.h:57-91 | with 32-bit counters and at most 2^32 threads, every run lets threads in one at a time and in the order they drew tickets |
| TicketLock.ExclusiveIffThreadsFit | include/Atomic_queue/spinlock.h:80-99 | exclusion holds in every run exactly when there are at most 2^32 threads |
| TicketLock.WrapStep | include/Atomic_queue/spinlock.h:80-99 | each access of the 32-bit lock is the image of the unbounded lock's |
| TicketLock.BackOffEnds | include/Atomic_queue/spinlock.h:83-88 | the back-off loop ends after exactly `position` pauses and changes nothing else, wrap-around or not |
| TicketLock.SomeoneGoesThrough | include/Atomic_queue/spinlock.h:80-99 | whenever some thread is waiting or inside, one of them, running alone, leaves its critical section within 2^32 + 1 accesses |
| TicketLock.BareUnlockSkipsATicket | include/Atomic_queue/spinlock.h:93-99 | from every initial state with three threads, four accesses lead to a state in which unlock() without a ticket lets in the second waiter and sends the first to wait for 2^32 - 1 pauses |
| TicketLock.SkippedThreadStarves | include/Atomic_queue/spinlock.h:80-99 | from every reachable state in which a thread is inside and another holds the next ticket: after unlock() without a ticket that other thread is not let in, in any continuation shorter than 2^32 less the number of threads |
| TicketLock.NextArrivalStarves | include/Atomic_queue/spinlock.h:80-99 | from every reachable state in which a thread is inside and nobody waits: after unlock() without a ticket the next thread to arrive, whichever it is, is not let in, in any continuation shorter than 2^32 - 1 |
| ServerMessage.PrintThenParse | include/Messages/Server_Message.h:20-64 | a printed message is parsed back to itself exactly when no field contains the separator, and is rejected otherwise |
| ServerMessage.ParseThenPrint | include/Messages/Server_Message.h:49-64 | printing what was parsed gives the string up to and including its last separator |
| ServerMessage.LinesOfJoin | include/Messages/Server_Message.h:55-63 | splitting inverts joining for any number of separator-free fields |
| ServerMessage.JoinOfLines | include/Messages/Server_Message.h:55-63 | joining inverts splitting, and split fields are separator-free |
| ServerMessage.CountSeparators | include/Messages/Server_Message.h:50-52 | the accumulating loop counts the separators |
| ServerMessage.GetLine | include/Messages/Server_Message.h:56-63 | the character loop returns the text before the next separator and resumes right after it |
| ServerMessage.Message.GetConcatenatedMsg | include/Messages/Server_Message.h:20-23 | the concatenation is the join of the eight fields |
| ServerMessage.Message.ResetMsg | include/Messages/Server_Message.h:25-34 | all eight fields are empty afterwards |
| ServerMessage.Message.ConstructFromString | include/Messages/Server_Message.h:49-64 | overwrites all eight fields with the parse, or throws and leaves the object as it was |
| ClientTable.AcceptKeepsTable | include/Server/Server.h:248-259 | a client is refused, and the table left as it was, exactly when every slot is taken; else exactly one slot changes, the first free one, and holds a record with an id no record ever had, the accepted descriptor and colour, no name, state 0 and an empty queue; the count stays the number of occupied slots |
| ClientTable.DisconnectKeepsTable | include/Server/Server.h:206-220 | exactly the record with that id goes; it fails exactly when there is none; ids are not reused |
| ClientTable.IdsAreExact | include/Server/Server.h:185-193 | the id list names every occupied slot once |
| ClientTable.UnicastIsExact | include/Server/ServerThreadManager.h:168-181 | repeated unicast succeeds exactly when every targeted queue has room, and then each targeted client, and nobody else, has the message once at the end of its queue |
| ClientTable.UnicastStopsAtFirstFull | include/Server/ServerThreadManager.h:168-181 | when it fails it has stopped at the first targeted client whose queue is full: exactly the clients listed before have the message |
| ChatServer.ClientData.TryPush | include/Server/Client_Data.h:20 | a record's queue takes a message at its end unless it is full |
| ChatServer.ClientData.TryPop | include/Server/Client_Data.h:20 | a record's queue gives up its oldest message |
| ChatServer.Server.GetConnectedIDs | include/Server/Server.h:185-193 | the accumulating loop returns the ids of the occupied slots in slot order |
| ChatServer.Server.GetClientRef | include/Server/Server.h:195-204 | returns the object of the first slot with that id, or none |
| ChatServer.Server.AcceptClient | include/Server/Server.h:248-259 | fills the first free slot with a fresh record in place, with that descriptor and colour, and leaves all other slots alone |
| ChatServer.Server.DisconnectClient | include/Server/Server.h:206-220 | empties that client's slot in place and lowers the count, or fails |
| ChatServer.Server.UnicastRepeated | include/Server/ServerThreadManager.h:168-181 | the loop of pushes into the records' queues computes repeated unicast, up to the first full queue |
| LoadBalancer.GetMinAndIdx | include/Server/ServerThreadManager.h:26-39 | the scan returns the least count of a running worker and the first slot that has it, -1 if none is below the greatest int |
| LoadBalancer.GetMaxAndIdx | include/Server/ServerThreadManager.h:41-54 | the scan returns the greatest positive count and the first slot that has it, 0 and -1 if there is none |
| LoadBalancer.ServerThreadManager.EmplaceNewWorker | include/Server/ServerThreadManager.h:84-92 | fills slot nr_of_launched_threads, not the slot of the thread it counts the client for |
| LoadBalancer.ServerThreadManager.AssignClientToWorker | include/Server/ServerThreadManager.h:105-110 | adds a client to the worker in place and reports whether the handoff failed |
| LoadBalancer.FailedHandoffIsCounted | include/Server/ServerThreadManager.h:105-110 | a handoff that fails comes after the count and is not undone: the books are those of a successful one, so the client stays counted on its worker |
| LoadBalancer.ServerThreadManager.ProcessNewClient | include/Server/ServerThreadManager.h:95-128 | updates counts, ceiling and launched workers as the five-way choice says |
| LoadBalancer.ServerThreadManager.WorkerClientDisconnect | include/Server/ServerThreadManager.h:145-166 | takes one client off the given worker and leaves every other slot as it was, frees the slot of an emptied one, and sets the ceiling to the greatest count left |
| LoadBalancer.ConnectsAreBalanced | include/Server/ServerThreadManager.h:95-128 | after n connections clients are spread round-robin, each of the first K on a new worker and counts never more than one apart; the ceiling is the greatest count; the first refusal is that of call K * C + 1 |
| LoadBalancer.AcceptedAfterRefusal | include/Server/ServerThreadManager.h:112-121 | the call right after the first refusal is not refused and counts C + 1 on worker 0 |
| LoadBalancer.LeaveKeepsPrefixIff | include/Server/ServerThreadManager.h:145-166 | a departure keeps the running workers in the first slots exactly when the worker keeps a client or is the highest-numbered one |
| LoadBalancer.LeaveKeepsTotal | include/Server/ServerThreadManager.h:145-166 | each departure takes exactly one client off the total and leaves the ceiling at the true maximum |
| LoadBalancer.LiveSlotsIffTopEmpties | include/Server/ServerThreadManager.h:84-166 | over any run, refusals and emptyings included: running workers are the first slots throughout exactly when only the highest-numbered one ever empties; then counts sum to the clients present and the fallback for no minimum is unreachable |
| LoadBalancer.JoinIsExact | include/Server/ServerThreadManager.h:84-128 | from any state in which nr_of_launched_threads counts the running workers: the client goes to the first worker with the least count if that has room under the ceiling, else to a new worker at slot nr_of_launched_threads, else the ceiling goes up and the client to that worker unless the limit stops it; no other slot changes |
| LoadBalancer.LeaveIsExact | include/Server/ServerThreadManager.h:145-166 | a departure succeeds exactly when its worker has a client; that worker then has exactly one less, every other slot is as it was, and the ceiling is the greatest count |
| LoadBalancer.JoinCountsIff | include/Server/ServerThreadManager.h:84-128 | from any state in which nr_of_launched_threads counts the running workers, a call changes the total by the client accepted exactly unless the slot of that number is taken, not all are launched and every running worker is at the ceiling |
| LoadBalancer.LeaveIsSound | include/Server/ServerThreadManager.h:145-166 | whichever worker empties, a departure keeps that state, takes one client off the total and leaves the ceiling at the true maximum |
| LoadBalancer.CountsAddUpIff | include/Server/ServerThreadManager.h:84-166 | over any run, whichever workers empty: the counts add up to the clients present in every state exactly when no call meets that guard; then the fallback for no minimum is unreachable |
| LoadBalancer.EachWorkerAddsUpIff | include/Server/ServerThreadManager.h:84-166 | and worker by worker: each count is the clients put on that worker minus those that left it, in every state, exactly when no call meets that guard |
| LoadBalancer.JoinWithinLimitIff | include/Server/ServerThreadManager.h:95-128 | from any state within the limit a call stays within it exactly unless all running workers are at the limit and the ceiling is above it, or below it with all workers launched |
| LoadBalancer.RefusedIff | include/Server/ServerThreadManager.h:112-117 | a call is refused exactly when all slots are launched, all running workers are at the limit and the ceiling is the limit |
| LoadBalancer.LimitKeptIff | include/Server/ServerThreadManager.h:84-166 | over any run of joins, failed handoffs and departures no worker ever exceeds the limit exactly when no call meets that guard |
| LoadBalancer.BooksKeptIffOrderly | include/Server/ServerThreadManager.h:84-166 | over any run: live slots together, limit kept and ceiling at the greatest count hold throughout exactly when workers empty from the top and every join meets a ceiling between 1 and C |
| LoadBalancer.OrderlyRunsAreAccounted | include/Server/ServerThreadManager.h:84-166 | in such a run the counts are between 1 and C and add up to the clients present, and a join that meets such a ceiling is refused exactly at K * C |
| LoadBalancer.LiveWorkerOverwritten | include/Server/ServerThreadManager.h:84-92 | an instance: when a lower-numbered worker empties while all others have the same count, the next launch overwrites the last running worker and its clients drop out of the counts |
| LoadBalancer.EmptiedPool | include/Server/ServerThreadManager.h:153-164 | from every such state, the departure of the last client leaves the pool of a fresh server with ceiling 0 |
| LoadBalancer.CeilingLagsBehind | include/Server/ServerThreadManager.h:105-127 | from there, for any K and C, the first K * C calls do exactly what they do on a fresh server; only the ceiling is one behind, for good if K is 1 and else until call K + 2 |
| LoadBalancer.LimitExceededAfterEmptying | include/Server/ServerThreadManager.h:105-128 | none of these calls is refused or exceeds the limit; call K * C + 1 counts a client above the limit exactly if K or C is 1, and is refused otherwise |
| Seating.CountsMatchIffSeated | include/Server/ServerThreadManager.h:475-479 | with a table of K * C slots, in every run without failures and whichever workers empty, the counts add up to the clients connected in every state exactly when each call for a full table meets a ceiling equal to the limit and no other call overwrites a running worker; then no worker exceeds the limit and nobody with a slot is refused |
| Seating.NobodyIsCounted | include/Server/Server.h:251-259 | connections K * C + 1 and K * C + 2 of a fresh server are closed with (-1, -1), yet the first is refused by the load balancer and the second counted on worker 0, above the limit |
| Wakeups.HandledOnce | include/Server/ServerThreadManager.h:184-200 | in every interleaving of workers and listener, whichever message each pop finds, every message is handled at most once, none is lost on the way, and a wake-up never finds the queue empty |
| Wakeups.HandledInOrder | include/Server/ServerThreadManager.h:184-200 | if each pop finds the oldest message, messages are handled in the order of the pushes |
| Wakeups.StrandedIffReadsCoalesce | include/Server/ServerThreadManager.h:184-200 | when nothing is under way, everything has been handled exactly if each read of the event counter found one announcement and every push was announced (the one at 465-473 is not); else that many messages stay until a new push |
| Wakeups.AllButTheFirstAreStranded | include/Server/ServerThreadManager.h:184-200 | of any number of messages announced before one read of the event counter, all but the first are left on the queue with nothing under way |
| Wakeups.NoClientLostIffInOrder | include/Server/ServerThreadManager.h:251-263 | workers that pop one new client each get all their clients exactly if they pop in the order of assignment; in any other order the queue empties and some client is lost |
| Wakeups.OthersArePutBack | include/Server/ServerThreadManager.h:265-269 | messages other than ACCEPT are put back by whoever pops them and never lost |
| Wakeups.EveryClientServedIff | include/Server/ServerThreadManager.h:67-82 | with the event counter of each worker, in every interleaving, workers ending and being launched anew included, whichever order each pop finds: when all is asleep, the orders still queued are the surplus the reads found plus the announcements nobody read, and every client has its worker exactly when both are none and each order was popped by the worker it was for |
| Wakeups.TheAssignedWorkerIsTold | include/Server/ServerThreadManager.h:67-82 | in every run, for each worker: the clients assigned to it are the announcements on its own counter, found by it, or left on it when it was launched anew, plus the one being written |
| Wakeups.NobodyElsesClient | include/Server/ServerThreadManager.h:251-263 | a worker only takes on clients that were assigned to it |
| Wakeups.TwoAnnouncedOneServed | include/Server/ServerThreadManager.h:234-250 | two clients announced to a worker before it reads its counter: it takes on the first, and the second stays on the queue with all asleep |
| Wakeups.LeftBehindAtLaunch | include/Server/ServerThreadManager.h:84-92 | a worker launched anew has a new event counter and does not hear of a client announced to the one before |
| Broadcast.ListenerProcess | include/Server/ServerThreadManager.h:199-231 | the listener's branches on a popped message update table, queues and worker counts as the handling function says, failing with the same partial effects |
| Broadcast.ProcessDeparture | include/Server/ServerThreadManager.h:207-221 | a departure removes the record first, then tells everyone else, then lowers the worker's count |
| Broadcast.HandleEffect | include/Server/ServerThreadManager.h:199-231 | handling that does not fail gives every client left exactly one copy of the broadcast unless it is the excepted one, removes the departed client and nobody else; which text, and who is excepted, is stated action by action in the next five rows |
| Broadcast.ChatReachesOthers | include/Server/ServerThreadManager.h:222-224 | a chat message leaves the queue of the client with its id alone and puts at the end of everyone else's a text that parses to its own fields; it fails exactly when one of these queues is full |
| Broadcast.NewcomerIsAnnounced | include/Server/ServerThreadManager.h:227-230 | an INIT_DONE message does the same with the action changed to UNICAST_REPEATED |
| Broadcast.ShutdownReachesEverybody | include/Server/ServerThreadManager.h:225-226 | an SV_DISCONNECTED message reaches every client as it is |
| Broadcast.DepartureReachesTheRest | include/Server/ServerThreadManager.h:207-221 | a CL_DISCONNECTED message frees the leaver's slot, tells everyone left, as SERVER, the leaver's name and " Has just left!", and takes one client off that worker and no other; it fails exactly when the client or its worker is unknown or a queue is full, and then no count changes |
| Broadcast.OtherNotesDoNothing | include/Server/ServerThreadManager.h:199-231 | a message with any other action changes nothing |
| Broadcast.BroadcastRun | include/Server/ServerThreadManager.h:184-231 | in every run without failures each client's drained messages followed by its queue are the log since its accept, minus entries excepting it |
| Broadcast.EveryClientSeesTheLog | include/Server/ServerThreadManager.h:334-341 | so every connected client gets exactly the broadcasts since its accept not excepting it, once each, by increasing position in the one common log, and the connection count is the number of occupied slots |
| Handshake.ProcessInput | include/Server/ServerThreadManager.h:275-323 | one frame from the client moves the record, sends the greeting and pushes to the listener as the transition function says, whose words `Dialogue` pins |
| Handshake.ProcessOutput | include/Server/ServerThreadManager.h:325-342 | sends the confirmation in state 1; in state 3 drains the whole send queue oldest first; otherwise nothing |
| Handshake.HandshakeIsSafe | include/Server/ServerThreadManager.h:272-343 | in every interleaving of both client threads, both channels and the worker: a record in state 3 implies the client is done and holds the record's id and colour; the record goes 0, 1, 2, 3 or to -1 and stays there; confirmation and INIT_DONE are sent at most once |
| Handshake.SettleIsAllOrNothing | src/Client/Client.cpp:118-161 | left undisturbed, the receiving thread acts upon a confirmation that comes in time in full, and on any other frame changes nothing |
| Handshake.ClientObject.FinalizeInit | src/Client/Client.cpp:118-128 | the object's fields and the frame sent are those of the receiving thread's accesses in a row; a confirmation without a colour changes nothing |
| Handshake.ClientObject.ReceiveMsgFromSv | src/Client/Client.cpp:141-150 | the same for a received frame, dropped before init_req is set |
| Handshake.ClientObject.SendMsgFromStdin | src/Client/Client.cpp:84-108 | a line goes out as a chat frame with the object's name, id and colour, an empty line sends nothing, the quit command sends CL_DISCONNECTED with name and id and stops; as the sending thread's accesses in a row |
| Handshake.ClientObject.RequestInit | src/Client/Client.cpp:213-221 | a turn of the send loop before initialisation sends the request and then sets init_req, if there is a name |
| Handshake.ReceiverKeeps | src/Client/Client.cpp:118-161 | each access of the client's receiving thread keeps what it was told consistent and sends INIT_DONE only as the last step of finalize_init |
| Handshake.SenderKeeps | src/Client/Client.cpp:84-108 | the client's sending thread never sends INIT_DONE and never touches the receiving thread's progress |
| Handshake.WorkerSpeaksTheLanguage | include/Server/ServerThreadManager.h:276-322 | in the interleaving with one client, what its worker pushes for it is always a prefix of (INIT_DONE, then chat messages, or nothing) and then CL_DISCONNECTED |
| Dialogue.ClientSaysExactly | src/Client/Client.cpp:84-108 | in every interleaving the client's chat frames are the lines taken from the user, in order and once each, with the text, its name, and its id and colour as they were then; all else it sends is INIT_REQ and CL_DISCONNECTED with its name and a blank INIT_DONE |
| Dialogue.WorkerSendsExactly | include/Server/ServerThreadManager.h:288-342 | the worker sends its client exactly the confirmation with the record's id, colour and the name the client asked with, then the greeting by that name, then the messages from the send queue unchanged and in order; the record has that name once it has left state 0 |
| Dialogue.WorkerPushesExactly | include/Server/ServerThreadManager.h:288-321 | the worker pushes exactly the announcement by that name with the record's id and colour, then chat frames as the client sent them, field for field and in order (all those read since its INIT_DONE while the record is in state 3), then the farewell with the record's id, name and colour |
| Dialogue.LinesArriveUnchanged | include/Server/ServerThreadManager.h:313-319 | what is pushed of a client's chat is a stretch of the lines its user typed: none missing in between, none changed, added or out of order |
| Dialogue.ClientReceivesExactly | src/Client/Client.cpp:130-161 | the client receives the frames its worker sent, each once and in order, the rest being under way |
| Dialogue.LetGoIff | include/Server/ServerThreadManager.h:276-279 | the record is marked for departure exactly when the worker has read the client's goodbye or found its end closed, and exactly then the worker's next look lets it go with one CL_DISCONNECTED |
| Dialogue.AnEarlyLineHasNoId | src/Client/Client.cpp:95-101 | for every client with a name and every line there is an interleaving in which the line, typed before the answer is acted upon and sent after it, is pushed with an empty id |
| WorkerLoop.EveryConnectionSpeaksTheLanguage | include/Server/ServerThreadManager.h:346-439 | with any number of workers and of connections per worker, what is pushed for each connection is a prefix of (INIT_DONE, then chat messages, or nothing) and then CL_DISCONNECTED |
| WorkerLoop.ListedClientsAreConnected | include/Server/ServerThreadManager.h:371-421 | every connection on a worker's list has its record in the table whenever the worker looks it up, and no connection is on two lists or twice on one |
| WorkerLoop.DeparturesFindTheirClient | include/Server/ServerThreadManager.h:207-209 | the listener never fails to find the client of a CL_DISCONNECTED |
| WorkerLoop.AfterFarewell | include/Server/ServerThreadManager.h:402-421 | after CL_DISCONNECTED for a connection, in every continuation nothing more is pushed for it, it is on no worker's list and on the way to none, and no step of a worker changes its record |
| Accounts.ListedWhereCounted | include/Server/ServerThreadManager.h:346-439 | in every run of the whole server each entry of a worker's list has the descriptor of its record and is on a worker with the number its client was counted on; so are the orders under way; and each CL_DISCONNECTED names that number |
| Accounts.LostIffPoppedByAnother | include/Server/ServerThreadManager.h:251-263 | a client popped by a worker with the number it was counted on goes to the end of that worker's list, with its descriptor, and is lost if the number is another |
| Accounts.EachCountIsItsConnections | include/Server/ServerThreadManager.h:84-166 | in every state with the listener at work each worker's count is the number of connections counted on it and not gone, exactly when no connection has a running worker overwritten |
| Reports.NumeralIsExact | include/Server/ServerThreadManager.h:73-78 | reading a number printed into a message gives the number back, and a numeral has no separator |
| Reports.ChatIsHeard | include/Server/ServerThreadManager.h:199-231 | a chat frame or INIT_DONE popped by the listener reaches every client but the one whose id it carries, with id, name, colour and content; the listener goes on exactly when their queues have room |
| Reports.DepartureIsHeard | include/Server/ServerThreadManager.h:207-221 | a farewell popped by the listener frees its client's slot, tells everyone left its name as SERVER, and lowers the count of the worker the client was counted on |
| Reports.PushedForEachConnection | include/Server/ServerThreadManager.h:276-421 | with all workers: the chat pushed for a connection is exactly the chat frames read from it in state 3, field for field and in order; announcement and farewell carry its record's id, colour and name |
| Reports.MessagesWait | include/Server/ServerThreadManager.h:334-341 | a message on a client's queue stays there until its own worker writes to its socket in state 3, which empties the queue, or the client is gone |
| Reports.ClosedConnectionLeaves | include/Server/ServerThreadManager.h:372-421 | a connection found closed is off its worker's list after the next sweep, and the last post is its farewell with its record's id, name and colour and that worker's number |
| Reports.LetGoOnlyIfClosed | include/Server/ServerThreadManager.h:276-421 | with all workers: a record is marked for departure exactly when its connection has said goodbye or closed, and only then is it let go |
| Reports.EndedForEver | include/Server/ServerThreadManager.h:359 | a worker whose list has become empty never serves a connection again |
| Reports.NoIdStopsTheListener | include/Server/ServerThreadManager.h:222-224 | a post without an id stops the listener if anyone is connected; from then on nobody is accepted and no post is handled |
| Handshake.ConfirmationDecides | src/Client/Client.cpp:141-150 | when the client looks at the confirmation, the handshake can still finish exactly if init_req is set by then |
| Handshake.StalledForEver | src/Client/Client.cpp:141-150 | once the confirmation has been dropped no continuation reaches state 3 or init_done |
| Handshake.TheRaceStalls | src/Client/Client.cpp:213-221 | an interleaving in which the answer overtakes the store to init_req, from every initial state with a name, ends in that stall |

## Left out

* The C++ memory model: relaxed, acquire and release accesses are taken as sequentially consistent.
* Sockets, accept4, fcntl, epoll, stdin and stdout, colours, Avahi, processes and signals: accept is a fresh file
  descriptor given as a parameter, sends succeed, and channels are sequences of whole frames.
* TCP framing, the 512-byte frame buffer and NUL termination: one frame per receive.
* Frames in the handshake and messages on the listener's queue are carried parsed; that printing and parsing is
  exact for separator-free fields, and rejects all others, is proved in `ServerMessage`. A line of chat that
  contains the separator is rejected by the server's parser, and the handshake machine has no such line.
* Leftovers in the reused message object (content, fd and thread fields of the confirmation, fd and init_done fields of
  the farewell) are not modelled; no receiver looks at them.
* The lock-free ring and the ticket lock are step machines on values, not classes: update in place is one access at a
  time there, and aliasing does not arise. The client is both, a class for each thread's code by itself and a machine
  for their interleaving.
* Broadcast.EveryClientSeesTheLog: the log is in the order in which the listener pops; several workers pushing at once
  may overtake each other in the ring, so the messages of different workers need not be popped in the order pushed.
* Speculative loads while spinning and pauses change nothing and are steps that do nothing.
* Ordering.InOrderIff: for threads that both push and pop, runs without the blocking operations are not singled out;
  and the counters are the unbounded ones.
* Runs of the load balancer after a failed handoff: the lemmas allow them, though the listener closes the server then.
* Bounds and progress for the blocking push and pop: they may wait for ever and may take tickets beyond the capacity;
  exclusion and conservation cover them.
* The NIL protocol's spsc_ branches, and 32-bit counters in it: its compare-and-swap branches are modelled, with
  unbounded counters.
* Liveness of delivery and of the handshake: false in the code; the exact conditions are proved instead.
* Broadcast runs in which a queue is full or a message names an unknown client or worker: the listener's loop ends there.
* What a worker does with the descriptor -1 of a connection that found the table full: `Seating` follows the counts of
  such calls, and `WorkerLoop` has no such connections.
* In `WorkerLoop`: what goes out to the sockets (`Dialogue` and `Broadcast` follow it); concurrent access to the
  slot table (a look-up is one step), a full queue of the workers' to the listener (it ends the program), and
  replacing a running worker, which waits for it to end (both are kept).
* Workers' threads and event descriptors inside the load balancer; starting a thread is taken to succeed.
* An orderly shutdown of the server and the client's reaction to it.
* init_all_fields of a message, update_client of a record: plain assignments.
* A count of more than 2^31 - 1 separators, and ids or thread numbers that are not numerals.
* Queue copy, move, swap and allocation, RetryDecorator, was_size under concurrency, Spinlock, UnfairSpinlock,
  Barrier: not thread-safe by their own comments, or thin.
* src/Server/Server.cpp, which is not part of the build.
