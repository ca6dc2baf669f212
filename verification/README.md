# Concurrent protocols of an embedded Linux course, verified

The lessons on inter-process communication, real-time programming, concurrency and timers come with C
examples in which threads talk through queues, eventfds, mutexes, timers and sockets. Here those
examples are Dafny models, and what each is meant to guarantee is proved for all inputs, for any number
of threads and for all interleavings. The C programs themselves are not run.

A concurrent program is a state machine: `Can(s, step)` says when a step is possible, `Do(s, step)`
what it does, `Valid` and `Exec` extend both to schedules, so a claim about `Exec(Start(..), steps)`
for every valid `steps` is a claim about every run. A step is one critical section of a mutex, or one
access to shared memory, an eventfd or a message queue. Code that works on arrays and fields in
one thread is a class or a method with the source's own loops.

| file | what it models |
|---|---|
| `WorkQueue.dfy`, `WorkQueueProtocol.dfy`, `WorkQueueProgress.dfy` | lesson 9's bounded work queue: the ring buffer as a class, producers and workers sharing it, and why they get through |
| `Multicast.dfy`, `MulticastDelivery.dfy`, `MulticastHang.dfy`, `MulticastCertain.dfy`, `Bitmasks.dfy` | lesson 5's eventfd multicast with acknowledgements |
| `Logger.dfy` | lesson 5's message-queue logger |
| `Race.dfy` | lesson 9's racy and synchronised counters |
| `LockPrograms.dfy`, `Deadlock.dfy`, `TimeoutLocks.dfy`, `TimeoutOutcomes.dfy` | lesson 9's deadlock demonstration, and a deadlock-freedom theorem for lock hierarchies |
| `Timers.dfy`, `TimerSlots.dfy`, `TimerAnswers.dfy`, `TimerOverlap.dfy`, `TimerTable.dfy`, `TimerLocks.dfy` | lesson 12's timers: the interleaved operations, who has which slot, what create answers, callbacks, the slot loops, and lock order |
| `Echo.dfy`, `ClientTable.dfy`, `Server.dfy` | lesson 9's event-driven echo server |
| `Fibonacci.dfy`, `EventLoop.dfy`, `CyclicTest.dfy` | lesson 9's coroutine and event loop, lesson 8's latency test |
| `Sums.dfy`, `Projections.dfy` | sums over threads; the part of a merged sequence one thread produced |

## What the proofs found

Seven things the programs set out to do hold only under a condition, which is proved to be exact:

- At any prompt of any run, the multicast round typed next can hang for ever exactly when its bitmask is
  empty and no late signal of an earlier round is left to wake T1, or when it addresses two or more
  receivers and `ack_mask |= mask` is a separate load and store (`HangPossibleIff`; late signals do occur,
  `LateSignal`). In the first case, and in no other, it hangs however it is scheduled (`HangCertainIff`).
- If callback threads can always be created, a run has two callbacks of one timer outstanding at once, in
  spite of `thread_running`, exactly when an expiry finds the slot active with the flag set, because the
  handler records the slot before it looks at the flag, or with a callback whose flag a late
  `timer_system_init` has cleared (`OverlapsIff`, `LateInitOverlaps`). Some run of a given set of creators
  gets there exactly when there is a creator for the slot and each slot below it, and the timer expires
  at least twice (`OverlapPossibleIff`). If the spawn depended on having set the flag, only the late
  clear would be left (`GuardedNeverOverlaps`).
- A timer slot stays its owner's all through a run exactly when nobody deletes an id that create has not
  returned yet, and no `timer_system_init` clears a slot in use (`ExclusiveIff`). The second happens when
  two first calls of create race on the static flag `initialized`. Either way one id can be returned
  twice (`IdReturnedTwice`, `RacingFirstCalls`).
- The echo server echoes faithfully exactly when no read comes while bytes are still unsent; a read
  that does overwrites them, and one event with both flags reads first (`FaithfulIff`, `EventFaithfulIff`).
- If the logger's I/O thread cannot open its files, the program still ends exactly when the queue has
  room for every entry and EXIT (`HaltsIff`); with the source's 20 entries and 10 places it hangs
  (`SourceHangs`).
- The unordered locking mode can deadlock exactly when both thread bodies are present
  (`DeadlockPossibleIff`).
- With timeouts a thread can give up without having used both resources exactly when both bodies are
  present (`GivingUpPossibleIff`).

## Assumptions

- Memory is sequentially consistent; `msync`, printing, sleeping and timestamps have no effect.
- `pthread_cond_signal` wakes at least one waiter of the implementation's choice, and waiters may wake
  spuriously, as the pages of `pthread_cond_signal` and `pthread_cond_wait` in the System Interfaces
  volume of POSIX.1-2017 allow.
- Message queues are first-in first-out at equal priority (the `mq_receive` page of the same volume),
  empty at the start, and sends and receives that may block do not fail. No worker's text is `EXIT`.
- The clock of the timeout demonstration never goes back and `usleep` never returns early.
- `accept` returns a descriptor that is not open, and `epoll_wait` reports a registered descriptor at most
  once per batch.
- What the server does after an event has closed its client with flags of the same event still to come is
  undefined, as the source goes on with the freed structure. `Dispatch` and `HandleBatch` report exactly
  when that is, and promise nothing for it.
- `clock_nanosleep` does not return before its target.
- Integers do not overflow, except in `Fibonacci`, where `unsigned long` is 64 bits and wraps.
- The multicast holds for any number of receivers; the source's `1 << N` is defined up to 30.

## Model

| member | source | states |
|---|---|---|
| WorkQueues.WorkQueue.constructor | lesson_9/code_examples/04_work_queue_pattern/04_work_queue_pattern.c:38-54 | from rear = -1 the new ring buffer is a valid empty queue, not shut down |
| WorkQueues.WorkQueue.Enqueue | lesson_9/code_examples/04_work_queue_pattern/04_work_queue_pattern.c:80-104 | one pass of the critical section: wait if full, refuse after shutdown, else append at the end of the abstract sequence; index arithmetic keeps (rear+1) and (front+count) equal modulo the size |
| WorkQueues.WorkQueue.Dequeue | lesson_9/code_examples/04_work_queue_pattern/04_work_queue_pattern.c:107-131 | one pass of the critical section: wait if empty, NULL if empty after shutdown, else remove the head of the abstract sequence |
| WorkQueues.WorkQueue.Shutdown | lesson_9/code_examples/04_work_queue_pattern/04_work_queue_pattern.c:134-144 | sets the flag and leaves the queue contents alone |
| WorkQueues.WorkQueue.Destroy | lesson_9/code_examples/04_work_queue_pattern/04_work_queue_pattern.c:57-77 | the drain loop frees exactly what was queued, oldest first, and empties the queue |
| WorkQueues.RingAdvance | lesson_9/code_examples/04_work_queue_pattern/04_work_queue_pattern.c:122-124 | advancing front drops exactly the oldest element |
| WorkQueues.RingExtend | lesson_9/code_examples/04_work_queue_pattern/04_work_queue_pattern.c:95-97 | writing one past the end of a ring that is not full appends exactly that element |
| WorkQueueProtocol.NoLostWakeup | lesson_9/code_examples/04_work_queue_pattern/04_work_queue_pattern.c:80-144 | in every run, while a worker sleeps there are no more items than woken workers, while a producer sleeps no more free places than woken producers; both sides are never asleep with nobody woken; after shutdown nobody sleeps |
| WorkQueueProtocol.FifoConservation | lesson_9/code_examples/04_work_queue_pattern/04_work_queue_pattern.c:80-131 | in every run, handed out followed by queued is accepted; each producer's accepted, refused and remaining submissions are its script in order; refusals come only after shutdown, and NULL only from an empty queue after it |
| WorkQueueProtocol.ExecutedAtMostOnce | lesson_9/code_examples/04_work_queue_pattern/04_work_queue_pattern.c:170-185 | no task is executed by two workers or again after it has finished |
| WorkQueueProtocol.StuckIffQuiescent | lesson_9/code_examples/04_work_queue_pattern/04_work_queue_pattern.c:80-188 | with a worker, the program stops exactly when all scripts are through and the workers sleep at an empty queue or, after shutdown, have all exited |
| WorkQueueProgress.RunsAreBounded | lesson_9/code_examples/04_work_queue_pattern/04_work_queue_pattern.c:80-188 | in every run, producers and workers make at most (P + W + 3) steps per submission, plus P + W, plus one per thread woken spuriously or by shutdown |
| WorkQueueProgress.StoppedMeansAllExecuted | lesson_9/code_examples/04_work_queue_pattern/04_work_queue_pattern.c:80-188 | so the program comes to a stop, and where it stops every accepted task has been executed; without a shutdown that is every submission, in its producer's order |
| WorkQueueProtocol.ShutdownTerminates | lesson_9/code_examples/04_work_queue_pattern/04_work_queue_pattern.c:107-144 | after shutdown nothing more is accepted and the workers' further steps are bounded by an explicit measure |
| WorkQueueProtocol.ShutdownNeverBlocks | lesson_9/code_examples/04_work_queue_pattern/04_work_queue_pattern.c:107-131 | after shutdown a worker that has not exited can always take a step |
| WorkQueueProtocol.JoinMeansAllExecuted | lesson_9/code_examples/04_work_queue_pattern/04_work_queue_pattern.c:164-244 | once all workers have been joined every accepted task has been executed and destroy finds an empty queue |
| WorkQueueProtocol.ShutdownIff | lesson_9/code_examples/04_work_queue_pattern/04_work_queue_pattern.c:134-144 | in every run the flag is set exactly if shutdown has been called |
| WorkQueueProtocol.ShutdownWakesAll | lesson_9/code_examples/04_work_queue_pattern/04_work_queue_pattern.c:134-144 | and the call wakes every sleeper on both condition variables and changes nothing else |
| WorkQueueProtocol.EnqueueMayWake | lesson_9/code_examples/04_work_queue_pattern/04_work_queue_pattern.c:95-103 | the signal on not_empty may wake any one sleeping worker, or more |
| WorkQueueProtocol.DequeueMayWake | lesson_9/code_examples/04_work_queue_pattern/04_work_queue_pattern.c:122-130 | the signal on not_full may wake any one sleeping producer, or more |
| WorkQueueProtocol.SleeperMayWake | lesson_9/code_examples/04_work_queue_pattern/04_work_queue_pattern.c:84-112 | a sleeper may wake without a signal |
| MulticastDelivery.MulticastSafety | lesson_5/code_examples/04_eventfd/04_eventfd.c:111-279 | with split or atomic OR: whenever T1 is at its prompt each receiver has read exactly the messages typed for it in the run's accepted lines, in order, and none is in the middle of one; during a round it is behind by that round's message at most |
| MulticastDelivery.PostedIsTyped | lesson_5/code_examples/04_eventfd/04_eventfd.c:206-245 | the rounds posted are the accepted lines typed, with their masks and messages, but for one about to be posted |
| MulticastDelivery.QuitsIff | lesson_5/code_examples/04_eventfd/04_eventfd.c:206-225 | T1 leaves its loop exactly when the exit line is typed, and reads nothing after it |
| Multicast.NeverOverSignalled | lesson_5/code_examples/04_eventfd/04_eventfd.c:113-125 | a receiver's eventfd never exceeds one, and the "not for me" branch is never taken |
| Multicast.RoundNeverHangs | lesson_5/code_examples/04_eventfd/04_eventfd.c:246-273 | a round that addresses somebody never hangs if the OR is atomic, or if exactly one receiver is addressed |
| Multicast.RoundsAreFinite | lesson_5/code_examples/04_eventfd/04_eventfd.c:206-279 | every line typed is dealt with in at most 10n + 4 steps, whatever the interleaving |
| MulticastHang.HangPossibleIff | lesson_5/code_examples/04_eventfd/04_eventfd.c:139-273 | at every prompt a run can come to, some continuation of the line typed next hangs exactly when its mask is valid and is empty with T1's eventfd at zero and no receiver about to signal, or names two or more receivers with the OR split |
| MulticastHang.LostUpdateHangs | lesson_5/code_examples/04_eventfd/04_eventfd.c:139-139 | from every such prompt and for every mask of two or more, a schedule in which acknowledgements overwrite each other and T1 waits for ever |
| MulticastHang.LateSignal | lesson_5/code_examples/04_eventfd/04_eventfd.c:139-273 | a round can end with a receiver's signal still to come, even with an atomic OR |
| MulticastCertain.HangCertainIff | lesson_5/code_examples/04_eventfd/04_eventfd.c:139-273 | at every prompt a run can come to, every way of running the next line out hangs exactly when its mask is empty, T1's eventfd is at zero and no receiver is about to signal; any other round can be served, split OR or not |
| Bitmasks.MaskTest | lesson_5/code_examples/04_eventfd/04_eventfd.c:202-235 | a 32-bit mask exceeds (1 << N) - 1 exactly when it names a receiver that does not exist |
| Bitmasks.EqualMasks | lesson_5/code_examples/04_eventfd/04_eventfd.c:263-264 | two masks are equal as words exactly when they have the same bits |
| Logger.LogComplete | lesson_5/code_examples/01_file_IO_relegating/01_multithreaded_relegated.c:34-120 | when the I/O thread has received EXIT the log is an order-preserving interleaving of all workers' entries, none lost or doubled, and every worker has closed the queue before it is unlinked |
| Logger.LogInOrder | lesson_5/code_examples/01_file_IO_relegating/01_multithreaded_relegated.c:34-76 | at every moment each worker's part of the log is a prefix of its entries |
| Logger.HaltsIff | lesson_5/code_examples/01_file_IO_relegating/01_multithreaded_relegated.c:16-120 | a run that cannot go on has main returned, with the queue unlinked; without the I/O thread exactly if the queue has room for every entry and EXIT |
| Logger.RunsAreFinite | lesson_5/code_examples/01_file_IO_relegating/01_multithreaded_relegated.c:34-120 | every run has at most 2E + 2W + 6 steps |
| Logger.SourceHangs | lesson_5/code_examples/01_file_IO_relegating/01_multithreaded_relegated.c:16-120 | with four workers of five entries, ten places and no I/O thread, no run has main returned |
| Race.RacyBounds | lesson_9/code_examples/06_race/06_race.c:11-23 | a complete run of any number of threads ends between min(n, 2) and threads * n |
| Race.RacyRange | lesson_9/code_examples/06_race/06_race.c:11-23 | for two or more threads, a value can be the final one exactly when it lies between min(n, 2) and threads * n |
| SafeCounter.SafeIsExact | lesson_9/code_examples/06_race/06_race.c:29-42 | with the mutex every complete interleaving ends at exactly threads * n, and an incomplete one can go on |
| LockPrograms.HierarchyNeverStuck | lesson_9/code_examples/07_deadlock/07_dead_lock.c:28-38 | any number of threads whose programs take mutexes in increasing order never get stuck, and end with every mutex free |
| LockPrograms.HierarchyCompletes | lesson_9/code_examples/07_deadlock/07_dead_lock.c:28-52 | every partial run of such programs can be carried on to the end |
| Deadlock.PreventionNeverDeadlocks | lesson_9/code_examples/07_deadlock/07_dead_lock.c:16-107 | with prevention no run gets stuck; it is finished exactly after 4 steps per thread, with both mutexes free |
| Deadlock.StuckIffCycle | lesson_9/code_examples/07_deadlock/07_dead_lock.c:34-85 | without prevention a state is stuck exactly when one thread holds A and wants B and another holds B and wants A |
| Deadlock.DeadlockPossibleIff | lesson_9/code_examples/07_deadlock/07_dead_lock.c:34-85 | some interleaving deadlocks exactly when both bodies are present |
| TimeoutLocks.TimeoutAlwaysFinishes | lesson_9/code_examples/07_deadlock/07_dead_lock.c:110-198 | every interleaving has a bounded number of moves per thread, never hangs, and never has two threads using both resources; a thread that is done owns neither mutex, and both are free in the end |
| TimeoutLocks.GivesUpInTime | lesson_9/code_examples/07_deadlock/07_dead_lock.c:110-124 | in every run a thread that has given up looked at the clock more than 2 seconds after its call, and one that naps, for 10 ms, looked less than 3 after it; each look follows an attempt of its own |
| TimeoutOutcomes.TrySucceedsIff | lesson_9/code_examples/07_deadlock/07_dead_lock.c:113-123 | in every run an attempt gets the second mutex exactly if nobody holds it, and fails only on another thread's |
| TimeoutOutcomes.GivesUpOnlyIfBlocked | lesson_9/code_examples/07_deadlock/07_dead_lock.c:113-117 | whoever has given up found the second mutex held by another thread at its last attempt |
| TimeoutOutcomes.DoneMeansUsedOrGaveUp | lesson_9/code_examples/07_deadlock/07_dead_lock.c:127-198 | a thread that is done has either used both resources or given up, and not both |
| TimeoutOutcomes.SameOrderNeverGivesUp | lesson_9/code_examples/07_deadlock/07_dead_lock.c:127-198 | threads that all run the same body never give up, so each that is done has used both |
| TimeoutOutcomes.GivingUpPossibleIff | lesson_9/code_examples/07_deadlock/07_dead_lock.c:127-198 | some run has a thread give up exactly when both bodies are present |
| TimerSlots.IdsAreFresh | lesson_12/code_examples/01_timer_callback/01_timer_callback.c:125-197 | as long as no delete hits a slot still being configured and no init one in use, whenever create returns it is with -1, the live timers as before and its slot free again, or with an id in range that no live timer has, its slot active and armed; the latter exactly when it configures its slot |
| TimerSlots.DeletesExactly | lesson_12/code_examples/01_timer_callback/01_timer_callback.c:200-225 | and a delete of any id succeeds exactly if a live timer has it, ends that timer and changes nothing else; a refused one changes nothing |
| TimerAnswers.CreateAnswers | lesson_12/code_examples/01_timer_callback/01_timer_callback.c:125-197 | in every run an id other than -1 is that of the slot this creator's search found free after finding all below it active; the answer is -1 exactly if sigaction failed, the slot could not be configured, or the search found every slot active |
| TimerAnswers.CreateReturns | lesson_12/code_examples/01_timer_callback/01_timer_callback.c:125-197 | in every run a create takes at most 28 steps, and can take the next one or waits for a holder of timers_mutex that can |
| TimerSlots.ExclusiveIff | lesson_12/code_examples/01_timer_callback/01_timer_callback.c:46-225 | for every run from before the first call, live and half-made timers have active slots of their own throughout exactly if no delete hits a slot still being configured and no init clears a slot in use |
| TimerSlots.IdReturnedTwice | lesson_12/code_examples/01_timer_callback/01_timer_callback.c:143-225 | a run with such a delete in which two creators get the same id |
| TimerSlots.RacingFirstCalls | lesson_12/code_examples/01_timer_callback/01_timer_callback.c:125-197 | a run without any delete in which two first calls both find initialized unset, and both get id 0 |
| TimerOverlap.GuardedNeverOverlaps | lesson_12/code_examples/01_timer_callback/01_timer_callback.c:46-121 | if the spawn depended on having set thread_running, the flag would cover the one callback of a slot throughout a run exactly if no init clears it meanwhile, and then no two would be outstanding |
| TimerOverlap.GuardedFlagIsExact | lesson_12/code_examples/01_timer_callback/01_timer_callback.c:46-121 | and, if every callback thread is created and no init interferes, thread_running would be set exactly while a callback is on its way or in flight, so a later expiry starts the next one |
| TimerOverlap.CallbackLife | lesson_12/code_examples/01_timer_callback/01_timer_callback.c:71-122 | in every run a handler can go on to create its thread or fail to, which leaves thread_running set, and a callback thread can always end and clears it |
| TimerOverlap.OverlapsIff | lesson_12/code_examples/01_timer_callback/01_timer_callback.c:46-121 | a run, guarded or as written, has two callbacks of a slot outstanding only if an expiry finds the slot active and either its flag set (as written) or a callback whose flag an init has cleared; if every callback thread is created, exactly then |
| TimerOverlap.LateInitOverlaps | lesson_12/code_examples/01_timer_callback/01_timer_callback.c:46-197 | a run of two racing first calls with two callbacks of slot 0 outstanding, even with the spawn guarded |
| TimerOverlap.OverlapPossibleIff | lesson_12/code_examples/01_timer_callback/01_timer_callback.c:46-197 | for any creators and any slot v, some run has two callbacks of v in flight after k of its expiries exactly when there are more than v creators and k >= 2 |
| TimerTable.Table.constructor | lesson_12/code_examples/01_timer_callback/01_timer_callback.c:41-43 | the static table starts with all slots inactive and no thread running |
| TimerTable.Table.Init | lesson_12/code_examples/01_timer_callback/01_timer_callback.c:46-54 | clears every flag, whatever it was |
| TimerTable.Table.Claim | lesson_12/code_examples/01_timer_callback/01_timer_callback.c:143-163 | the search activates the first free slot and nothing else, and fails exactly when none is free |
| TimerTable.Table.HandleExpiry | lesson_12/code_examples/01_timer_callback/01_timer_callback.c:93-121 | the handler's loop over all slots changes the expired slot's flag only, and spawns as ExpirySection says |
| TimerLocks.FootprintsAreHierarchical | lesson_12/code_examples/01_timer_callback/01_timer_callback.c:46-225 | any sequence of operations locks the table before slots and slots one at a time |
| TimerLocks.TableProgram | lesson_12/code_examples/01_timer_callback/01_timer_callback.c:46-68 | init and cleanup take and release timers_mutex |
| TimerLocks.CreateProgram | lesson_12/code_examples/01_timer_callback/01_timer_callback.c:143-196 | create locks and unlocks the slots up to its own in order under timers_mutex, then its slot again |
| TimerLocks.ScanOnlyProgram | lesson_12/code_examples/01_timer_callback/01_timer_callback.c:97-163 | the handler and a create without success visit the slots in order under timers_mutex, and no more |
| TimerLocks.DeleteProgram | lesson_12/code_examples/01_timer_callback/01_timer_callback.c:205-222 | delete takes and releases one slot's mutex |
| TimerLocks.CallbackProgram | lesson_12/code_examples/01_timer_callback/01_timer_callback.c:71-90 | a callback thread takes its slot's mutex before and after what the callback calls |
| TimerLocks.TimersNeverDeadlock | lesson_12/code_examples/01_timer_callback/01_timer_callback.c:46-225 | any number of threads, each making any calls of init, cleanup, create, delete and the handler, in callbacks or outside, never deadlock |
| Echo.Fresh | lesson_9/code_examples/05_event_driven_server/05_event_driven_server.c:60-71 | a new client has nothing pending and nothing lost |
| Echo.ReadEffect | lesson_9/code_examples/05_event_driven_server/05_event_driven_server.c:94-119 | after a read exactly the bytes read are pending, offsets in bounds |
| Echo.WriteEffect | lesson_9/code_examples/05_event_driven_server/05_event_driven_server.c:133-157 | a short write sends the first k pending bytes and leaves the rest pending |
| Echo.BytesConserved | lesson_9/code_examples/05_event_driven_server/05_event_driven_server.c:94-169 | over any run, received bytes are sent, pending, or were overwritten by a read |
| Echo.HistoryIsOfEvents | lesson_9/code_examples/05_event_driven_server/05_event_driven_server.c:94-169 | the bytes received are those its reads delivered, in order, and as many are sent as its writes took |
| Echo.FaithfulIff | lesson_9/code_examples/05_event_driven_server/05_event_driven_server.c:94-169 | over any run, sent then pending is received exactly when no read came with bytes unsent, and then is what the reads delivered |
| Echo.OutputIsSubsequence | lesson_9/code_examples/05_event_driven_server/05_event_driven_server.c:94-169 | whatever happens, what is sent is a subsequence of what was received |
| ClientTable.FullIff | lesson_9/code_examples/05_event_driven_server/05_event_driven_server.c:290-305 | no slot is free exactly when MAX_CLIENTS clients are connected |
| Server.EpollServer.FindSlot | lesson_9/code_examples/05_event_driven_server/05_event_driven_server.c:321-328 | the search finds the slot of a connected client, and only of one |
| Server.EpollServer.CloseClient | lesson_9/code_examples/05_event_driven_server/05_event_driven_server.c:74-91 | the descriptor leaves the table, epoll and the open set, and nothing else does |
| Server.EpollServer.Accept | lesson_9/code_examples/05_event_driven_server/05_event_driven_server.c:260-316 | a connection is admitted exactly when every call succeeds and a slot is free; every failure leaves the server as it was; table, epoll and open descriptors agree |
| ClientTable.AfterInput | lesson_9/code_examples/05_event_driven_server/05_event_driven_server.c:94-130 | the connection goes on exactly if read returned bytes and the modification succeeded, with those bytes pending in order and nothing else sent; no other connection changes |
| ClientTable.AfterOutput | lesson_9/code_examples/05_event_driven_server/05_event_driven_server.c:133-169 | the first k pending bytes are sent, k being what write took, and the rest stay pending; the connection is closed exactly on an error or a failed modification |
| ClientTable.AfterEvent | lesson_9/code_examples/05_event_driven_server/05_event_driven_server.c:339-350 | with any flags, the connection survives exactly if none of them closes it, and then has the bytes just read, or else those waiting before, sent as far as write took them |
| Server.EpollServer.HandleRead | lesson_9/code_examples/05_event_driven_server/05_event_driven_server.c:94-130 | does to the table what AfterInput says, and keeps table and epoll in agreement, with EPOLLOUT exactly where bytes are pending |
| Server.EpollServer.HandleWrite | lesson_9/code_examples/05_event_driven_server/05_event_driven_server.c:133-169 | the same for AfterOutput, including short writes, EAGAIN and errors |
| Server.EpollServer.Dispatch | lesson_9/code_examples/05_event_driven_server/05_event_driven_server.c:317-351 | the unknown-client branch is taken exactly for a descriptor that is not registered; a freed client is about to be used exactly when input or output closes it and a later flag is set; otherwise the server stays valid and all flags are dealt with in order |
| Server.EpollServer.AcceptAll | lesson_9/code_examples/05_event_driven_server/05_event_driven_server.c:260-316 | the accept loop makes of the table what its arrivals one after the other do |
| ClientTable.WhoIsAdmitted | lesson_9/code_examples/05_event_driven_server/05_event_driven_server.c:260-316 | after it old clients are as they were, who is new is a sound arrival as a fresh client, and a sound arrival is left out only by a full table |
| Server.EpollServer.HandleBatch | lesson_9/code_examples/05_event_driven_server/05_event_driven_server.c:254-352 | over a whole batch the unknown-client branch is never taken, and a freed client is about to be used exactly if some event would do so on the connection as it was at first; otherwise the server stays valid and each event meets the connection it was reported for |
| ClientTable.WhoIsNew | lesson_9/code_examples/05_event_driven_server/05_event_driven_server.c:254-352 | who is new after a batch is a fresh client that arrived in it, and with room for all, everybody who arrived soundly on a new descriptor is there |
| ClientTable.ClientsAreEchoed | lesson_9/code_examples/05_event_driven_server/05_event_driven_server.c:94-169 | every connection in a valid server's table is a run of reads and writes, so it sends a subsequence of what it received, and is faithful exactly when nothing is missing |
| ClientTable.EventFaithfulIff | lesson_9/code_examples/05_event_driven_server/05_event_driven_server.c:339-350 | an event that a faithful connection survives leaves it faithful exactly if it did not read while bytes were waiting |
| Server.EpollServer.ShutDown | lesson_9/code_examples/05_event_driven_server/05_event_driven_server.c:355-370 | the final loop leaves no descriptor open or registered |
| Fibonacci.RecursiveIsFib | lesson_9/code_examples/03_co_routines/03_co_routines.c:73-77 | the recursion computes the Fibonacci number modulo 2^64, and zero for non-positive n |
| Fibonacci.Iterative | lesson_9/code_examples/03_co_routines/03_co_routines.c:81-96 | so does the loop |
| Fibonacci.Coroutine.Next | lesson_9/code_examples/03_co_routines/03_co_routines.c:22-69 | resume number n + 1 of the generator yields Fib(n) modulo 2^64 |
| Fibonacci.ThreeWaysAgree | lesson_9/code_examples/03_co_routines/03_co_routines.c:122-150 | the three agree for every n, and are Fib(n) when it fits |
| EventLoop.Loop | lesson_9/code_examples/01_event_loop/01_event_loop.c:26-42 | for any intervals and horizon, task k runs at time t exactly if t is below the horizon and a positive multiple of its interval (or the interval is not positive); runs come by time, then by task, none twice |
| EventLoop.RunCount | lesson_9/code_examples/01_event_loop/01_event_loop.c:31-42 | a task with interval k > 0 runs (horizon - 1) / k times |
| CyclicTest.Target | lesson_8/code_examples/07_cyclic_test/07_cyclic_test.c:68-73 | the target is normalised and exactly one interval later |
| CyclicTest.Measure | lesson_8/code_examples/07_cyclic_test/07_cyclic_test.c:66-107 | elapsed time is intervals plus total latency; min * i <= total <= max * i; the reported minimum is a latency exactly if some latency is within its initial value; the average is the total divided by the number of wake-ups, rounded down; no iteration means no average |

## Left out

- Finer steps than critical sections: a mutex-protected section, and `pthread_cond_wait`'s release-and-sleep, is one step.
- TimeoutLocks: `time(NULL)` is read in the step that acts on it, not before.
- WorkQueues.WorkQueue.Shutdown: the two broadcasts, which belong to the sleepers' side: they are part of the Shutdown step of the protocol.
- Timers: what `timer_delete` does with the stale handle of a slot still being configured, and callbacks that outlive their timer, are not modelled as errors; timer values and user data are left out, and so is `timer_system_cleanup`, after which the table cannot be used.
- TimerLocks.TimersNeverDeadlock: that init runs `pthread_mutex_init` on slot mutexes others may hold, and cleanup `pthread_mutex_destroy` on all of them; both only take and release `timers_mutex`.
- TimerLocks: the signal handler interrupting a thread that holds one of its mutexes; the handler is a thread of its own.
- Echo: `client->read_buffer` is carried along, but reads with `read_size > 0` never happen and are not modelled.
- Server.EpollServer.HandleRead: client structures are values in the slots, so aliasing of `Client*` after a close is not modelled.
- Multicast: `response` and `response_timestamp`, which receivers overwrite by design, and the parsing of the input line.
- Logger: failing sends and receives, and a worker that cannot open the queue.
- CyclicTest.Measure: overflow of a 32-bit `long` when a wake-up is seconds late.
- The server's client threads, socket setup and signal handling; process, file, GPIO, memory and scheduling examples of the other lessons, which are plain sequences of system calls.
