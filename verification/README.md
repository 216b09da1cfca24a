# A verified model of NUClear's scheduler, network transport, trace writer and timer

NUClear is a C++ framework of reactions that run as tasks on thread pools. This project models four of its parts in
Dafny and proves what they promise over whole runs.

**Groups and the scheduler.** A group limits how many of its tasks run at once. It has a signed token counter,
priority buckets of parked waiters, and a sorted queue of handles for tasks that need several groups. Each waiter has
a one-shot slot that decides who subtracts its token.

* `GroupThreads` runs any number of threads, one atomic access, bucket access or mutex section at a time. The tokens
  are conserved in every interleaving (`GroupConservation`) and no wake-up is lost (`GroupWakeups`);
  `GroupInterleaving` states both for whole runs. `GroupRefinement` shows that an operation that is not disturbed does
  what the whole operation does, and `GroupBounds` when the live locks keep to the concurrency.
* `GroupTokens` has one step for each operation and the invariant they keep. `GroupPromises` draws the conclusions for
  runs: the bound on running tasks, the meaning of negative tokens, the reservation of tokens for handles, and the
  absence of stranded waiters. `Groups` is the object that changes in place; each method does what the functions of
  `GroupTokens` say.
* `MultiGroup` adds tasks that need several groups, with the tokens that `Reservation` keeps for them, and `Deadlocks`
  proves when they never block one another. `CombinedLocks` is the lock they use, and `Schedulers` routes a task to a
  group, a lock or a pool and makes groups on demand.
* `PoolSteps` describes a pool, one section under its mutex or one whole `submit` at a time, and `Pools` is the object
  with its counting locks. `PoolIdle` proves the idle accounts over all pools, and `PoolDrain` what a stop ends and
  that none loses a task.

**The reliable transport.** `Fragments` and `AckBits` hold the splitting of payloads and the bitsets. `Transport` joins
a sender and a receiver by a channel that may lose, duplicate and reorder, `TransportRuns` states what every run
keeps, `TransportLosses` has the runs in which a timeout does harm, `TransportProgress` tells when retransmission can
still finish a packet, `TransportDuplicates` what becomes of duplicates, and `AssemblerAges` which assemblers expire.
`NetworkNode` holds the two ends as objects. `RoundTrip` is the filter that estimates round
trip times, over real numbers.

**The trace writer.** `Varints` and `Messages` are a pure encoder and a decoder told by a schema what each field
holds, after the Protocol Buffers Encoding guide, sections "Base 128 Varints" and "Message Structure".
`ProtobufWriter` writes the same bytes into one growing buffer and fills in lengths when a sub-message closes.

**Searches and the timer.** `FunctionFusion` splits arguments among functions by backtracking, `RelevantArguments`
selects arguments greedily, and `ChronoHeap`, `ChronoSteps` and `ChronoControllers` are the heap of timed tasks whose
front changes its time before it is popped.

`Sums`, `Sets`, `Options`, `Priority` and `LockQueue` serve the others.

## Where the code does less than one might expect

Most of these have a witness in the model, and the exact condition is given where one is known.

* The comments in `src/threading/scheduler/Group.cpp:117` and `src/threading/scheduler/Group.cpp:294` say that draining
  one waiter per token bounds the running tasks by the concurrency. At the grain of atomic steps this holds in every
  interleaving if and only if at most one thread uses the group (`GroupBounds.BoundExactly`). With two threads the
  excess is unbounded and stays when nothing is under way any more (`GroupBounds.ExcessIsUnbounded`): a waiter whose
  decrement a drainer has already made gives its own token back, and that starts a drain for which no lock was
  released. Another cause is a token that is taken while a decrement for it is owed
  (`GroupBounds.ConcurrencyIsExceeded`). Operations that do not disturb one another keep the bound with any number of
  threads (`GroupBounds.UndisturbedBound`), because they are the whole operations of `GroupTokens`
  (`GroupBounds.UndisturbedRunIsWhole`).
* A group lock destroyed without ever having been locked can strand a parked waiter
  (`GroupPromises.UnlockedHandleStrands`); `GroupPromises.ApplyWatches` shows that this is the only way.
* Two tasks over two groups can deadlock when the second has the higher priority (`Deadlocks.PrioritiesCanDeadlock`).
  In runs where every arriving handle leaves the tokens that waiting partial holders rely on, which can be seen before
  it is inserted, waiting tasks never block one another (`Deadlocks.YieldingRunsAreNotStuck`). Without a free token a
  task that arrives first waits only for running tasks if and only if its handle does so (`Deadlocks.ArrivalExactly`).
  Tasks of one priority that join all their groups one task after another are such runs
  (`Deadlocks.InOrderIsDeadlockFree`).
* A task that fails to acquire its lock puts the worker to sleep although a task without a lock is queued
  (`PoolDrain.BlockedTaskDelaysOthers`). A pool is asleep on queued tasks exactly after such a failure and until the
  next submit, notification or stop (`PoolDrain.AsleepExactly`).
* A NORMAL stop after the FINAL one makes a persistent pool run again (`PoolDrain.StopsExactly`), so that its workers
  no longer end (`PoolDrain.ExitsExactly`).
* The idle lock that a pool is constructed with is held while its workers are active
  (`PoolIdle.InitialLockIsHeldByActivePool`). Even then no worker runs a task from the queue.
* A reliable packet can be dropped by the sender without having been delivered when a fragment of another packet makes
  the receiver time out its assembler between two fragments (`TransportLosses.TimeoutLosesAPacket`). A packet has been
  delivered if and only if all its fragments arrived within one stretch of the run without such a timeout
  (`TransportRuns.DeliveredExactly`, `TransportRuns.DroppedWasDelivered`).
* After such a timeout a packet can be retransmitted for ever without being delivered
  (`TransportProgress.TimeoutStrandsAPacket`): the sender does not resend what was acknowledged, and the receiver no
  longer has it. Retransmission can still finish a packet if and only if its fragments are not 8n in number and it has
  been delivered already or the receiver holds all that was acknowledged (`TransportProgress.FinishableExactly`).
* A datagram that the network duplicates is delivered again (`TransportDuplicates.DuplicatesAreRedelivered`), because
  only retransmissions are compared with what was received; of more fragments, all have to come again
  (`TransportDuplicates.RedeliveryNeedsAll`).
* A reliable packet whose number of fragments is a multiple of 8 is never dropped by the sender
  (`TransportRuns.AckEndsExactly`): the mask expects a full byte where no fragment is.
* `src/extension/trace/protobuf.hpp:48` promises that the buffer is resized when a sub-message outgrows the bytes
  reserved for its length. The code does not; the length then reads back modulo a power of 128
  (`Messages.DefaultWidthExactly`, `Varints.RedundantExactly`). Field numbers from 2^29 lose bits
  (`Messages.KeyExactly`). A tree reads back if and only if its values, field numbers and lengths fit
  (`Messages.RoundTripExactly`).
* Negative 32-bit values are written as five bytes (`Messages.NegativeWidths`) where the guide
  asks for ten; a reader that truncates to 32 bits gets them back (`Messages.ScalarRoundTrip`).
* Firing changes the time of the front of the heap before `std::pop_heap` is called, which asks for a heap. The model
  pops by swapping the ends and sifting down, for which order below the root is enough
  (`ChronoSteps.FireKeepsHeap`).

## Model

| member | source | states |
|---|---|---|
| GroupInterleaving.TokensAreConserved | src/threading/scheduler/Group.cpp:169-303 | In every interleaving tokens, live locks, locked handles, counted waiters and decrements in flight add up to the concurrency; a slot is won at most once, and exactly once for a dispatched waiter; at rest the tokens are all back |
| GroupInterleaving.NoWaiterIsStranded | src/threading/scheduler/Group.cpp:226-303 | No lost wake-up: while a waiter sleeps something live or in flight will hand one out, and at rest every waiter has run |
| GroupInterleaving.WaiterIsInOnePlace | src/threading/scheduler/Group.cpp:212-224 | A waiter is at one position of one bucket, in the hands of one thread, or dispatched |
| GroupInterleaving.FastPathTakesFreeTokens | src/threading/scheduler/Group.cpp:169-185 | In every interleaving the fast path takes a token only while one is free, and one only |
| GroupInterleaving.FastPathNeverOvertakes | src/threading/scheduler/Group.cpp:169-185 | In every interleaving it starts a task only while no handle is queued or about to be |
| GroupRefinement.BeginFollows | src/threading/scheduler/Group.cpp:169-210 | Beginning an operation commits to what the whole operation does to the group |
| GroupRefinement.AdvanceFollows | src/threading/scheduler/Group.cpp:226-303 | Every atomic step of an undisturbed thread leaves what its operation will have done as it is |
| GroupBounds.UndisturbedRunIsWhole | src/threading/scheduler/Group.cpp:61-366 | A run whose operations do not disturb one another is the run of whole operations in the order they were begun |
| GroupBounds.UndisturbedBound | src/threading/scheduler/Group.cpp:115-128 | In such a run the live locks never exceed the concurrency, also during an operation |
| GroupBounds.BoundExactly | src/threading/scheduler/Group.cpp:294-302 | In all interleavings the live locks keep to the concurrency if and only if at most one thread uses the group or it has no tokens |
| GroupBounds.ExcessIsUnbounded | src/threading/scheduler/Group.cpp:243-249 | With two threads or more, for every n, a run to a state at rest with n locks more than the concurrency |
| GroupBounds.ConcurrencyIsExceeded | src/threading/scheduler/Group.cpp:297-302 | A run in which a token is taken while the decrement for it is owed |
| GroupTokens.ApplyKeepsInv | src/threading/scheduler/Group.cpp:61-153 | Every operation keeps token balance, bucket levels, queue order, and notified handles eligible |
| GroupPromises.TokensMeanCapacity | src/threading/scheduler/Group.cpp:187-303 | In every run counted waiters number max(0, -tokens), running and locked are concurrency minus free tokens, so never above it, and the group is full while a committed waiter exists |
| GroupPromises.LockLeavesTokensAhead | src/threading/scheduler/Group.cpp:131-153 | A successful `lock()` leaves a token for every unlocked handle ahead |
| GroupPromises.EligibleFromTheFront | src/threading/scheduler/Group.cpp:138-150 | Whoever is ahead of an eligible handle is eligible |
| GroupPromises.EligibilityIsKept | src/threading/scheduler/Group.cpp:346-366 | One operation ends the eligibility of another handle only by inserting one ahead of it, and creates no eligible handle that is not told |
| GroupPromises.EligibleHandlesAreTold | src/threading/scheduler/Group.cpp:81-98 | In every run a notified waiting handle is eligible, and an eligible handle that was not notified has been eligible since it was inserted |
| GroupPromises.QueueIsInOrder | src/threading/scheduler/Group.hpp:100-102 | In every run the queue has descending priorities, and ascending task ids within one priority |
| GroupPromises.LatecomersTakeNothing | src/threading/scheduler/Group.cpp:354-363 | A task of a lower priority, or a later one of the same, takes nothing from a handle that may lock |
| GroupPromises.HandleAfter | src/threading/scheduler/Group.cpp:81-98 | A handle is locked exactly by its own successful `lock` until it is destroyed, and a locked one is never told |
| GroupPromises.LocksAreKept | src/threading/scheduler/Group.cpp:131-153 | Once `lock` has succeeded it succeeds again, without taking another token, until the handle is destroyed |
| GroupPromises.ApplyWatches | src/threading/scheduler/Group.cpp:61-129 | An operation strands parked waiters if and only if it destroys the last handle, never locked, with nothing running |
| GroupPromises.NoWaiterIsStranded | src/threading/scheduler/Group.cpp:269-303 | In every run where slow locks are destroyed only after being locked, a parked waiter has a live lock or queued handle |
| GroupPromises.UnlockedHandleStrands | src/threading/scheduler/Group.cpp:123-128 | A run that strands a waiter behind a handle that was never locked |
| GroupPromises.ReleaseHandsOutTheBest | src/threading/scheduler/Group.cpp:323-340 | A release hands out at most one waiter, the oldest of the best non-empty level |
| Groups.Group.constructor | src/threading/scheduler/Group.cpp:155-156 | A new group has all its tokens and nothing waiting |
| Groups.Group.DrainOneToPool | src/threading/scheduler/Group.cpp:323-340 | Drains exactly when something is parked, and reports whether the caller owes a decrement |
| Groups.Group.NotifySlowPath | src/threading/scheduler/Group.cpp:305-321 | Marks and returns exactly the waiting handles that have become eligible |
| Groups.Group.ReleaseToken | src/threading/scheduler/Group.cpp:269-303 | The new state is that of the release specified in `GroupTokens` |
| Groups.Group.DestroyRunningLock | src/threading/scheduler/Group.cpp:50-52 | Destroying a running lock gives its token back |
| Groups.Group.TryAcquireRunningLock | src/threading/scheduler/Group.cpp:169-185 | Acquires exactly when a token is free and no handle pends |
| Groups.Group.TrySubmit | src/threading/scheduler/Group.cpp:187-210 | Runs at once or parks, as specified |
| Groups.Group.PublishWaiter | src/threading/scheduler/Group.cpp:212-224 | The waiter goes to the back of the bucket of its level, not counted |
| Groups.Group.ReconcileWaiter | src/threading/scheduler/Group.cpp:226-267 | The waiter takes its token, or hands it back to a pending handle |
| Groups.Group.Lock | src/threading/scheduler/Group.cpp:346-366 | Inserts a handle at the lower bound and withdraws promises that no longer hold |
| Groups.Group.LockGroup | src/threading/scheduler/Group.cpp:131-153 | Locks exactly when tokens suffice for everyone up to the handle |
| Groups.Group.DestroyGroupLock | src/threading/scheduler/Group.cpp:61-129 | Removes the handle, returns its token, tells those now eligible and hands one waiter out when it must |
| LockQueue.InsertedIsSorted | src/threading/scheduler/Group.cpp:355 | Inserting at the lower bound keeps higher priorities and then lower ids first |
| LockQueue.InsertedPlace | src/threading/scheduler/Group.cpp:355 | A handle goes behind those of a higher priority, or of the same and a lower id, and behind no other |
| Priority.IndexIsAntitone | src/threading/scheduler/queue/Priority.hpp:55-80 | A higher priority never has a later bucket |
| Priority.LevelsExactly | src/threading/scheduler/queue/Priority.hpp:55-68 | One priority has an earlier bucket than another if and only if 1000, 750, 500 or 250 is between them |
| Priority.NamedLevels | src/dsl/word/Priority.hpp:74-114 | The five named priorities have five different buckets, in their order |
| CombinedLocks.CombinedLock.Lock | src/threading/scheduler/CombinedLock.cpp:37-44 | Locks in order up to the first that fails, keeps those, and leaves the rest untouched |
| Schedulers.Scheduler.GetGroup | src/threading/scheduler/Scheduler.cpp:181-189 | A group is made once, with all its tokens, and found again afterwards |
| Schedulers.Scheduler.GetGroupsLock | src/threading/scheduler/Scheduler.cpp:191-213 | One handle at each group in their order, nothing else changed; no lock without groups |
| Schedulers.Scheduler.SubmitToGroup | src/threading/scheduler/Scheduler.cpp:252-265 | A task of one group runs inline, goes to its pool, or waits in the group and is registered at the pool, each exactly when the group's state says so |
| Schedulers.Scheduler.SubmitWithLock | src/threading/scheduler/Scheduler.cpp:267-275 | Other tasks run inline if all groups could be locked and are queued otherwise, keeping what was locked before the first failure |
| Schedulers.Scheduler.Submit | src/threading/scheduler/Scheduler.cpp:215-276 | The fast path is taken for exactly one group |
| Schedulers.StartsExactly | src/threading/scheduler/Scheduler.cpp:267-275 | A new handle can be locked at once if and only if tokens are free for all unlocked handles that go first |
| Schedulers.DeliveredExactly | src/threading/scheduler/Scheduler.cpp:252-275 | What each route does to the pool: its queue, its waiters, its latch, its wake-up and its idle lock |
| MultiGroup.NextIsOk | src/threading/scheduler/Scheduler.cpp:191-213 | With arrivals that yield every step, also the leaving of a refused task, keeps the system consistent and the tokens of waiting partial holders reserved |
| Reservation.CreateKeepsReserved | src/threading/scheduler/Group.cpp:354-363 | An arriving handle keeps the reservation if and only if every lock of a waiting task behind its place has left one more token |
| Deadlocks.FirstTaskWaitsForRunning | src/threading/scheduler/CombinedLock.cpp:37-44 | No hold and wait, in every run whose arrivals yield: each group of the first waiting task, by priority and id, is held by it, lockable by it, or full of running tasks |
| Deadlocks.ArrivalExactly | src/threading/scheduler/Group.cpp:354-363 | Without a free token, a task that arrives first waits only for running tasks if and only if its handle yields |
| Deadlocks.FirstTaskStarts | src/threading/scheduler/Scheduler.cpp:267-275 | Progress: when its groups are quiet the first waiting task can lock them all and start |
| Deadlocks.TasksHaveLocks | src/threading/scheduler/Scheduler.cpp:204-210 | In every run a task has a component until it has given up the last |
| Deadlocks.YieldingRunsAreNotStuck | src/threading/scheduler/CombinedLock.cpp:37-44 | In no run whose arrivals yield do waiting tasks block one another |
| Deadlocks.InOrderIsDeadlockFree | src/threading/scheduler/Group.hpp:100-102 | In no run whose tasks arrive in the order of their ranks do waiting tasks block one another, and the first of them waits only for running tasks |
| Deadlocks.PrioritiesCanDeadlock | src/threading/scheduler/Scheduler.cpp:204-210 | A run with an arrival that does not yield and that ends in a deadlock |
| Deadlocks.StuckStaysStuck | src/threading/scheduler/CombinedLock.cpp:37-44 | In that deadlock no attempt to lock or start and no release changes anything |
| PoolIdle.CountersInRuns | src/threading/scheduler/Pool.cpp:401-427 | In every run active is workers minus held thread locks, active pools is counted pools minus held pool locks, neither is negative, a lock made by a worker means no active worker, and an idle pool runs nothing from its queue |
| PoolIdle.GlobalIdleExactly | src/threading/scheduler/Pool.cpp:483-501 | Global idle reactions are collected if and only if this round makes the last counted pool idle |
| PoolIdle.OnlyRoundsReachIdle | src/threading/scheduler/Pool.cpp:176-191 | No other step makes the last counted pool idle |
| PoolIdle.GlobalIdleIsQuiet | src/threading/scheduler/Pool.cpp:339-357 | When they are collected no worker of a counted pool runs a queued task |
| PoolIdle.BusyExactly | src/threading/scheduler/Pool.cpp:401-407 | A worker counts as busy exactly from a round that returned a task to its next round |
| PoolIdle.ClearingWakes | src/threading/scheduler/Pool.cpp:159-190 | After an accepted submit or a notification that clears, its counted pool is not idle and the counter is positive |
| PoolIdle.OthersClearNothing | src/threading/scheduler/Pool.cpp:159-190 | Without clearing the marks and the counter stay as they were |
| PoolIdle.GlobalIdleFollowsWork | src/threading/scheduler/Pool.cpp:483-500 | When global reactions are collected, every counted pool has had a round that found nothing since its last clearing submit |
| PoolIdle.QueuedWorkIsNotIdle | src/threading/scheduler/Pool.cpp:335-352 | No premature idle: a round that finds a live pool with tasks queued collects no global reaction |
| PoolIdle.LatchExactly | src/threading/scheduler/Pool.cpp:218-244 | In every run the latch is set exactly since a waiter was registered while idle reactions could fire, and until a round |
| PoolIdle.LatchDispatchesExactly | src/threading/scheduler/Pool.cpp:392-399 | The round after that dispatches the reactions of its own pool, whatever is queued, if and only if its worker is the last active one |
| PoolIdle.LocalIdleExactly | src/threading/scheduler/Pool.cpp:441-450 | A pool's own idle reactions are collected if and only if this round takes its active workers to zero |
| PoolIdle.InitialLockIsHeldByActivePool | src/threading/scheduler/Pool.cpp:67-70 | The lock a pool is built with is held while its workers are active |
| PoolDrain.NothingIsLost | src/threading/scheduler/Pool.cpp:176-191 | What was accepted is handed out, queued or parked, each once; the two counters count the queued and the registered |
| PoolDrain.DrainedAtExit | src/threading/scheduler/Pool.cpp:322-326 | A worker exits only after a stop of a non-persistent pool, when everything accepted or registered has been handed out |
| PoolDrain.DrainedForGood | src/threading/scheduler/Pool.cpp:437-438 | After the last exit only waiters registered later are not handed out |
| PoolDrain.StopsExactly | src/threading/scheduler/Pool.cpp:109-125 | In every run a pool runs until its first stop, a persistent one until its latest stop is FINAL, and refuses tasks from its first stop on unless persistent |
| PoolDrain.ExitsExactly | src/threading/scheduler/Pool.cpp:322-326 | A round ends its worker if and only if a stop has ended the pool, everything accepted has been handed out, and no registration is held |
| PoolDrain.AcceptsExactly | src/threading/scheduler/Pool.cpp:176-190 | An unforced submit is accepted unless a stop came before it, and a refused one changes nothing |
| PoolDrain.WaitsUntilWoken | src/threading/scheduler/Pool.cpp:418-434 | No busy waiting: a round that ends in the wait leaves nothing that would end it |
| PoolDrain.BestTaskIsHandedOut | src/threading/scheduler/Pool.cpp:303-311 | The task handed out is the oldest of its level, and no queued task is above it across one of the four named priorities |
| PoolDrain.RoundSleepsExactly | src/threading/scheduler/Pool.cpp:401-418 | A round that looks for a task leaves the pool asleep on queued tasks if and only if the first one has a lock it can not acquire |
| PoolDrain.AsleepExactly | src/threading/scheduler/Pool.cpp:411-434 | In every run the pool is asleep on queued tasks if and only if such a round has happened and nothing has woken the workers since |
| PoolDrain.SleepsOnlyOnLocks | src/threading/scheduler/Pool.cpp:429-434 | No wake-up is lost: with tasks queued and none that needs a lock, the wait condition holds |
| PoolDrain.BlockedTaskDelaysOthers | src/threading/scheduler/Pool.cpp:411-418 | A run in which a blocked task puts the worker to sleep on a task that needs no lock |
| Pools.CountingLock.constructor | src/threading/scheduler/CountingLock.cpp:30-33 | Steps the counter and is locked exactly when that reaches the target |
| Pools.Pool.constructor | src/threading/scheduler/Pool.cpp:50-71 | A counted pool starts out idle, and the counter of active pools is as before |
| Pools.Pool.Start | src/threading/scheduler/Pool.cpp:92-107 | All workers of a counted pool start active |
| Pools.Pool.Stop | src/threading/scheduler/Pool.cpp:109-125 | A NORMAL or FINAL stop sets what the pool still accepts and whether it runs |
| Pools.Pool.Submit | src/threading/scheduler/Pool.cpp:176-191 | A refused task changes nothing; an accepted one is queued last in its level and the pool wakes |
| Pools.Pool.Notify | src/threading/scheduler/Pool.cpp:159-166 | Wakes the pool and gives up its idle lock on demand |
| Pools.Pool.RegisterExternalWaiter | src/threading/scheduler/Pool.cpp:218-244 | Counts the waiter and sets the latch when an idle reaction could run |
| Pools.Pool.CollectLocalIdleReactions | src/threading/scheduler/Pool.cpp:441-450 | Makes a lock unless this worker has one, and collects when it was the last active worker |
| Pools.Pool.GetLocalIdleTask | src/threading/scheduler/Pool.cpp:473-481 | The same, only for running pools that count |
| Pools.Pool.GetIdleTask | src/threading/scheduler/Pool.cpp:483-501 | Goes idle on both levels and dispatches what was collected |
| Pools.Pool.TryDequeueTask | src/threading/scheduler/Pool.cpp:303-311 | Takes the front of the first bucket that has a task |
| Pools.Pool.ConsumeLatch | src/threading/scheduler/Pool.cpp:392-399 | The latch is cleared, and the local idle check it asks for is done before any dequeue |
| Pools.Pool.GetTaskRound | src/threading/scheduler/Pool.cpp:322-439 | One round of the loop ends as specified: exit, task, idle dispatch or wait |
| Fragments.AssemblesToPayload | src/extension/network/NUClearNetwork.cpp:843-852 | The fragments joined in order are the payload, also when its size is a multiple of the mtu |
| Fragments.PrefixAssembles | src/extension/network/NUClearNetwork.cpp:1043-1047 | The first n fragments are the first n mtus of the payload |
| AckBits.SetAddsOne | src/extension/network/NUClearNetwork.cpp:818-820 | Setting a bit adds exactly one fragment |
| AckBits.OrIsUnion | src/extension/network/NUClearNetwork.cpp:927-930 | Or-ing is the union |
| AckBits.AllAckedIsAwaited | src/extension/network/NUClearNetwork.cpp:932-937 | The masked comparison holds if and only if every awaited bit is set |
| AckBits.AllAckedMeansAll | src/extension/network/NUClearNetwork.cpp:926-941 | When only real fragments are acknowledged it holds if and only if all of them are and their number is not a multiple of 8 |
| AckBits.BuildAck | src/extension/network/NUClearNetwork.cpp:808-820 | The bitset is exactly the set of received fragments |
| AckBits.AddAcks | src/extension/network/NUClearNetwork.cpp:925-938 | The new bitset is the union and the flag is right |
| AckBits.Unacked | src/extension/network/NUClearNetwork.cpp:518-524 | Exactly the unset indices, ascending |
| TransportRuns.DeliveriesWereSent | src/extension/network/NUClearNetwork.cpp:835-855 | In every run every delivery is the message sent under its id |
| TransportRuns.AckedHasArrived | src/extension/network/NUClearNetwork.cpp:925-938 | An acknowledged fragment exists and has reached the receiver |
| TransportRuns.GotWasReceived | src/extension/network/NUClearNetwork.cpp:802-804 | The fragments counted as arrived are those that a receive step brought |
| TransportRuns.DroppedHasArrived | src/extension/network/NUClearNetwork.cpp:940-948 | The sender drops a reliable packet only after all fragments arrived, and never one with 8n fragments |
| TransportRuns.AckEndsExactly | src/extension/network/NUClearNetwork.cpp:910-948 | An acknowledgement ends retransmission if and only if every fragment is now acknowledged and their number is not a multiple of 8 |
| TransportRuns.DeliveredExactly | src/extension/network/NUClearNetwork.cpp:752-876 | A packet has been delivered, with exactly the sent payload, if and only if all its fragments arrived within one stretch in which no timeout dropped what was received |
| TransportRuns.DroppedWasDelivered | src/extension/network/NUClearNetwork.cpp:940-948 | When a packet that the sender dropped had been delivered, as an if-and-only-if; always when no timeout interrupted it |
| TransportRuns.DeliveredWhenComplete | src/extension/network/NUClearNetwork.cpp:834-867 | A packet that no timeout interrupted is delivered if and only if all its fragments have arrived, from that moment on |
| TransportProgress.FinishableExactly | src/extension/network/NUClearNetwork.cpp:487-542 | From every reachable state, some continuation in which only later retransmissions of a kept packet arrive delivers it and makes the sender drop it, if and only if its fragments are not 8n in number and it was delivered already or the receiver holds all that was acknowledged |
| TransportProgress.TimeoutStrandsAPacket | src/extension/network/NUClearNetwork.cpp:518-524 | A run with a timeout after which no retransmission can finish the packet |
| TransportRuns.RetransmissionIsNotRedelivered | src/extension/network/NUClearNetwork.cpp:675-715 | A retransmission of a delivered packet delivers nothing and is acknowledged in full |
| TransportDuplicates.SingleIsDeliveredExactly | src/extension/network/NUClearNetwork.cpp:675-748 | A packet of one fragment is delivered on every arrival but those of retransmissions after a reliable delivery |
| TransportDuplicates.RedeliveryNeedsAll | src/extension/network/NUClearNetwork.cpp:834-867 | Between two deliveries of a packet every one of its fragments has arrived again |
| TransportDuplicates.DuplicatesAreRedelivered | src/extension/network/NUClearNetwork.cpp:718-748 | A datagram that the network duplicates is delivered twice |
| TransportDuplicates.OnlyReliableIsAcked | src/extension/network/NUClearNetwork.cpp:723-747 | In every run only reliable packets are acknowledged |
| TransportDuplicates.StoredFits | src/extension/network/NUClearNetwork.cpp:754-804 | Whatever the receiver held, an assembler keeps no fragment that the packet can not have |
| TransportLosses.TimeoutLosesAPacket | src/extension/network/NUClearNetwork.cpp:869-876 | A run with a timeout, set off by a fragment of another packet, in which a dropped packet was never delivered |
| NetworkNode.Sender.Send | src/extension/network/NUClearNetwork.cpp:1059-1132 | Sends every fragment once in order and keeps a reliable packet |
| NetworkNode.Sender.Retransmit | src/extension/network/NUClearNetwork.cpp:518-524 | Resends exactly the fragments not acknowledged, in order |
| NetworkNode.Sender.ProcessAck | src/extension/network/NUClearNetwork.cpp:882-952 | Adds valid acknowledgements and measures the round trip, ignores wrong or truncated ones, and drops a packet seen as complete |
| NetworkNode.Target.ProcessData | src/extension/network/NUClearNetwork.cpp:657-751 | State, answer and delivery of one data packet are as specified |
| NetworkNode.Target.Assemble | src/extension/network/NUClearNetwork.cpp:752-867 | Stores the fragment, acknowledges what is stored, and delivers when the count is reached |
| NetworkNode.Target.Expire | src/extension/network/NUClearNetwork.cpp:869-876 | Drops exactly the assemblers whose last fragment came more than ten round trips ago |
| AssemblerAges.KeptExactly | src/extension/network/NUClearNetwork.cpp:869-876 | An assembler exists if and only if a fragment was stored, its packet was not completed since, and every expiry since came within ten round trips of its latest fragment |
| RoundTrip.RoundTripKF.Measure | src/extension/network/NUClearNetwork.hpp:92-115 | Updates variance and mean by the filter step |
| RoundTrip.Gain | src/extension/network/NUClearNetwork.hpp:106-107 | The gain is in (0, 1) |
| RoundTrip.PrecisionsAdd | src/extension/network/NUClearNetwork.hpp:107-111 | The new variance is that of adding the precisions, and the new estimate the mean weighted by them |
| RoundTrip.UpdateIsOptimal | src/extension/network/NUClearNetwork.hpp:107-111 | No weight of the measurement gives a lower variance, and only the one used gives as low a one |
| RoundTrip.FirstMeasurement | src/extension/network/NUClearNetwork.hpp:83-88 | With the constants of the filter: the variance and the estimate after the first measurement |
| RoundTrip.EstimateInRange | src/extension/network/NUClearNetwork.hpp:107-111 | The estimate stays in the range of 1 and the measurements |
| RoundTrip.ExcessShrinks | src/extension/network/NUClearNetwork.hpp:107-110 | A measurement scales P*P + Q*P - R*Q by the square of one minus the gain |
| RoundTrip.ExcessVanishes | src/extension/network/NUClearNetwork.hpp:107-111 | After n measurements the excess is positive and at most 0.997^(2n) of the first |
| RoundTrip.VarianceInRuns | src/extension/network/NUClearNetwork.hpp:83-110 | In every run each measurement strictly lowers the variance, which stays above 0.0003, and the gain above 0.003 |
| RoundTrip.ErrorVanishes | src/extension/network/NUClearNetwork.hpp:106-111 | On a constant round trip time the error shrinks by a factor of 0.997 or less each time |
| Varints.VarintRoundTrip | src/extension/trace/protobuf.cpp:54-66 | Decoding inverts encoding with any bytes behind |
| Varints.VarintLength | src/extension/trace/protobuf.cpp:54-66 | At most n bytes if and only if below 128^n |
| Varints.WideVarints | src/extension/trace/protobuf.cpp:54-66 | At most 5 bytes for 32 bits and 10 for 64 |
| Varints.VarintIsMinimal | src/extension/trace/protobuf.cpp:54-66 | No encoding of the value is shorter |
| Varints.RedundantRoundTrip | src/extension/trace/protobuf.cpp:40-52 | The fixed-width varint reads back modulo 128^n |
| Varints.RedundantExactly | src/extension/trace/protobuf.cpp:40-52 | It reads back as the value if and only if that is below 128^n |
| Varints.FixedRoundTrip | src/extension/trace/protobuf.cpp:68-78 | Little-endian integers read back modulo 256^n |
| Varints.VarintBytes | src/extension/trace/protobuf.cpp:54-66 | Byte i holds the ith group of seven bits, and its top bit tells whether another follows |
| Varints.RedundantBytes | src/extension/trace/protobuf.cpp:40-52 | The same for the fixed width |
| Varints.FixedBytes | src/extension/trace/protobuf.cpp:68-78 | Byte i is the ith from the least significant |
| Messages.KeyExactly | src/extension/trace/protobuf.cpp:91-110 | A field number survives if and only if it is below 2^29 |
| Messages.ScalarRoundTrip | src/extension/trace/protobuf.cpp:116-138 | Every scalar field of the C++ types reads back |
| Messages.RoundTrip | src/extension/trace/protobuf.cpp:116-153 | The decoder returns every tree whose values, field numbers and lengths fit |
| Messages.RoundTripExactly | src/extension/trace/protobuf.cpp:116-153 | For every tree and schema, the decoder returns the tree if and only if its values, field numbers and lengths fit and it follows the schema |
| Messages.MessageIsMinimal | src/extension/trace/protobuf.cpp:112-153 | Whatever decodes to a tree is at least as long as the encoding of the tree |
| Messages.DefaultWidthExactly | src/extension/trace/protobuf.cpp:148-153 | Two reserved bytes hold the length of a body if and only if it is below 2^14 |
| Messages.WireTypes | src/extension/trace/protobuf.cpp:91-138 | The first byte of a field with a number below 16 is eight times the number plus the wire type of the guide |
| Messages.SubExample | src/extension/trace/protobuf.cpp:140-153 | The bytes of a message with the number 150, as in the guide |
| Messages.NegativeWidths | src/extension/trace/protobuf.cpp:116-138 | Negative values take ten bytes as 64-bit fields and five as 32-bit ones |
| ProtobufWriter.Buffer.WriteVarint | src/extension/trace/protobuf.cpp:54-66 | Appends exactly the varint |
| ProtobufWriter.Buffer.WriteRedundantVarint | src/extension/trace/protobuf.cpp:40-52 | Overwrites exactly the reserved bytes |
| ProtobufWriter.Buffer.WriteFixed | src/extension/trace/protobuf.cpp:68-78 | Appends exactly the little-endian bytes |
| ProtobufWriter.SubMessage.constructor | src/extension/trace/protobuf.cpp:140-147 | Appends the key and reserves the length |
| ProtobufWriter.SubMessage.Close | src/extension/trace/protobuf.cpp:148-153 | Writes the length of what followed over the reserved bytes and changes nothing else |
| ProtobufWriter.WriteSub | src/extension/trace/protobuf.cpp:140-153 | Opening, writing the body and closing appends exactly the encoding of the sub-message |
| ProtobufWriter.WriteMessage | src/extension/trace/protobuf.cpp:112-153 | Writing a tree in nested scopes appends exactly its pure encoding |
| FunctionFusion.FuseExactly | src/util/FunctionFusion.hpp:262-338 | The search succeeds if and only if a split exists, and returns the one with the lexicographically greatest ends |
| FunctionFusion.EveryArgumentIsPassed | src/util/FunctionFusion.hpp:347-374 | The ranges in order are exactly the arguments after the shared ones |
| FunctionFusion.RangesAreDisjoint | src/util/FunctionFusion.hpp:93-200 | No argument goes to two functions |
| RelevantArguments.RelevantExactly | src/util/RelevantArguments.hpp:31-64 | The selection succeeds if and only if an order-preserving one exists, with indices nowhere larger than any other |
| ChronoHeap.PopKeepsHeap | src/extension/ChronoController.cpp:151-152 | Popping works whenever order holds below the root, whatever the root's time |
| ChronoHeap.RootIsMinimum | src/extension/ChronoController.cpp:145 | The front of a heap is a minimum |
| ChronoHeap.MakeHeapOrders | src/extension/ChronoController.cpp:92 | Rebuilding makes any vector a heap |
| ChronoSteps.FireKeepsHeap | src/extension/ChronoController.cpp:147-162 | Firing keeps the heap although the front rewrites its time first |
| ChronoSteps.FireIsExact | src/extension/ChronoController.cpp:147-162 | Firing removes exactly the front, and puts it back with its new time when it renews |
| ChronoSteps.UnbindIsExact | src/extension/ChronoController.cpp:84-93 | Unbinding removes one task with the id, if any, and keeps the heap |
| ChronoSteps.AddIsExact | src/extension/ChronoController.cpp:68-72 | Adding adds exactly the task and keeps the heap |
| ChronoSteps.PathKeepsHeap | src/extension/ChronoController.cpp:64-130 | The vector is a heap in every run |
| ChronoSteps.HoldsLiveTasks | src/extension/ChronoController.cpp:64-130 | In every run it holds exactly the tasks added and neither unbound nor finished, each with the time it was last given |
| ChronoSteps.FiredIsEarliest | src/extension/ChronoController.cpp:144-149 | A task that fires is due and a minimum of the pending ones |
| ChronoSteps.FiringIsInOrder | src/extension/ChronoController.cpp:143-162 | Tasks fire in time order unless one is brought to before a fired one |
| ChronoSteps.RelativeKeepsDifferences | src/extension/ChronoController.cpp:112-119 | RELATIVE keeps the time to every task |
| ChronoSteps.NearestPassesNothing | src/extension/ChronoController.cpp:120-125 | A NEAREST step leaves the tasks alone and the clock at the target or at a pending task, past neither the target nor any task |
| ChronoSteps.AbsoluteMakesDue | src/extension/ChronoController.cpp:112 | An ABSOLUTE step sets the clock and leaves the tasks alone; a task can then fire if and only if one was passed |
| ChronoSteps.RunsUntilShutdown | src/extension/ChronoController.cpp:100-104 | In every run tasks are added and fire until the shutdown, and neither after it |
| ChronoSteps.DueTasksFire | src/extension/ChronoController.cpp:134-149 | When the clock comes to a pending task of a running timer, some task can fire |
| ChronoControllers.ChronoController.Add | src/extension/ChronoController.cpp:64-76 | As the step, only while running |
| ChronoControllers.ChronoController.Find | src/extension/ChronoController.cpp:84-87 | Finds the first task with the id |
| ChronoControllers.ChronoController.Unbind | src/extension/ChronoController.cpp:78-97 | As the step |
| ChronoControllers.ChronoController.Fire | src/extension/ChronoController.cpp:147-162 | As the step, and returns what was the front |
| ChronoControllers.ChronoController.Shutdown | src/extension/ChronoController.cpp:100-104 | As the step |
| ChronoControllers.ChronoController.TimeTravel | src/extension/ChronoController.cpp:106-130 | As the step of each action |

## Left out

- Condition variables, thread priorities and memory orders weaker than sequential consistency: atomics are single steps, and sleeping workers are not tracked.
- The bodies of the lock-free queues: a bucket is a FIFO sequence.
- FORCE stops, discarding of queues, and destruction of groups and pools, which drop tasks by design.
- The check of `accept` in `submit` is one step with the enqueue; a stop between the two is not modelled.
- Groups at the grain of operations: the second look at `slow_pending` after a successful compare-exchange can not differ there; `GroupInterleaving` has it.
- Destroying a refused task's running lock inside `submit`: in `GroupInterleaving` it is a release by another thread.
- Groups.Group.DrainOneToPool: records the task it hands out; the forced submit to the pool of the entry is a step of `PoolDrain`.
- Groups.Group.PublishWaiter: without the registration at the pool, which `Schedulers.Scheduler.SubmitToGroup` makes.
- Schedulers.Scheduler.GetGroupsLock: without the callback that each handle is given; which handles are told is stated in `GroupPromises`.
- Pools.Pool.GetTaskRound: whether the lock of a task can be acquired is a parameter, and the discard branch of a FORCE stop is absent.
- Deadlocks.PrioritiesCanDeadlock: a deadlock needs an arrival that does not yield, but not every such arrival leads to one; when a task that stands first comes without a free token, `Deadlocks.ArrivalExactly` decides.
- CombinedLocks.CombinedLock.Add: asks for distinct groups, because the scheduler builds a lock from a set of groups.
- The lazily filled map of pools and the cached pool pointer in `Scheduler`; the pool of a task is a parameter.
- Schedulers.Scheduler.Submit: ends where a task begins to run inline; the task and the release of its lock are the caller's.
- Running a task, and what idle reactions submit: a dispatch is returned and its submissions are ordinary steps.
- Sockets, peers that join and leave, and several targets of one packet: one sender and one receiver are modelled; times of retransmission are arbitrary.
- TransportProgress.FinishableExactly: says that a continuation exists, not that the network will provide it.
- The NACK branch: with an honest sender the receiver never purges, and its resend loop indexes the bitset by fragment number.
- NetworkNode.Target.ProcessData: without the NACK answer and packets of unknown remotes.
- NetworkNode.Target.Assemble: without the NACK answer when it purges; the expiry that follows is the method `Expire`.
- Clocks: a timeout is a step that may follow a step that stores a fragment, and drops any assemblers but that one.
- NetworkNode.Sender.ProcessAck: for one target of a packet.
- The ring of 255 recent packets: a set of completed ids instead.
- Reuse of packet ids and payloads of more than 65535 fragments: excluded from the runs.
- NetworkNode.Sender.Send: takes the packet id as a parameter instead of searching for an unused one.
- RoundTrip.RoundTripKF.Measure: real numbers instead of single precision.
- Protobuf fields unknown to the schema make the decoder fail instead of being skipped.
- FunctionFusion.FuseExactly: whether a function is callable with a range of arguments is an arbitrary predicate; so is convertibility in RelevantArguments.
- The layout that the standard library's heap algorithms produce among equal times; the waiting and spinning between tasks, and the rate of the clock.
- DSL words, type stores, serialisation, logging, hashing and file writing.
