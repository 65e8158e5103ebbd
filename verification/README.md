# Occlum: verified models of the LibOS channel, pollers, ring pool, BOM planner, CPUID cache and PAL shutdown

Occlum is a library OS for Intel SGX enclaves. This project models the parts of it whose
correctness rests on an argument over whole runs or all inputs, and proves those arguments
in Dafny 4.11. `dafny verify dfyconfig.toml` checks everything.

| file | component |
|---|---|
| `WaiterQueue.dfy` | the waiter queue: an atomic counter beside a locked deque, with an unlocked fast path |
| `Notifier.dfy` | the event notifier and its early return on a freed observer |
| `Channel.dfy` | the IPC channel: ring, shutdown and non-blocking flags, waiter queues, notifiers, waiters, as a transition system |
| `ChannelOrder.dfy` | mutual exclusion, FIFO conservation, the shutdown barrier, when end-of-stream is the truth |
| `ChannelCalls.dfy` | why each call returns what it returns, calls after a shutdown, and what the flags are |
| `ChannelWakeup.dfy` | no lost wake-up, no mutual sleep, no deadlock, quiescence |
| `ChannelProgress.dfy` | left alone, every run of the channel ends, with every wake-up delivered |
| `Poller.dfy`, `PollerSafety.dfy` | pollees and pollers: poll atomicity and two-way registration bookkeeping |
| `PollerEvents.dfy` | what a pollee's events are, what a poll sees of them, and who is woken by an addition |
| `PollerWait.dfy`, `EdgeWaiter.dfy` | what a wait on a poller reports and what it loses; the edge-triggered waiter itself |
| `UringPool.dfy` | the io_uring pool as a class, and its load bound over arbitrary runs |
| `BomIncludes.dfy`, `BomDedup.dfy` | include expansion and redundancy elimination of `copy_bom` |
| `CpuId.dfy` | the precomputed CPUID table against direct queries |
| `PalShutdown.dfy` | the PAL's thread counter and interrupt thread at shutdown |
| `Env.dfy` | precedence of environment variables across two merges |
| `Codec.dfy` | sizes and MACs printed by one tool and parsed by another |
| `Util.dfy` | sums, flattening, options |

Concurrent components are transition systems over any number of threads, one step for each
atomic access, lock section boundary, ring operation or host call, under sequential
consistency. A run is a sequence of states that starts in an initial state and takes one
such step at a time; results hold for every state of every run. Lock acquisition is merged with
the access after it and release with the access before it. Sequential components keep the
form of the source: classes with `modifies` clauses, loops with invariants, in-place arrays.

Some promises are false of the code. For each there is a run or an input that shows it, and
the exact condition under which the code does keep the promise:

- End-of-stream: `EofWithItemLeft` is a run in which `pop` reports end-of-stream with an item
  left in the ring; `EofExact` gives the condition and `EofAfterShutdown` the usable form.
- `broadcast` misses an interested observer behind a freed one (`BroadcastMisses`), and only then
  (`BroadcastComplete`).
- A wait on a poller that fails can swallow a wake-up (`WakeupLost`): exactly those that arrived
  since it fell asleep (`FailedWaitLoses`, `WaitEnds`).
- `get_uring` panics after `poll_completions` ran twice (`PrefilledTwicePanics`): exactly when the
  limit is zero or it ran while rings were already running (`PanicExactly`).
- The CPUID generator overflows its sub-leaf counter on some processor (`SubleafOverflows`): exactly
  when some enumerated leaf's bound is the largest 32-bit number (`GenerateCpuidCache`).
- The enclave can be destroyed under a running call (`DestroyedUnderLateCall`), but only
  under one that counted itself in after the interrupt thread had left (`InsideOnlyIfLate`);
  `DestroySafeExactly` gives the exact condition and `SafeShutdown` what a caller can arrange.
- A variable that is bound twice by trusted entries survives an override in part (`RepeatedKeySurvives`);
  `EnvPrecedence` gives the exact condition.
- `manage` copies files before shared objects, so the plan means what its author intends only because
  of the elimination (`EliminationNeeded`).

Where code and documentation disagree the code is followed: registering an observer twice
appends a second entry (src/libos/src/events/poller.rs:103-118 says the mask is updated).

## Model

| member | source | states |
|---|---|---|
| `WaiterQueue.ActQueue` | src/libos/src/events/waiter_queue.rs:54-91 | every atomic step of any thread keeps the history split into dequeued and queued wakers, the counter exact whenever the lock is free and off by exactly the holder's half-done update otherwise |
| `WaiterQueue.QueueOrder` | src/libos/src/events/waiter_queue.rs:43-91 | in every run the dequeued batches in order followed by the queue are the enqueue history; the counter is the queue length when the lock is free and never below it; once no dequeue is in progress the returned counts add up to the number dequeued |
| `WaiterQueue.FastPathSound` | src/libos/src/events/waiter_queue.rs:73-76 | a dequeue that leaves through the unlocked check does so only when every waker ever enqueued has been dequeued |
| `WaiterQueue.QueueMoves` | src/libos/src/events/waiter_queue.rs:54-91 | a dequeue takes the oldest wakers, as many as it asked for or all there are; an enqueue adds its own waker at the end; nothing else moves |
| `Notifier.Notifier.Register` | src/libos/src/events/notifier.rs:28-41 | appends, also when the observer is already there |
| `Notifier.Notifier.Unregister` | src/libos/src/events/notifier.rs:43-47 | keeps, in order, what `Without` keeps |
| `Notifier.WithoutExact` | src/libos/src/events/notifier.rs:43-47 | unregistering removes every entry of the observer and no other |
| `Notifier.Notifier.Broadcast` | src/libos/src/events/notifier.rs:49-65 | calls the interested observers in order up to the first interested one that is freed |
| `Notifier.BroadcastComplete` | src/libos/src/events/notifier.rs:49-65 | all interested live observers are called if and only if no interested freed observer stands before an interested live one |
| `Notifier.BroadcastMisses` | src/libos/src/events/notifier.rs:49-65 | behind a freed observer a live interested one hears nothing |
| `Notifier.DeliveredExact` | src/libos/src/events/notifier.rs:49-86 | an observer is called exactly if one of its entries has no filter or shares an event with the broadcast, and no freed observer that wants the event stands at or before it |
| `Notifier.LedByApply` | src/libos/src/fs/channel.rs:31-44 | registering or unregistering an outside observer keeps the endpoint's own unfiltered observer first |
| `Notifier.OwnObserverFirst` | src/libos/src/fs/channel.rs:31-44 | after any history of outside observers every broadcast of any event first calls the endpoint's own observer, whichever outside observers are freed |
| `ChannelOrder.StepInv` | src/libos/src/fs/channel.rs:168-277 | every step of any thread keeps mutual exclusion of the three locks of each endpoint, the exact waiter counters, FIFO order and the history of completed calls |
| `ChannelOrder.RunInv` | src/libos/src/fs/channel.rs:168-477 | that invariant holds in every reachable state, with outside observers coming, going and being freed at any time |
| `ChannelOrder.FifoConservation` | src/libos/src/fs/channel.rs:293-329 | in every run popped items followed by the ring are the pushed items and the ring fits its capacity; every successful `push_slices` contributed one contiguous nonempty prefix of its concatenated slices and every successful `pop_slices` took one contiguous segment, in completion order |
| `ChannelOrder.ShutdownBarrier` | src/libos/src/fs/channel.rs:263-277 | shutdown flags stay set, and nothing is pushed after the producer's or popped after the consumer's; for pushes after the consumer's see `ChannelCalls.ConsumerBarrier` |
| `ChannelOrder.EofExact` | src/libos/src/fs/channel.rs:346-369 | when a pop reports end-of-stream, every pushed item has been popped if and only if nothing was pushed between its emptiness check and its test of the flag |
| `ChannelOrder.EofAfterShutdown` | src/libos/src/fs/channel.rs:346-369 | if the emptiness check came after the producer's shutdown, end-of-stream means everything ever pushed has been popped, now and in every later state |
| `ChannelOrder.EofWithItemLeft` | src/libos/src/fs/channel.rs:354-364 | a run in which a pop reports end-of-stream while the pushed item is still in the ring |
| `ChannelOrder.RightEvents` | src/libos/src/fs/channel.rs:220-277 | in every run a broadcast tells the truth: the consumer's observers hear IN only from a send that moved items and HUP only once the producer is shut down, the producer's OUT only from a receive that moved items and ERR only once the consumer is shut down, and nothing else |
| `ChannelCalls.CallsJustified` | src/libos/src/fs/channel.rs:220-243 | in every run a call that ends has a reason: it moved items, all it asked for unless the ring is then full or empty, and is recorded; EPIPE only if its own side, or for a send the consumer, is shut down; end-of-stream only for a receive with the producer shut down; EAGAIN only if its endpoint is non-blocking; EINTR only on a signal |
| `ChannelCalls.TestsOnlyIfBlocked` | src/libos/src/fs/channel.rs:293-329 | a call comes to test end-of-stream and non-blocking only after this very attempt found the ring full, or empty for a receive |
| `ChannelCalls.CallAfterShutdown` | src/libos/src/fs/channel.rs:220-369 | a send that begins after either side's shutdown never reaches the ring and ends with EPIPE; so does a receive after the consumer's; a receive after the producer's never sleeps and ends with items, end-of-stream or EPIPE |
| `ChannelCalls.ConsumerBarrier` | src/libos/src/fs/channel.rs:220-243 | after the consumer's shutdown nothing more is pushed, in any continuation, once no send is at the ring |
| `ChannelCalls.NonblockingNeverParks` | src/libos/src/fs/channel.rs:189-210 | a call on an endpoint that stays non-blocking never makes a waiter, enqueues or sleeps |
| `ChannelCalls.NonblockingExact` | src/libos/src/fs/channel.rs:163-175 | in every run an endpoint is non-blocking exactly if the last store to its flag said so |
| `ChannelCalls.CallBegins` | src/libos/src/fs/channel.rs:293-300 | a call starts on what it was asked for; one without items or room returns zero at once |
| `ChannelCalls.ShutdownSets` | src/libos/src/fs/channel.rs:263-277 | a shutdown call is past its lock section only with the flag set, and nothing else sets it |
| `ChannelCalls.BroadcastWalk` | src/libos/src/fs/channel.rs:177-185 | a broadcast ends at the end of the list or at the first freed observer that wants the event, and wakes the queue at the own observer |
| `ChannelWakeup.StepInv` | src/libos/src/fs/channel.rs:189-210 | every step of any thread keeps: an unset flag of a thread on its way to sleep is in a wake batch, or queued with its checks so far still true or a wake-all owed; a set flag of a sleeper has its eventfd written or about to be |
| `ChannelWakeup.NoLostWakeup` | src/libos/src/fs/channel.rs:189-243 | in every reachable state a sleeping thread with its flag set has an eventfd write on its way; with its flag unset its waker is in an unfinished batch, or queued while ring, shutdown and non-blocking flags still block it or some thread owes that queue a wake-all |
| `ChannelWakeup.ParkedForAReason` | src/libos/src/fs/channel.rs:168-210 | with no wake-up owed or in flight, a sleeping thread is really blocked |
| `ChannelWakeup.NoMutualSleep` | src/libos/src/fs/channel.rs:189-243 | with capacity above zero a sleeping sender and a sleeping receiver imply a wake-up owed or in flight, for any number of threads |
| `ChannelWakeup.SomeoneReady` | src/libos/src/fs/channel.rs:189-277 | no deadlock on endpoint, subscriber and queue locks: while a thread is neither idle nor asleep, some thread can step |
| `ChannelWakeup.Quiescence` | src/libos/src/fs/channel.rs:168-477 | in every reachable state where nothing can move by itself, each thread is idle or asleep, blocked, with its flag unset and its waker queued |
| `ChannelProgress.StepShrinks` | src/libos/src/fs/channel.rs:189-210 | every step a thread takes on its own makes a lexicographic measure smaller: wake-alls to come, drained wakers, eventfds to write, steps left in the retry loops |
| `ChannelProgress.RunsEnd` | src/libos/src/fs/channel.rs:168-477 | from every reachable state, without new calls, signals or outside changes, no run is infinite, whatever the scheduler |
| `ChannelProgress.Settles` | src/libos/src/fs/channel.rs:168-477 | from every reachable state threads' own steps lead to a state where nothing can move and each thread is idle or asleep and really blocked: owed and pending wake-ups have been delivered |
| `PollerSafety.StepThreads` | src/libos/src/events/poller.rs:46-86 | every step of any thread keeps every promise of a poll backed by a list entry and every owed wake-up delivered or still ahead in the broadcast |
| `PollerSafety.Bookkeeping` | src/libos/src/events/poller.rs:62-67 | in every run each subscriber of a pollee is an existing poller, and one that lists that pollee whenever no call is using it |
| `PollerSafety.DroppedLeavesNothing` | src/libos/src/events/poller.rs:196-210 | a dropped poller has no entry left in any pollee, duplicates included |
| `PollerSafety.BroadcastReachesAll` | src/libos/src/events/notifier.rs:49-65 | a finished `add_events` broadcast went through the whole list, never taking the early return, and woke every interested subscriber |
| `PollerSafety.MaskHasErrors` | src/libos/src/events/poller.rs:46-56 | every poll asks for ERR and HUP as well |
| `PollerEvents.CallBegins` | src/libos/src/events/poller.rs:46-80 | a poll registers exactly its mask with ERR and HUP, an addition sets exactly its events |
| `PollerEvents.EventsExact` | src/libos/src/events/poller.rs:73-88 | in every run an event is set in a pollee exactly if it was initial or added and has not been deleted since |
| `PollerEvents.PollExact` | src/libos/src/events/poller.rs:46-60 | a poll returns nothing, and its poller is promised a wake-up, exactly if no event of its mask and neither ERR nor HUP was initial or added without a later deletion |
| `PollerEvents.WokenOnlyIfAsked` | src/libos/src/events/poller.rs:62-76 | in every run an addition wakes a poller only if the poller has polled that pollee with a mask that meets the added events |
| `PollerEvents.NotifiedExact` | src/libos/src/events/poller.rs:172-194 | in every run a poller's flag is set exactly if an addition has called it since the last wait on it ended |
| `PollerEvents.WaitExact` | src/libos/src/events/poller.rs:172-175 | a wait returns at once exactly if the poller was called since the last wait ended, and otherwise sleeps |
| `PollerSafety.PromiseIsOwed` | src/libos/src/events/poller.rs:46-76 | after a poll that returned nothing, each later matching addition owes the poller a wake-up while it lives |
| `PollerSafety.PollAtomicity` | src/libos/src/events/poller.rs:46-76 | after a poll that returned nothing, each later addition meeting its mask or ERR or HUP has woken the poller when its broadcast ends, unless the poller is being dropped; the wake-up stays pending until a wait, successful or not, takes it |
| `PollerWait.FailedWaitLoses` | src/libos/src/events/waiter/edge.rs:24-31 | a wait that fails loses exactly the wake-ups that reached the poller since it fell asleep, so none if and only if no addition woke it meanwhile |
| `PollerWait.WakeupLost` | src/libos/src/events/waiter/edge.rs:27-31 | a run in which a promised wake-up arrives during a wait that then fails: it is gone, with the event still set |
| `EdgeWaiter.NoWakeupForgotten` | src/libos/src/events/waiter/edge.rs:24-88 | in every run the state word is INIT, NOTIFIED or WAIT and NOTIFIED exactly while a wake-up is pending; every wake-up is reported, lost or pending; a sleeper with a pending wake-up is about to have its eventfd written |
| `EdgeWaiter.WaitEnds` | src/libos/src/events/waiter/edge.rs:24-68 | a failed wait loses exactly the wake-ups since it fell asleep, a successful one reports exactly those; `wait` succeeds only with at least one |
| `UringPool.UringSet.PollCompletions` | src/libos/src/io_uring.rs:73-91 | adds exactly `limit` idle polling rings and leaves the others alone |
| `UringPool.UringSet.GetUring` | src/libos/src/io_uring.rs:93-156 | panics exactly under `AttachPanics`; otherwise builds a ring or joins one with the fewest sockets, at full size with the smallest load among those, and counts the socket |
| `UringPool.UringSet.DisattachUring` | src/libos/src/io_uring.rs:158-166 | takes back exactly one socket from the given ring, without underflow |
| `UringPool.AttachBalanced` | src/libos/src/io_uring.rs:93-156 | by pigeonhole an attach keeps every ring within the rounded-up share of the peak, and below the limit at most one socket in a ring |
| `UringPool.RingLoadBound` | src/libos/src/io_uring.rs:93-166 | over any run of matched attaches and detaches, with any tie break, no ring exceeds the peak number of live sockets divided by the limit, rounded up; the running count is the pool's size and within the limit; counts are the outstanding attaches; below the limit every ring holds at most one socket |
| `UringPool.CountsAreHistory` | src/libos/src/io_uring.rs:38-44 | a ring's registered count is the attaches to it less the detaches |
| `UringPool.PeakIsMax` | src/libos/src/io_uring.rs:93-166 | the peak of the load bound is the greatest number of sockets attached at one time in the run |
| `UringPool.CeilDivExact` | src/libos/src/io_uring.rs:93-166 | the rounded-up quotient of the load bound is the least number of sockets per ring that holds them all |
| `UringPool.NoIdleBuild` | src/libos/src/io_uring.rs:105-125 | without a prefill there are never more rings than the peak of sockets |
| `UringPool.PanicExactly` | src/libos/src/io_uring.rs:73-156 | in every run an attach panics if and only if the limit is zero or the pool was prefilled while rings were running; a detach never does |
| `UringPool.PrefilledTwicePanics` | src/libos/src/io_uring.rs:73-104 | a run with limit 1 that prefills twice, after which an attach panics |
| `BomIncludes.RemoveRedundantItems` | tools/copy_bom/src/bom.rs:727-742 | keeps the first occurrence of each item that is not excluded, in order |
| `BomIncludes.ReverseDedupReverse` | tools/copy_bom/src/bom.rs:612-616 | reversing, keeping first occurrences and reversing back keeps exactly the last occurrences |
| `BomIncludes.Enqueue` | tools/copy_bom/src/bom.rs:596-606 | queues the located includes of one BOM in order, or aborts with the code of the first failure (`IncludesExact` says what these are) |
| `BomIncludes.IncludesExact` | tools/copy_bom/src/bom.rs:596-606 | a file is read exactly if it is a BOM and every name it includes is found; its includes are then all of them in order; a missing file or include aborts with -1, a file that is no BOM with -3 |
| `BomIncludes.Walk` | tools/copy_bom/src/bom.rs:583-611 | the queue-driven loop returns the complete list, or stops at an unreadable file or at the bound |
| `BomIncludes.PrefixOfComplete` | tools/copy_bom/src/bom.rs:583-607 | however far the walk has got, its list is a prefix of the one breadth-first list of the include tree |
| `BomIncludes.FindAllIncludedBomFiles` | tools/copy_bom/src/bom.rs:583-617 | succeeds if and only if the breadth-first list exists with at most 100 entries, and then returns its last occurrences: root first, no duplicates, exactly the reachable BOMs, every BOM before those it includes; a reachable cycle makes it abort; an abort has the code of the unreadable file or of the bound |
| `BomIncludes.IncludeExpansion` | tools/copy_bom/src/bom.rs:583-617 | the result starts with the root, has no duplicates, is exactly the set of BOMs reachable over named and found includes, and lists every BOM before each BOM it names |
| `BomIncludes.CycleForcesAbort` | tools/copy_bom/src/bom.rs:607-611 | with a reachable include cycle there is no complete list, so expansion aborts |
| `BomDedup.PruneList` | tools/copy_bom/src/bom.rs:696-724 | one backward scan keeps an operation exactly if its destination was not seen, and collects the destinations |
| `BomDedup.PruneCopiesFlat` | tools/copy_bom/src/bom.rs:696-724 | eliminating BOM by BOM, files before shared objects, is one backward scan over the copies in order of precedence |
| `BomDedup.CopyEliminationPreservesImage` | tools/copy_bom/src/bom.rs:696-724 | surviving copies have distinct destinations; performed in the order of `manage` they build last-writer-wins over the BOMs, each read as shared objects then files; eliminating again changes nothing |
| `BomDedup.LinkEliminationPreservesImage` | tools/copy_bom/src/bom.rs:643-660 | surviving links have distinct destinations and keep plain last-writer-wins; eliminating again changes nothing |
| `BomDedup.EliminationPreservesImage` | tools/copy_bom/src/bom.rs:620-625 | both passes together preserve both images |
| `BomDedup.EliminationNeeded` | tools/copy_bom/src/bom.rs:424-445 | without elimination some plan builds another image than intended, because files are copied before shared objects |
| `BomDedup.RemoveRedundant` | tools/copy_bom/src/bom.rs:620-625 | the in-place passes leave exactly the pruned plans, whose images are the intended ones |
| `CpuId.CpuIdCache.Insert` | src/libos/src/exception/cpuid.rs:51-56 | stores an answer unless it is all zero |
| `CpuId.UpdateBound` | src/libos/src/exception/cpuid.rs:80-140 | the bound kept by the loop stops it at, and only at, the leaf's largest sub-leaf |
| `CpuId.CpuIdCache.GenerateLeaf` | src/libos/src/exception/cpuid.rs:73-144 | asks for every sub-leaf up to the data-dependent bound, terminates, and overflows only at the largest 32-bit bound |
| `CpuId.CpuIdCache.GenerateCpuidCache` | src/libos/src/exception/cpuid.rs:58-152 | the table holds the processor's answers for exactly the enumerated keys, so that every lookup gives the direct answer; the counter overflows if and only if an enumerated leaf's bound is the largest 32-bit number |
| `CpuId.SubleafOverflows` | src/libos/src/exception/cpuid.rs:74-144 | a processor on which the sub-leaf counter overflows |
| `CpuId.SubleafTableExact` | src/libos/src/exception/cpuid.rs:236-241 | the sub-leaf table lists exactly the leaves that on some processor are enumerated, not skipped, past sub-leaf 0 |
| `CpuId.SubleavesExact` | src/libos/src/exception/cpuid.rs:80-140 | the generator's bound is the last sub-leaf the leaf has: 63 for 0xD, EAX of sub-leaf 0 for 0x7, 0x14, 0x17, 0x18, the highest resource bit for 0xF and 0x10, the first invalid sub-leaf for 0x4, 0xB, 0x12, 0x1B, 0x1F |
| `CpuId.RunsOverExact` | src/libos/src/exception/cpuid.rs:74-144 | generation runs over on a leaf exactly if the leaf is announced and has the greatest 32-bit sub-leaf |
| `CpuId.EnumeratedAnswer` | src/libos/src/exception/cpuid.rs:188-220 | every enumerated key, whatever its answer, is looked up as the processor's answer for that very key |
| `CpuId.CacheAgrees` | src/libos/src/exception/cpuid.rs:188-220 | for every processor and query, lookup gives, by the meaning of each leaf and naming none of the generator's tables: the processor's answer for every sub-leaf the leaf has, also all-zero ones, zeros for others and for leaves not announced, sub-leaf 0 for leaves without sub-leaves, and the highest basic leaf's answer out of range |
| `PalShutdown.CounterExact` | src/pal/src/pal_thread_counter.c:7-30 | in every run the counter is the interrupt thread's reference plus the calls inside their bracket, no decrement goes below zero, and the interrupt thread has not left before stop gave up its reference |
| `PalShutdown.EnclaveExact` | src/pal/src/pal_api.c:145-165 | the enclave exists exactly from its creation to its destruction |
| `PalShutdown.NoEnclaveNoEntry` | src/pal/src/pal_api.c:227-232 | while there is no enclave, a call that has not passed its test never counts itself in |
| `PalShutdown.JoinCompletes` | src/pal/src/pal_interrupt_thread.c:16-45 | when destroy waits for the interrupt thread and nobody is inside, at most two of its steps let the join succeed |
| `PalShutdown.InsideOnlyIfLate` | src/pal/src/pal_interrupt_thread.c:16-82 | after a successful join only a call that counted itself in after the interrupt thread left can be inside |
| `PalShutdown.DestroySafeExactly` | src/pal/src/pal_api.c:278-297 | whether or not join succeeded, nobody is inside when the enclave is destroyed if and only if the counter is then zero |
| `PalShutdown.SafeShutdown` | src/pal/src/pal_api.c:278-297 | if no call is short of its increment when destroy begins, none starts later and join succeeds, nobody is inside when the enclave is destroyed |
| `PalShutdown.DestroyedUnderLateCall` | src/pal/src/pal_api.c:227-237 | a run that destroys the enclave while a call is inside |
| `Env.TrustedEnvs.Combine` | src/libos/src/config.rs:607-633 | user entries, then the defaults whose keys the user does not name |
| `Env.MergeEnv` | src/libos/src/entry.rs:383-432 | trusted entries less the last of each overridden key, then the listed host entries |
| `Env.MergedBindings` | src/libos/src/entry.rs:383-432 | what every key is bound to after both merges, keys unique or not |
| `Env.EnvPrecedence` | src/libos/src/entry.rs:383-432 | a key has exactly the host's bindings if listed and supplied, else the user's, else the default, if and only if it is not overridden or at most one trusted entry binds it |
| `Env.KeyExact` | src/libos/src/entry.rs:402-403 | the key of an entry is the one `=`-free text k such that the entry is k or k=v for some v |
| `Env.TextPrecedence` | src/libos/src/entry.rs:383-432 | in terms of the text k=v: where default and user lists are unambiguous, an entry about k is in the result exactly if it is the host's, when k is listed and the host sets it, else the user's, if the user sets it, else the default's |
| `Env.UniqueKeysPrecedence` | src/libos/src/entry.rs:383-432 | precedence for every key when default keys and user keys are each unique |
| `Env.RepeatedKeySurvives` | src/libos/src/entry.rs:400-404 | a key bound twice by default, whatever the entries, keeps its first entry beside the host's |
| `Env.NoUnlistedHostEntry` | src/libos/src/entry.rs:406-421 | every entry of the result is a default, a user's, or a host entry with a listed key |
| `Env.NoUnlistedText` | src/libos/src/entry.rs:406-421 | an entry k=v with k not listed is in the result only if it is a default or the user's |
| `Codec.WrittenParses` | src/libos/src/config.rs:385-408 | every size written as blanks, optional plus, digits, blanks, unit, blanks is read as number times the unit's power of 1024, with wrap-around or panic past 64 bits, and rejected if the number alone is too wide |
| `Codec.UnitsAreKilos` | src/libos/src/config.rs:386-392 | B, KB, MB, GB, TB are the powers 0 to 4 of 1024 |
| `Codec.ParsedIsWritten` | src/libos/src/config.rs:385-408 | nothing else is accepted |
| `Codec.SizeRoundTrip` | tools/gen_internal_conf/src/main.rs:561-565 | a size printed in decimal plus `B` is read back as itself if it fits 64 bits, and rejected otherwise |
| `Codec.DecimalPlain` | tools/gen_internal_conf/src/main.rs:561-565 | a printed size has no leading zero |
| `Codec.SizesAcrossTools` | tools/gen_internal_conf/src/main.rs:597-626 | whatever size the generator accepts, its printed form is the same size to the LibOS |
| `Codec.PrintMac` | tools/protect-integrity/Enclave/Enclave.cpp:33-40 | the bytes as two lower-case hexadecimal digits joined by dashes, then a newline |
| `Codec.MacTextPlain` | tools/protect-integrity/Enclave/Enclave.cpp:33-40 | a printed MAC holds only lower-case hexadecimal digits and dashes |
| `Codec.ParseMac` | src/libos/src/config.rs:72-86 | accepts exactly texts of sixteen parts that are all hexadecimal bytes, and returns those bytes; distinguishes a wrong number of parts from a bad part |
| `Codec.UpperCaseParses` | src/libos/src/config.rs:80-84 | a byte is read the same in upper case |
| `Codec.MacTextParts` | tools/protect-integrity/Enclave/Enclave.cpp:33-40 | printed bytes take three characters each less one and split back into parts that denote them |
| `Codec.MacRoundTrip` | src/libos/src/config.rs:62-86 | a printed MAC without its newline has 47 characters and denotes those bytes and no others |

## Left out

- Weak memory ordering: all atomic accesses are sequentially consistent.
- Update in place of the concurrent components: `waiter_queue.rs`, `channel.rs`, `poller.rs` and the PAL files are transition systems over values, not classes, because their results are about interleavings.
- The ring buffer crate, host eventfds, futexes and SGX calls are small contracts: a bounded sequence, a readable flag, a wait that may return at any time.
- Callbacks of outside observers: the notifier hands them the event and they do nothing to the channel.
- Dropping an endpoint is a shutdown call; failure to reach a dropped peer's notifier is not modelled.
- `Channel::poll`, `items_to_consume`, `ready_len` and other read-only queries of the channel.
- In the poller model the edge-triggered waiter is one flag; its state word and eventfd are modelled on their own in `EdgeWaiter`, for one waiting thread.
- `poll` without a poller, which registers nothing.
- Failure to create an io_uring, its thread, and the 32-bit width of its counters.
- Initialising the PAL again after it was destroyed.
- `remove_redundant_mkdir` and `remove_redundant_copydir`: a set of directories, and directory merges whose meaning is not last-writer-wins.
- ELF dependencies, hashes, rsync and YAML parsing of `copy_bom`; reading and locating BOM files are parameters.
- The processor's CPUID instruction is a function of leaf and sub-leaf; its two range leaves are parameters.
- Environment entries that are not UTF-8, which make the LibOS panic.
- Demos, the gRPC exec client and server, block devices, base64 decoding, exception dispatch, system call emulation, JSON plumbing, process launch.
