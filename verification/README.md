# Verified model of the State Threads core and the streaming-server utilities

This project models, in Dafny, the parts of the repository where a mistake would be
hardest to see, and proves what they promise. `dafny verify dfyconfig.toml` checks all
of it.

**State Threads (`state-threads/`).** A cooperative scheduler: threads, a FIFO run queue,
a timeout heap, an io queue, wait queues of condition variables and mutexes, a zombie
queue, and an idle thread that dispatches io and expires timeouts.

- `HeapLayout` gives the heap as a sequence in position order, with what insertion and
  deletion of any member do to it; `TimeoutHeap` is the heap as the code has it, threads
  linked by `left` and `right` and addressed by the bits of `heap_index`, and refines it.
- `PollSets`, `SelectBackend`, `PollBackend` and `EpollBackend` are the io queue and the
  three event systems, as classes whose bookkeeping equals a recount over the io queue;
  `BackendAgreement` runs them side by side. `Timeouts` has the waits they pass on.
- `Scheduler` specifies every call as a step up to the next context switch and a
  resumption after it. `SchedulerInvariant`, `SchedulerSteps` and `SchedulerRuns` prove
  the agreement of states, flags and queues over every interleaving;
  `SchedulerTheorems`, `SchedulerSync`, `CondTheorems`, `SleepTheorems` and
  `UntimedTheorems` prove what follows for the clock, the order of running, mutexes,
  condition variables, sleeps and polls over whole runs. `CallTheorems`,
  `DispatchTheorems` and `IdleTheorems` say exactly what each call, resumption and idle
  turn does, in terms of the queues and records before it; `DeadlineTheorems` follows the
  clock and every deadline through a run. `Processor` is the virtual processor itself: it
  owns the pointer heap (through `HeapNames`) and one of the three event systems (through
  `EventSystems`); `Perform` refines every step and `PerformAll` every run.
- `VectorIO` and `VectorRead` are the vectored write and read loops.

**Tasks.** `EventWord` has the 32-bit event word and the atomic operations on it,
`TaskProtocol` the protocol of any number of signallers and pool threads, with one step
for each atomic operation. `TaskTheorems` has the effect of each step, the order of the
queues and the delays.

**Utilities.** `FileCache` is the LRU block cache of a file source; `OSQueue` the
intrusive circular list; `HashIndex` and `RefTable` the chained hash table and the
reference table on it; `UrlTranslator` and `Base64` the two codecs, and `UrlTheorems`
what decoding and encoding a URL mean in terms of its segments.

`SeqFacts` and `MachineTypes` hold facts and types that several modules share.

Results about the code that its comments do not tell:

- The poll and epoll dispatch convert the wait to an `int` of milliseconds. A sleeper that
  is due in 2^31 milliseconds or so makes the number negative and the wait endless.
  `Timeouts.PollOversleepsIff` says exactly when.
- The select dispatch converts the seconds to an `int`. A sleeper that is due in 2^31
  seconds or so makes `select` fail with EINVAL, and while it is the root of the heap no
  io is served at all; `Timeouts.SelectFailsIff` says exactly when. So select agrees with
  poll and epoll only outside of these waits (`BackendAgreement.DispatchAll`, with
  `LongSleeperStopsSelect` as an input).
- `FileMap::IncMaxBuffers` adds 32-bit numbers and may reach 0, after which the pool has
  no buffer and the next cached read uses a null pointer. `FileCache.WatchedIff` says
  exactly which histories fail, `LimitWraps` gives one.
- `FileMap::AllocateBufferMap` resets the unit size before it uses it, so the unit that is
  asked for only takes part in computing how many units a block has.
- `AllocateBufferMap` also divides by zero when the block size, or a unit that is needed,
  is 0 as a 32-bit number. `FileCache.CanAllocate` is the exact condition on the
  arguments, `SomeParameters` has inputs.
- `EncodeURL` writes a single hexadecimal digit and a terminator for tab, CR and LF, which
  the decoder refuses. `UrlTranslator.RoundTripIff` has the exact condition, `TabIsLost`
  an input.
- `EncodeURL` lets `sprintf` write its terminator one character behind a buffer that a
  two-digit encoding fills exactly. The contract of `UrlTranslator.EncodeURL` has the
  exact condition, `SpaceOverruns` an input.
- When a query follows a path that ends in "." or "..", `DecodeURL` keeps that segment and
  cuts the end of the query off instead. `UrlTheorems.QueryMeans` says what it does for
  every path and query, `QueryIsWholeIff` when the query stays whole, `QueryIsCut` has an
  input.
- After ERR or HUP on a descriptor, epoll reports everything that was asked for on it and
  poll only what is ready; otherwise they agree (`BackendAgreement.PollAndEpollAgree`).

In the wait queues of `Scheduler`, `woke` notes on a waiting thread why it was woken. It is
a history field: no step reads it.

## Model

| member | source | states |
|---|---|---|
| HeapLayout.ShrIsAncestor | state-threads/sched.c:351-367 | Reading the bits of a heap index from the leading one down visits ancestor positions only, starting at the root: why the walk by bits finds the position that is wanted |
| HeapLayout.InsertOrders | state-threads/sched.c:339-372 | An insertion keeps every parent due no later than its children |
| HeapLayout.DeleteOrders | state-threads/sched.c:378-448 | Deleting the entry at any position keeps the heap in order, although the replacement is first pushed down from the root and then repaired downwards |
| HeapLayout.InsertMembers | state-threads/sched.c:339-372 | An insertion adds exactly the new entry, as a multiset |
| HeapLayout.DeleteMembers | state-threads/sched.c:378-448 | A deletion removes exactly the entry at that position, as a multiset |
| HeapLayout.InsertMovesLater | state-threads/sched.c:339-372 | An insertion moves only entries that are due later: one that is due at the same time or before keeps its place |
| HeapLayout.RootIsMin | state-threads/sched.c:467-497 | In an ordered heap nobody is due before the root |
| HeapLayout.PopDueIsExact | state-threads/sched.c:467-497 | Popping while the root is due yields exactly the entries due at that time, in nondecreasing due order; what is left is a heap of entries due later |
| HeapLayout.ReplayKeepsHeap | state-threads/sched.c:339-464 | After any sequence of insertions and deletions of any member the heap is in order and holds exactly what was inserted and not deleted |
| TimeoutHeap.SleepQueue.Descend | state-threads/sched.c:360-366 | The walk over the pointers follows the bits of the target position; each step goes one position down towards it |
| TimeoutHeap.SleepQueue.HeapInsert | state-threads/sched.c:339-372 | The walk over pointer-to-pointer links leaves exactly the linked tree whose layout is the pure insertion, with every `heap_index` equal to its position |
| TimeoutHeap.SleepQueue.UnlinkLast | state-threads/sched.c:383-399 | The last thread is found by the bits of the size and unlinked; the other threads stay linked as the shorter layout |
| TimeoutHeap.SleepQueue.Exchange | state-threads/sched.c:424-441 | Exchanging a thread with a child swaps the two entries of the layout and nothing else, by relinking only |
| TimeoutHeap.SleepQueue.Repair | state-threads/sched.c:413-445 | The repair loop, started at any position, yields the layout of the pure sift-down |
| TimeoutHeap.SleepQueue.HeapDelete | state-threads/sched.c:378-448 | Deleting any linked thread leaves the linked tree of the pure deletion, and exactly the other threads in it |
| TimeoutHeap.SleepQueue.AddSleepQ | state-threads/sched.c:451-457 | The thread is in the heap, due at the last clock plus its timeout, the flag is set, the tree is valid and nobody else entered or left |
| TimeoutHeap.SleepQueue.DelSleepQ | state-threads/sched.c:460-464 | The thread is out of the heap, its flag is cleared, the tree is valid and everybody else stays |
| Timeouts.RootBoundsAll | state-threads/event.c:320-328 | A wait suits every sleeper if and only if it suits the root of the heap |
| Timeouts.SelectNeverOversleeps | state-threads/event.c:320-328 | The wait that the select dispatch passes on is at most due minus last clock for every sleeper, 0 for one that is overdue |
| Timeouts.SelectFailsIff | state-threads/event.c:320-331 | `select` gets a negative second count, for which it fails with EINVAL, if and only if the root of the heap is due in a number of seconds with bit 31 set |
| Timeouts.WaitsAreExact | state-threads/event.c:320-331 | Unless the number overflows, `select` gets exactly the time until the first sleeper is due (0 if it is overdue), poll and epoll the same to the millisecond, and no limit if nobody sleeps |
| Timeouts.PollOversleepsIff | state-threads/event.c:526-532 | Poll and epoll oversleep nobody if and only if the wait in milliseconds, cast to a 32-bit integer, does not come out negative |
| Timeouts.LongSleeperOversleeps | state-threads/event.c:1238-1244 | A concrete sleeper for which poll and epoll wait without limit |
| PollSets.DispatchIgnoresReports | state-threads/event.c:336-398 | What a dispatch wakes and keeps depends on the requests only, not on reports left over from an earlier dispatch |
| PollSets.NothingFires | state-threads/event.c:330-334 | If nothing that is asked for is ready, a dispatch wakes nobody and changes nothing |
| PollSets.CountWithout | state-threads/event.c:206-224 | Taking an element off the io queue lowers each recount by exactly what the element asked for |
| SelectBackend.Select.PollsetAdd | state-threads/event.c:172-204 | A pollset is refused if and only if a descriptor is out of range or asks for nothing or for unknown events, and then nothing changes; otherwise counts, `fd_set` bits and the `maxfd` bound equal a recount that includes it |
| SelectBackend.Select.PollsetDel | state-threads/event.c:206-225 | Counts and bits equal a recount of the descriptors that stay |
| SelectBackend.Select.Enqueue | state-threads/event.c:172-203 | The bookkeeping stays equal to a recount over the io queue when an element is added |
| SelectBackend.Select.Withdraw | state-threads/event.c:206-224 | The bookkeeping stays equal to a recount over the io queue when an element that timed out is taken off |
| SelectBackend.Select.KernelSees | state-threads/event.c:330-353 | The three result sets of `select` contain everything ready that an element of the io queue asks for: the `maxfd` bound hides nothing |
| SelectBackend.Select.Dispatch | state-threads/event.c:296-407 | Exactly the elements with something ready are woken, in queue order, with the right reports; the rest stay with their requests; the bookkeeping equals a recount again. When `select` fails for its timeout, nobody is woken, whatever is ready |
| PollBackend.Poll.PollsetAdd | state-threads/event.c:472-487 | Refused without a change if and only if a descriptor is negative or asks for nothing; otherwise the total grows by the size of the pollset |
| PollBackend.Poll.Gather | state-threads/event.c:518-524 | All descriptors of the io queue are in the array, in queue order |
| PollBackend.Poll.ServeTurn | state-threads/event.c:540-561 | Each element reads back its own slice of the array, wherever the slice starts |
| PollBackend.Poll.Dispatch | state-threads/event.c:496-563 | For every readiness, with ERR, HUP and NVAL: exactly the elements with something to report are woken, in queue order, with the right reports; the rest stay; the total is the sum over the io queue again |
| EpollBackend.WaitMissesNothing | state-threads/event.c:1267-1269 | When the event array has room for all registrations, `epoll_wait` misses no descriptor that has events |
| EpollBackend.Epoll.KernelIsRecount | state-threads/event.c:1169-1225 | The kernel registrations are exactly the descriptors that the io queue asks about, each with the union of the requests |
| EpollBackend.Epoll.PollsetAdd | state-threads/event.c:1169-1225 | A pollset is accepted if and only if every descriptor is valid, asks for something and for known events only, and is registered already if the kernel refuses it; when it is refused, counts, registrations and their number are what they were before the call, otherwise all of them equal a recount that includes the pollset |
| EpollBackend.Epoll.PollsetDel | state-threads/event.c:1129-1167 | Counts, registrations and their number equal a recount of the descriptors that stay, except where events are still to be reported |
| EpollBackend.Epoll.ExpandEvtlist | state-threads/event.c:1113-1127 | The event array has room for all registrations afterwards |
| EpollBackend.Epoll.ExpandFdData | state-threads/event.c:1091-1111 | The table covers the descriptor afterwards and the counts and registrations are as they were |
| EpollBackend.NotedTells | state-threads/event.c:1275-1303 | What is noted for a registered descriptor, widened by everything registered after an error, tells each request its reports: what is ready of it, or all of it and the error |
| EpollBackend.Epoll.NotedAll | state-threads/event.c:1271-1308 | However `epoll_wait` orders its answer, errors included, the table then tells each element what to report |
| EpollBackend.Epoll.Clear | state-threads/event.c:1326-1338 | After the last loop the registrations equal a recount for every descriptor again |
| EpollBackend.Epoll.Dispatch | state-threads/event.c:1227-1340 | For every readiness, with ERR and HUP: exactly the elements with something to report are woken, in queue order, with the right reports; the rest stay; counts, registrations and their number equal a recount over the io queue |
| BackendAgreement.EnqueueAll | state-threads/event.c:172-203 | A pollset that select accepts is accepted and added by all three, and the io queues stay the same |
| BackendAgreement.WithdrawAll | state-threads/event.c:206-224 | The three io queues stay the same when a poll times out |
| BackendAgreement.DispatchAll | state-threads/event.c:1227-1340 | For every error-free readiness and every order of the `epoll_wait` answer, poll and epoll wake the same elements in the same order with the same reports, and leave the same io queue; select does the same if and only if the root of the heap is not due in a number of seconds with bit 31 set, or nobody is to be woken |
| BackendAgreement.LongSleeperStopsSelect | state-threads/event.c:320-331 | A concrete sleeper, due in 2^31 seconds, and a concrete pollset that poll wakes and select does not |
| BackendAgreement.PollAndEpollAgree | state-threads/event.c:1227-1340 | For every readiness without NVAL, errors and hang-ups included, poll and epoll wake the same elements in the same order and keep the same; epoll's reports are poll's, and all that was asked for on a descriptor with ERR or HUP |
| BackendAgreement.DispatchBoth | state-threads/event.c:496-563 | The same for the two event systems themselves, with their bookkeeping intact |
| BackendAgreement.ErrorFreeAgree | state-threads/event.c:296-407 | Without errors the three answers report the same |
| HeapNames.NamedInsert | state-threads/sched.c:339-372 | An insertion commutes with reading the heap of linked records as a heap of thread names |
| HeapNames.NamedDelete | state-threads/sched.c:378-448 | So does a deletion at any position |
| EventSystems.EventSystem.Enqueue | state-threads/sched.c:74-81 | Whichever of the three event systems is chosen, an accepted pollset is at the end of its io queue and a refused one changes nothing; what is accepted follows from the requests on the io queue and, for epoll, from what the kernel refuses to register |
| EventSystems.RegisteredIsRequested | state-threads/event.c:1188-1213 | Whether epoll accepts a pollset, although that depends on the registrations in the kernel, can be told from the io queue |
| EventSystems.EventSystem.WithdrawThread | state-threads/sched.c:89-93 | The element of a thread that timed out or was interrupted is off the io queue of the chosen event system, and the others keep their order |
| EventSystems.EventSystem.Dispatch | state-threads/event.c:296-407 | Whichever event system is chosen, its dispatch wakes the elements that the kernel's answer reports on, in queue order, keeps the others, and passes on the wait for the root of the heap; when `select` fails for that wait, its answer is that nothing is ready |
| Processor.IndexIsPos | state-threads/sched.c:460-464 | The heap index in a thread record is where the thread is in the heap of names |
| Processor.VirtualProcessor.AddToSleepQ | state-threads/sched.c:451-457 | Linking the record into the pointer heap puts exactly that thread, with its deadline, into the specification's heap |
| Processor.VirtualProcessor.DeleteFromSleepQ | state-threads/sched.c:460-464 | Unlinking the record, found by its own heap index, takes exactly that thread out of the specification's heap |
| Processor.VirtualProcessor.StPoll | state-threads/sched.c:60-86 | On a real event system and heap: a pollset that the event system does not take changes nothing; one that it takes is on the io queue, the caller in the heap and in IO_WAIT, and the next thread runs |
| Processor.VirtualProcessor.PollAfterSwitch | state-threads/sched.c:88-108 | An element still on the event system's io queue is withdrawn from it; otherwise the descriptors with reports are counted |
| Processor.VirtualProcessor.StCondSignal | state-threads/sync.c:224-244 | The loop along the wait queue wakes the first thread in COND_WAIT, or every one for a broadcast, and takes it out of the pointer heap |
| Processor.VirtualProcessor.StMutexUnlock | state-threads/sync.c:329-354 | The loop along the wait queue hands the mutex to the first thread in LOCK_WAIT, or frees it |
| Processor.VirtualProcessor.Dispatch | state-threads/event.c:336-398 | The dispatch of any event system, followed by waking its elements in order, has the effect of the specification's loop, which wakes inside the loop; the wait in the kernel is the one for the whole heap |
| Processor.VirtualProcessor.CheckTheClock | state-threads/sched.c:467-497 | Popping roots off the pointer heap while they are due has the effect of expiring all due threads |
| Processor.VirtualProcessor.Perform | state-threads/sched.c:60-128 | Every call, resumption and idle turn on linked heap records and on any of the three event systems is a step of the specification and keeps its invariant, so that all results about its runs hold of the implementation; the verdict on a poll and what a dispatch sees are those of the event system |
| Processor.VirtualProcessor.PerformAll | state-threads/sched.c:60-128 | From a state in order, a whole run of calls on the implementation, whatever the kernel answers, ends in the state of the specification's run, with the same outcome of every call |
| DispatchTheorems.ServeIoWakes | state-threads/event.c:336-398 | Waking inside the loop over the io queue is the same as first taking all notified elements off and then waking their threads in order |
| SchedulerSteps.ScheduleKeeps | state-threads/sched.c:111-128 | Whatever is picked is RUNNABLE, the idle thread is picked only when the run queue is empty, and afterwards exactly that thread runs |
| SchedulerRuns.DispatchFindsWaiters | state-threads/sched.c:216-229 | When the idle thread runs, every thread on the io queue is still in IO_WAIT, so one that timed out or was interrupted is never made runnable a second time |
| SchedulerRuns.JoinEndsAtOnce | state-threads/sched.c:295-298 | A join that was signalled and not interrupted finds a zombie and does not wait again |
| SchedulerRuns.NobodyWaits | state-threads/sched.c:239-272 | When a joined thread goes on, nobody is left on its termination variable, so destroying it succeeds |
| SchedulerRuns.StepKeeps | state-threads/sched.c:60-128 | Every call, resumption and idle turn (whatever the kernel answers to whichever event system), at every point where control can change hands, keeps the agreement of states, flags, queues, mutexes and joins |
| SchedulerRuns.RunKeeps | state-threads/sched.c:60-128 | The agreement holds after every interleaving of calls |
| SchedulerTheorems.ReachableStatesAgree | state-threads/sched.c:216-312 | In every reachable state: RUNNABLE and not idle if and only if on the run queue, and once; ZOMBIE if and only if on the zombie queue; ON_SLEEPQ if and only if in the heap, and then in IO_WAIT, COND_WAIT or SLEEPING; the TIMEDOUT flag only on a thread on a condition queue that is RUNNABLE or runs; the idle thread never on the run queue; the active count is the number of live threads |
| CallTheorems.PollCall | state-threads/sched.c:60-86 | `st_poll` as it is called: EINTR and nothing but the flag cleared if and only if an interrupt is pending; refused without a change if the pollset is; otherwise the caller is last on the io queue, in the heap until the last clock reading plus its timeout (and nothing is added without one), in IO_WAIT, and the head of the run queue runs |
| CallTheorems.SleepCall | state-threads/sync.c:115-131 | `st_usleep` as it is called: EINTR if and only if an interrupt is pending; otherwise SLEEPING with its deadline in the heap, or SUSPENDED without one |
| CallTheorems.WaitCall | state-threads/sync.c:180-198 | `st_cond_timedwait` as it is called: EINTR if and only if an interrupt is pending; otherwise the caller is last on the wait queue of the variable, in COND_WAIT, with a heap entry at the last clock reading plus its timeout, and none if it has no timeout |
| CallTheorems.SignalCall | state-threads/sync.c:224-244 | A broadcast makes every thread on the queue that is in COND_WAIT runnable, a signal the first such thread; these and no others are at the tail of the run queue, in queue order, and out of the heap |
| CallTheorems.LockCall | state-threads/sync.c:290-312 | `st_mutex_lock` as it is called: EINTR if and only if an interrupt is pending; else 0 with the caller as the owner if and only if the mutex is free; else EDEADLK without a change if and only if the caller owns it; else the caller is in LOCK_WAIT at the tail of its queue |
| CallTheorems.TryLockCall | state-threads/sync.c:357-368 | `st_mutex_trylock`: 0 with the caller as the owner if and only if the mutex is free, else EBUSY without a change |
| CallTheorems.UnlockCall | state-threads/sync.c:329-354 | `st_mutex_unlock`: EPERM without a change if and only if the caller is not the owner; otherwise 0, and the mutex goes to the first thread on its queue that is in LOCK_WAIT, which is runnable then, or is free if there is none |
| CallTheorems.LockGoesOnWith | state-threads/sync.c:314-325 | `st_mutex_lock` goes on: off the queue, and 0 if the mutex was handed over, when an interrupt stays pending; otherwise EINTR and the interrupt is taken |
| CallTheorems.CreateCall | state-threads/sched.c:520-614 | A new thread is RUNNABLE at the tail of the run queue and counts as active; a joinable one has a new termination variable |
| CallTheorems.ExitCall | state-threads/sched.c:239-272 | The exit of a thread that cannot be joined: it is gone, no longer active, and the next one runs |
| CallTheorems.JoinableExitCall | state-threads/sched.c:239-262 | The exit of one that can: it is on the zombie queue, and who waits for its end is runnable and out of the heap |
| CallTheorems.ExitGoesOn | state-threads/sched.c:262-272 | When it has been joined, its termination variable is destroyed and it is gone |
| CallTheorems.JoinCall | state-threads/sched.c:275-298 | `st_thread_join` as it is called: EINVAL, EDEADLK, EINTR, a zombie collected at once, or a wait, each exactly when the code has it |
| CallTheorems.JoinGoesOn | state-threads/sched.c:295-312 | When it goes on it was interrupted, or the thread has ended, is taken off the zombie queue and made runnable to end for good |
| CallTheorems.InterruptCall | state-threads/sched.c:500-517 | A zombie is left alone; a thread that runs or is RUNNABLE is flagged only; any other, in IO_WAIT, COND_WAIT (a join included), LOCK_WAIT, SLEEPING or SUSPENDED, is flagged, out of the heap and at the tail of the run queue |
| CallTheorems.ObjectCalls | state-threads/sync.c:154-177 | New condition variables and mutexes have no waiters and no owner; one is destroyed unless somebody waits on it or owns it, when the result is EBUSY |
| CallTheorems.PollGoesOn | state-threads/sched.c:88-107 | `st_poll` goes on: EINTR if and only if an interrupt is pending, otherwise the exact number of descriptors with something reported, 0 if it was not woken by a dispatch, when its element leaves the io queue |
| CallTheorems.SleepGoesOn | state-threads/sync.c:133-139 | `st_usleep` goes on: EINTR if and only if an interrupt is pending, which is taken, otherwise 0 |
| CallTheorems.WaitGoesOn | state-threads/sync.c:200-214 | `st_cond_timedwait` goes on: off the wait queue, both flags taken, EINTR before ETIME before 0 |
| IdleTheorems.IdleCall | state-threads/sched.c:216-229 | The whole effect of a turn of the idle thread: the reading is stored as the last clock; exactly the threads with something to report leave the io queue, with their reports, and exactly those due leave the heap; they are runnable in this order; the timed-out flag is set on those that waited on a condition variable; nobody else is touched |
| IdleTheorems.ExpiryIsExact | state-threads/sched.c:467-497 | The clock check alone: exactly the due threads leave the heap, in due order, each with the record of a thread that is late |
| DeadlineTheorems.ClockIsRead | state-threads/sched.c:467-475 | After a turn of the idle thread the last clock is the reading of that turn, and no other event moves it |
| DeadlineTheorems.ClockOfRun | state-threads/sched.c:467-475 | In every run the last clock is what the last idle turn read, or the start time |
| DeadlineTheorems.DeadlineOfRun | state-threads/sched.c:451-457 | In every run the deadline of a sleep, a poll or a timed wait is the reading of the last idle turn plus the timeout |
| DeadlineTheorems.DueLeaves | state-threads/sched.c:477-495 | A turn of the idle thread that reads a clock not before a deadline takes that thread out of the heap |
| DeadlineTheorems.DeadlinesAreMet | state-threads/sched.c:467-497 | In every run, once an idle turn has read a clock not before its deadline, a thread that was in the heap may go on or does: no timeout is dropped, whatever the other threads do |
| DeadlineTheorems.WaitBegins | state-threads/sync.c:188-198 | How a timed wait begins: last on the queue of the variable, in COND_WAIT, in the heap with its deadline |
| DeadlineTheorems.WaitsUntilDeadline | state-threads/sync.c:180-214 | In every run, until an idle turn reads a clock not before the deadline, a timed wait that is neither signalled nor interrupted goes on |
| DeadlineTheorems.TimedWaitResult | state-threads/sync.c:200-214 | In every run, a timed wait returns EINTR if and only if an interrupt came before it went on, otherwise 0 if and only if it was signalled, otherwise ETIME, and then an idle turn has read a clock not before its deadline |
| SchedulerTheorems.CheckClockIsExact | state-threads/sched.c:467-497 | Exactly the threads that are due go to the run queue tail, earliest first; only threads due later stay in the heap; that the reading is stored is `DeadlineTheorems.ClockIsRead` |
| SchedulerTheorems.ServeIoIsDispatch | state-threads/event.c:336-398 | The scheduler's dispatch wakes exactly the threads that the backends report, with those reports, in that order |
| SchedulerTheorems.IdleTurnOrder | state-threads/sched.c:216-229 | A turn of the idle thread puts the threads with io first, in io queue order, then the due ones, earliest first |
| SchedulerTheorems.RunsInQueueOrder | state-threads/sched.c:111-128 | No starvation: in every run the k-th context switch goes to the thread that is at position k of the run queue now |
| SchedulerSync.OwnerStays | state-threads/sync.c:290-368 | No barging: an owner keeps the mutex until it unlocks it itself; no lock, trylock, interrupt, timeout or destroy takes it away |
| SchedulerSync.AcquirerOwns | state-threads/sync.c:290-326 | When lock or trylock returns 0 the caller owns the mutex, and before that nobody else did; when they return 0 is `CallTheorems.LockCall` and `CallTheorems.TryLockCall` |
| SchedulerSync.MutualExclusion | state-threads/sync.c:290-368 | In every run, judged by return values alone, at most one thread holds the mutex, and that one is the owner |
| SchedulerSync.HandOverToFirst | state-threads/sync.c:329-354 | Unlock hands the mutex to the earliest-queued thread still in LOCK_WAIT, and frees it only if there is none |
| SchedulerSync.LockResult | state-threads/sync.c:317-325 | A waiter that goes on gets 0 if and only if the mutex was handed to it; otherwise it was interrupted and is not the owner |
| CondTheorems.SignalWakesFirst | state-threads/sync.c:224-244 | One signal wakes exactly the first thread in COND_WAIT in queue order and touches no other thread |
| CondTheorems.NotesAreTrue | state-threads/sync.c:180-244 | In every step the recorded reason for which a waiter was woken is kept or set truly, and only an interrupt sets the interrupt flag |
| CondTheorems.WaitResult | state-threads/sync.c:200-214 | A wait that blocked returns 0 if and only if a signal or broadcast woke it and no interrupt came before it resumed; ETIME if it timed out while it still waited; otherwise EINTR; that a timed wait has its deadline is `DeadlineTheorems.WaitBegins` |
| SleepTheorems.SleepBegins | state-threads/sync.c:115-131 | A sleeping caller is in the heap, due at the last clock plus its time |
| SleepTheorems.SleepResult | state-threads/sync.c:133-139 | In every run, `st_usleep` returns EINTR if and only if an interrupt came before it resumed, otherwise 0, and then a clock reading not before its deadline was made: no sleeper returns early |
| SleepTheorems.PollBegins | state-threads/sched.c:74-86 | A polling caller with a timeout is in the heap, due at the last clock plus its timeout |
| SleepTheorems.PollResult | state-threads/sched.c:86-107 | In every run, `st_poll` with a timeout returns EINTR if and only if an interrupt came before it resumed; otherwise a positive count if a dispatch reported on it, and else 0, but only after a clock reading not before its deadline |
| UntimedTheorems.UntimedSleepResult | state-threads/sync.c:133-139 | In every run, `st_usleep` without a timeout goes on after an interrupt only, and returns EINTR |
| UntimedTheorems.UntimedPollResult | state-threads/sched.c:86-107 | In every run, `st_poll` without a timeout returns EINTR if and only if an interrupt came before it resumed, and otherwise a positive count, after a dispatch reported on it |
| UntimedTheorems.StepParks | state-threads/sched.c:74-86 | Nothing but an interrupt or a report ends a wait without a timeout: no signal, exit, idle turn or call of another thread does |
| SleepTheorems.WaitsUntilDue | state-threads/sched.c:467-497 | Until its deadline is read off the clock, only an interrupt or a report takes a timed thread out of the heap, whatever the other threads do |
| VectorIO.Pass | state-threads/io.c:652-660 | Vectors written in full, empty ones included, are emptied and passed; the rest still describe exactly the unsent bytes |
| VectorIO.WritevResid | state-threads/io.c:636-672 | For every sequence of partial counts, EINTR, would-block and errors: the accepted bytes followed by what the residual vectors describe are the original bytes; success means that nothing is left |
| VectorIO.WriteResid | state-threads/io.c:535-548 | The accepted bytes are the buffer without its last `resid` bytes |
| VectorIO.Write | state-threads/io.c:551-557 | A prefix of the buffer is sent, and all of it when the result is its length |
| VectorIO.FindUnsent | state-threads/io.c:596-599 | The vector found, less the part that was written, and the vectors after it describe exactly the unsent suffix |
| VectorIO.Rearrange | state-threads/io.c:596-620 | The copied vectors fit the array chosen by the first partial write and describe exactly the unsent suffix; the caller's vectors do not change |
| VectorIO.Writev | state-threads/io.c:560-633 | The accepted bytes are a prefix of the concatenated vectors, each byte once and in order, and all of them when the call succeeds |
| VectorRead.StoredAt | state-threads/io.c:485-523 | At distinct addresses every byte that was read is found at its address, and no other address changes |
| VectorRead.ReadvResid | state-threads/io.c:485-523 | The bytes taken from the stream are stored at the addresses of the vectors in order; the residual vectors describe exactly the addresses not filled; success means all filled or end of stream |
| VectorRead.ReadResid | state-threads/io.c:451-464 | What is left of the buffer is exactly the part that was not filled |
| EventWord.SubBitsIsSubtraction | FrameWork/CommonUtilitiesLib-linux-windows/atomic.cpp:32-42 | The bitwise subtraction used in the proofs is subtraction modulo the word size |
| EventWord.NoBorrow | FrameWork/CommonUtilitiesLib-linux-windows/Task.cpp:84-91 | Subtracting bits that are all set never borrows: it clears exactly those bits |
| EventWord.SubClears | FrameWork/CommonUtilitiesLib-linux-windows/Task.cpp:84-91 | Subtracting reported events leaves the alive bit and every other event |
| EventWord.AtomicWord.GetEvents | FrameWork/CommonUtilitiesLib-linux-windows/Task.cpp:84-91 | Undisturbed, all events are returned and cleared and the alive bit stays |
| EventWord.AtomicWord.CompareAndStore | FrameWork/CommonUtilitiesLib-linux-windows/atomic.cpp:54-66 | The word is replaced if and only if it has the expected value |
| TaskProtocol.SignalWord | FrameWork/CommonUtilitiesLib-linux-windows/Task.cpp:93-103 | The atomic or in `Task::Signal`, on the word itself, is the step of the protocol, and whoever finds the alive bit clear carries the task |
| TaskProtocol.ReportWord | FrameWork/CommonUtilitiesLib-linux-windows/Task.cpp:84-91 | The subtraction in `Task::GetEvents`, on the word itself, is the step of the protocol, whatever was signalled since the read |
| TaskProtocol.FinishWord | FrameWork/CommonUtilitiesLib-linux-windows/Task.cpp:273-282 | The compare-and-store after `Run` is the step of the protocol, and succeeds if and only if the thread is done with the task |
| TaskProtocol.SubIsExact | FrameWork/CommonUtilitiesLib-linux-windows/Task.cpp:84-91 | The subtraction in `GetEvents` clears the reported events and nothing else, whatever was signalled between its read and its subtraction |
| TaskProtocol.StepFits | FrameWork/CommonUtilitiesLib-linux-windows/Task.cpp:195-356 | Each atomic step moves a task from its one place to the one place that the step says, with the alive bit and snapshots in step; until when a timed task stays there is `TaskTheorems.DelayIsKept` |
| TaskProtocol.StepKeeps | FrameWork/CommonUtilitiesLib-linux-windows/Task.cpp:93-153 | Every step of every signaller and pool thread keeps each task in exactly one place |
| TaskProtocol.OnePlaceEach | FrameWork/CommonUtilitiesLib-linux-windows/Task.cpp:195-356 | In every interleaving a live task is in exactly one place, alive bit set if and only if that place is not dormant, and a dormant task has no events |
| TaskProtocol.RunIsNotReentered | FrameWork/CommonUtilitiesLib-linux-windows/Task.cpp:210-237 | Two pool threads never have the same task |
| TaskProtocol.NotQueuedTwice | FrameWork/CommonUtilitiesLib-linux-windows/Task.cpp:317-349 | A task is on no queue twice and on one queue at most |
| TaskProtocol.EventsMeanWork | FrameWork/CommonUtilitiesLib-linux-windows/Task.cpp:273-282 | A live task with an event set is not dormant: an event that comes in as `Run` returns is not forgotten |
| TaskProtocol.NothingIsLost | FrameWork/CommonUtilitiesLib-linux-windows/Task.cpp:84-153 | Along every interleaving the events in the word are exactly those signalled and not yet returned by `GetEvents` |
| TaskTheorems.SignalSteps | FrameWork/CommonUtilitiesLib-linux-windows/Task.cpp:93-153 | A signal sets the bits and the alive bit and nothing else; who found the alive bit clear carries the task and puts it at the tail of one queue, any other does nothing more |
| TaskTheorems.TakingSteps | FrameWork/CommonUtilitiesLib-linux-windows/Task.cpp:317-349 | What runs next is the head of the queue, or a task whose time has come, which leaves the heap |
| TaskTheorems.GetEventsSteps | FrameWork/CommonUtilitiesLib-linux-windows/Task.cpp:84-91 | All events that are set are reported, and exactly these are cleared |
| TaskTheorems.ReturnStep | FrameWork/CommonUtilitiesLib-linux-windows/Task.cpp:238-290 | A negative result of `Run` ends the task, 0 leads to the compare-and-store, and a positive one puts the task into the heap of its thread, due at the clock plus that result |
| TaskTheorems.FinishStep | FrameWork/CommonUtilitiesLib-linux-windows/Task.cpp:273-282 | After the result 0 the task is left alone if it has no event, and runs again if it has |
| TaskTheorems.TagStep | FrameWork/CommonUtilitiesLib-linux-windows/Task.cpp:284-292 | A task in the timer heap gets the idle event, and nothing else |
| TaskTheorems.QueuesAreFifo | FrameWork/CommonUtilitiesLib-linux-windows/Task.cpp:93-153 | In every interleaving the tasks that a thread takes off its queue are those delivered to it, in the order of delivery |
| TaskTheorems.DelayIsKept | FrameWork/CommonUtilitiesLib-linux-windows/Task.cpp:284-292 | In every interleaving a task that returned a positive timeout stays in the heap of its thread, and no thread runs it, until a clock reading not before the time of its return plus that timeout |
| TaskTheorems.DueTaskCanRun | FrameWork/CommonUtilitiesLib-linux-windows/Task.cpp:317-327 | Once its time has come, a thread that waits can take the earliest task of its heap, and runs it |
| FileCache.FileSource.Replay | FrameWork/CommonUtilitiesLib-linux-windows/OSFileSource.cpp:397-532 | Any history of increments, decrements and reads, run on the cache: it goes through, and every read yields the bytes of the file, if and only if no read that needs the cache finds the limit at 0 |
| FileCache.WatchedIff | FrameWork/CommonUtilitiesLib-linux-windows/OSFileSource.h:82-83 | With a read that needs the cache after every operation, a history goes through if and only if none of its increments brings the limit to 0 modulo 2^32 |
| FileCache.NeverWrapsGoesThrough | FrameWork/CommonUtilitiesLib-linux-windows/OSFileSource.h:82-83 | If no increment brings the limit to 0, every history of reads among the changes goes through |
| FileCache.LimitWraps | FrameWork/CommonUtilitiesLib-linux-windows/OSFileSource.h:82-82 | A concrete failing input: limit and increment 2^31, one increment, one read |
| FileCache.FileSource.DecMaxBuffers | FrameWork/CommonUtilitiesLib-linux-windows/OSFileSource.h:83-83 | The limit goes down by the increment if it is greater than that; a positive limit stays positive, and the cache valid |
| FileCache.FileSource.MarkUsed | FrameWork/CommonUtilitiesLib-linux-windows/OSFileSource.cpp:144-154 | The buffer becomes the one used last, the order of the others stays |
| FileCache.FileSource.DeleteOldBuffs | FrameWork/CommonUtilitiesLib-linux-windows/OSFileSource.cpp:256-265 | While there are too many buffers the least recently used go and their slots are cleared; the rest keep their contents |
| FileCache.FileSource.GetBuffer | FrameWork/CommonUtilitiesLib-linux-windows/OSFileSource.cpp:267-311 | There is a buffer if and only if the limit is not 0; it is mapped to the block, every other buffer is unchanged, and one taken from another block was used before all that stay |
| FileCache.FileSource.FillBuffer | FrameWork/CommonUtilitiesLib-linux-windows/OSFileSource.cpp:379-391 | The cache is consistent again: every buffer holds the bytes of its block, as many as the file has, and the map is in bijection with the buffers |
| FileCache.FileSource.ReadFromCache | FrameWork/CommonUtilitiesLib-linux-windows/OSFileSource.cpp:410-532 | Unless the read starts within the file and the limit is 0, the bytes read are those of the file from the position on |
| FileCache.FileSource.Read | FrameWork/CommonUtilitiesLib-linux-windows/OSFileSource.cpp:397-407 | The read fails if and only if it needs the cache and the limit is 0; otherwise the result is the file's bytes from the position up to the length or the end, the same with and without the cache |
| FileCache.FileSource.AllocateBufferMap | FrameWork/CommonUtilitiesLib-linux-windows/OSFileSource.cpp:211-254 | Unchanged if set up alike; otherwise it divides by zero if and only if the unit in bytes is 0 as a 32-bit number and needed, or the number of units that the arguments come to is a multiple of 2^17; else the cache is valid and empty, with that number of units of 32 kilobytes, whatever unit is asked for |
| FileCache.EmptyBlockIff | FrameWork/CommonUtilitiesLib-linux-windows/OSFileSource.cpp:237-243 | The block size is 0 as a 32-bit number if and only if the number of units is a multiple of 2^17 |
| FileCache.SomeParameters | FrameWork/CommonUtilitiesLib-linux-windows/OSFileSource.h:188-190 | The default parameters work; two concrete inputs that divide by zero: 2^17 units, and a unit of 2^22 kilobytes from which the number of units is to be computed |
| FileCache.OldestAtHead | FrameWork/CommonUtilitiesLib-linux-windows/OSFileSource.cpp:156-186 | The buffer at the head of the queue was used before every other |
| HashIndex.MaskIsModulo | FrameWork/CommonUtilitiesLib-linux-windows/OSHashTable.h:59-61 | If the size has no bit in common with the size less one, masking is the remainder |
| HashIndex.IndexIsModulo | FrameWork/CommonUtilitiesLib-linux-windows/OSHashTable.h:121-127 | For every positive table size the index is the hash modulo the size |
| HashIndex.HashString | FrameWork/CommonUtilitiesLib-linux-windows/OSRef.cpp:37-55 | The hash is a 32-bit number, also for an empty key |
| HashIndex.ShortKeys | FrameWork/CommonUtilitiesLib-linux-windows/OSRef.cpp:37-55 | Of a key of less than four characters the first and the last one count, of one of four characters all of them |
| RefTable.HashTable.Add | FrameWork/CommonUtilitiesLib-linux-windows/OSHashTable.h:68-75 | The entry is in its chain and all others stay in theirs |
| RefTable.HashTable.Map | FrameWork/CommonUtilitiesLib-linux-windows/OSHashTable.h:98-109 | An entry with the key is found if and only if the table has one |
| RefTable.HashTable.Remove | FrameWork/CommonUtilitiesLib-linux-windows/OSHashTable.h:76-97 | Removal is by identity: the entry goes if it is in the table, any other entry stays, also one with the same key |
| RefTable.OSRefTable.Register | FrameWork/CommonUtilitiesLib-linux-windows/OSRef.cpp:57-88 | Fails if and only if the key is empty or in use; otherwise the key leads to the reference |
| RefTable.OSRefTable.RegisterOrResolve | FrameWork/CommonUtilitiesLib-linux-windows/OSRef.cpp:91-112 | Either the new reference is registered, or the one that has the key is returned and held once more |
| RefTable.OSRefTable.Resolve | FrameWork/CommonUtilitiesLib-linux-windows/OSRef.cpp:148-162 | The reference of the key, if any, is returned and held once more |
| RefTable.OSRefTable.Release | FrameWork/CommonUtilitiesLib-linux-windows/OSRef.cpp:164-175 | The reference is held once less |
| RefTable.OSRefTable.UnRegister | FrameWork/CommonUtilitiesLib-linux-windows/OSRef.cpp:114-133 | Whatever other threads resolve and release while it waits: it completes after the first wait that brings the count down to the threshold, the reference is out of the table then, and one displaced by `Swap` leaves its replacement in place; otherwise it still waits |
| RefTable.OSRefTable.TryUnRegister | FrameWork/CommonUtilitiesLib-linux-windows/OSRef.cpp:135-145 | Succeeds if and only if the reference is held no more often than the threshold, and changes nothing otherwise |
| RefTable.OSRefTable.Swap | FrameWork/CommonUtilitiesLib-linux-windows/OSRef.cpp:177-196 | The key, if in use, leads to the new reference; the old one stays known and as often held |
| OSQueue.Queue.EnQueue | FrameWork/CommonUtilitiesLib-linux-windows/OSQueue.cpp:42-54 | The element is linked at the tail, once around the ring in both directions |
| OSQueue.Queue.DeQueue | FrameWork/CommonUtilitiesLib-linux-windows/OSQueue.cpp:56-70 | The head element leaves the ring, null if there is none |
| OSQueue.Queue.MoveToTail | FrameWork/CommonUtilitiesLib-linux-windows/OSFileSource.cpp:144-154 | The element goes to the tail of the ring and the others keep their order |
| OSQueue.Queue.Remove | FrameWork/CommonUtilitiesLib-linux-windows/OSQueue.cpp:72-84 | An element of this queue is unlinked from any position; an element of another queue or of none is left alone |
| UrlTranslator.DecodeURL | FrameWork/CommonUtilitiesLib-linux-windows/StringTranslator.cpp:42-147 | Length and write position stay in step through every back-up, and the result is that of the specification for every source and room |
| UrlTranslator.PutCounts | FrameWork/CommonUtilitiesLib-linux-windows/StringTranslator.cpp:98-135 | The dot counter is the length of the last segment if that is all dots, and 0 if it is not |
| UrlTranslator.DecodeLeavesNoDots | FrameWork/CommonUtilitiesLib-linux-windows/StringTranslator.cpp:42-147 | For every source without a raw '?', a successful result has no segment "." or "..", even when dots or slashes were percent-encoded |
| UrlTranslator.EncodeURL | FrameWork/CommonUtilitiesLib-linux-windows/StringTranslator.cpp:149-227 | Fails if and only if the encoding does not fit, otherwise writes the concatenated encodings; the character behind the buffer is overwritten if and only if some prefix that ends in a two-digit encoding fills it exactly, and nothing else behind it is |
| UrlTranslator.SpaceOverruns | FrameWork/CommonUtilitiesLib-linux-windows/StringTranslator.cpp:205-212 | A concrete input for that: "/ " in a buffer of four characters |
| UrlTranslator.TabIsLost | FrameWork/CommonUtilitiesLib-linux-windows/StringTranslator.cpp:149-227 | A concrete input that does not survive the round trip: a tab |
| UrlTranslator.RoundTripIff | FrameWork/CommonUtilitiesLib-linux-windows/StringTranslator.cpp:42-227 | Decoding undoes encoding if and only if the source starts with '/', has no NUL, tab, CR or LF, and no "." or ".." segment |
| UrlTheorems.HexTable | FrameWork/CommonUtilitiesLib-linux-windows/StringTranslator.cpp:68-95 | The sixteen digits mean their places in the table, and a small letter means what the capital one does |
| UrlTheorems.DecodeMeans | FrameWork/CommonUtilitiesLib-linux-windows/StringTranslator.cpp:42-147 | For every source without a raw '?', with a buffer of its length: it is refused if and only if it does not start with '/' or has a malformed escape or a NUL; otherwise the result is the unescaped text without its segments "." and ".." |
| UrlTheorems.QueryMeans | FrameWork/CommonUtilitiesLib-linux-windows/StringTranslator.cpp:42-147 | For every path and query: both are unescaped and the dot segments before the last one are dropped; if the last one is a dot segment it stays and the query is cut at its end by as many characters |
| UrlTheorems.QueryIsWholeIff | FrameWork/CommonUtilitiesLib-linux-windows/StringTranslator.cpp:98-143 | The path is cleaned and the query whole if and only if the last segment of the path is not "." or ".." |
| UrlTheorems.QueryIsCut | FrameWork/CommonUtilitiesLib-linux-windows/StringTranslator.cpp:98-143 | A concrete input for the other case: "/..?xy" is decoded to "/..?" |
| UrlTheorems.RefusedIff | FrameWork/CommonUtilitiesLib-linux-windows/StringTranslator.cpp:42-93 | With a buffer of its length a source, with or without a query, is refused if and only if it does not start with '/' or has a malformed escape or a NUL |
| UrlTheorems.RoomOnlyLimits | FrameWork/CommonUtilitiesLib-linux-windows/StringTranslator.cpp:52-66 | A smaller buffer gives the same result or the error for too little room |
| UrlTheorems.PlainIsLeft | FrameWork/CommonUtilitiesLib-linux-windows/StringTranslator.cpp:149-227 | Of the printable characters the encoder leaves letters, digits and twelve others as they are and encodes the rest, and the blank and all 8-bit characters |
| Base64.Base64encode | CommonTools/base64.cpp:185-209 | The text is the Base64 form of the bytes by the bit-string definition of section 4 of RFC 4648, with a terminator, and has exactly `Base64encode_len` characters |
| Base64.Base64decode_len | CommonTools/base64.cpp:111-124 | The room asked for is three bytes for each started group of four letters, and one |
| Base64.Base64decode | CommonTools/base64.cpp:126-169 | For every input: every full byte that the leading letters make up, bit for bit, a terminator, and no byte outside the room that `Base64decode_len` asks for |
| Base64.RoundTrip | CommonTools/base64.cpp:126-209 | Decoding an encoded text gives the same bytes and length, whatever follows the terminator |
| Base64.EncodingIsUnique | CommonTools/base64.cpp:185-209 | Each byte string has one encoding, so the encoder has no other choice |
| Base64.ReencodesIff | CommonTools/base64.cpp:126-169 | Encoding what was decoded gives the text back if and only if the text is padded to a multiple of four and its dropped bits are zero |
| Base64.LettersInOrder | CommonTools/base64.cpp:171-172 | The letters are in the order of table 1 of RFC 4648 |

## Left out

- Context switching itself (`setjmp`, stacks, `md.h`), thread-specific data, switch callbacks and thread listings: a switch is the choice of the next thread.
- `exit(0)` of the idle thread when the active count is 0: the idle step is not enabled then.
- The kqueue event system, and the error path of select for a closed descriptor (`_st_select_find_bad_fd`): nobody closes a descriptor behind the library's back.
- Failing allocations, a fork of the process, and EEXIST on a registration: in epoll only a new registration may be refused.
- SelectBackend.Select.Dispatch: `select` fails only for its timeout (EINVAL); that a signal interrupts a wait in the kernel (EINTR) is a dispatch with nothing ready.
- BackendAgreement.DispatchAll: select cannot report ERR and HUP, so the three-way comparison is for error-free readiness; poll and epoll are compared, and each event system and the scheduler are treated, with errors. An NVAL or EBADF answer means a descriptor closed behind the library's back, and is left out for select and epoll.
- The effect of a dispatch on threads (heap, run queue) is not part of the event classes; `Processor.VirtualProcessor.Dispatch` adds it.
- Wrap-around of times and counters in State Threads: times are integers, counts are natural numbers.
- SchedulerRuns.StepKeeps: a thread is joined at most once, and the program signals and destroys only condition variables of its own, and does not interrupt the idle thread or a thread that is gone; without the first of these a join can wait on a variable that its target abandons.
- Processor.VirtualProcessor.Perform: stacks and the start function are not modelled, and creation does not fail. Run queue, zombie queue and wait queues are sequences, not linked lists; the elements that a dispatch wakes are taken off the io queue first and their threads woken after, which `DispatchTheorems.ServeIoWakes` proves to be the same.
- The cached wall-clock time (`st_timecache_set`), `st_sleep`, descriptor objects and UDP calls of io.c, `st_read_fully`, which are thin layers.
- VectorIO.WritevResid: the kernel's answers are a finite list of any length, after which every call fails; an endless row of would-block answers is not a run of the model. The same holds for VectorIO.Writev and VectorRead.ReadvResid.
- VectorRead.ReadvResid: the result 0 does not tell a full read from the end of the stream, just as in the code.
- Task deletion by others, shutdown of the pool, an empty pool, the global write lock and `CallLocked`: no task is signalled after its deletion.
- TaskProtocol.StepKeeps: which thread a task is put on (`fUseThisThread`, the pickers) is any choice; the timer heap of a thread is a priority queue with insertion and extraction of a minimum.
- `OSHeap::Remove` of an arbitrary element, and the read-write mutex.
- FileCache.FileSource.Read: disk reads do not fail, the file does not change, no other file is opened while the map is live, and block indices are not cut to 32 bits, which agrees with the code for files of fewer than 2^31 blocks. A failed read (`ok` false) stands for the use of a null pointer; nothing is said about what happens then.
- FileCache.FileSource.MarkUsed: the LRU queue is a sequence here; the linked queue with the same operations is `OSQueue.Queue`.
- RefTable.OSRefTable.UnRegister: while it waits other threads resolve and release; registrations and swaps meanwhile are not part of a wait. Reference counts do not wrap.
- Base64.Base64decode: lengths are natural numbers, not `int`, so texts of 2^31 characters or more are treated as if they fitted. The same holds for Base64.Base64encode.
- The iterator of the hash table and the iterator and blocking variant of the queue: they would only add easy members.
- UrlTranslator.DecodeLeavesNoDots: sources with a raw '?' are not part of it; what the decoder does with them, dot segments included, is `UrlTheorems.QueryMeans`.
- Path delimiters other than '/'.
- `char` is taken as an unsigned number, buffers of a call do not overlap.
- MD5, SDP, user-agent, query-parameter and date parsing, sockets, event threads, audio and image code.
