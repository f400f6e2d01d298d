# Verification of ptl's protocols

ptl is a C++ library of concurrency and coroutine building blocks: a lock-free queue, coroutine
tasks and executors, intrusive reference counting, join counters, blocking primitives and a few
sequential data structures. This project models the parts whose correctness depends on whole runs,
and the sequential cores beneath them, and proves what they promise.

Concurrent code is modelled as an interleaved system. A `State` holds the shared memory, the local
state of the threads inside a call, and some history; each atomic load, store, read-modify-write
or compare-exchange, and each region under a mutex, is one `Step` of one of unboundedly many
threads. A run is any sequence of enabled steps from the initial state, so theorems about runs hold
under every scheduler. Beside each system stands a class with the fields of the original object and
one method for each step, whose contract says that it does exactly that step and keeps the
invariant. What the steps amount to is then stated of the calls that appear in a run: who was asked
for what, and what each call had done when it returned. Memory is sequentially consistent.

| files | what they model |
|---|---|
| `MpmcQueue`, `MpmcQueueProperties`, `MpmcQueueCalls`, `MpmcQueueProgress`, `MpmcQueueObject` | the bounded MPMC ticket queue: what each call does, FIFO matching, slot exclusion, object lifetime, progress, honest failure of the `try_` calls |
| `TaskScheduling`, `TaskSchedulingProperties`, `TaskSchedulingJourneys`, `TaskSchedulingStray`, `TaskSchedulingObject` | `Task`, `schedule_on`, executor migration: conservation of coroutine handles, how each coroutine comes back, return to the home executor |
| `ReferenceWord`, `ReferenceWordProperties`, `ReferenceWordObject` | the packed strong/weak reference word and its compare-exchange loops |
| `IntrusiveHandles` | `intrusive_ptr` and `intrusive_wptr` over those words |
| `WaitAll`, `WaitAllProperties`, `WaitAllObject` | `wait_all` in trees of any shape: proceeds once, after everything, and always |
| `AsyncScope` | `async_scope`: spawning by the owner and by running work, one join |
| `RunLoop` | the run loop of `QueuedExecutor` |
| `ManualResetEvent`, `AsyncWait` | the futex event and `async_wait` on top of it |
| `IntrusiveList` | the circular intrusive list, on the heap, with items in two lists |
| `PackedPtr`, `AtomicPackedPtr` | the packed pointer layouts bit by bit, and the atomic setters and readers as linearizable operations |
| `IntegerChecking` | the overflow predicates for every width |
| `Fnv1a` | the FNV-1a hashes (section 2 of draft-eastlake-fnv) |
| `Wrappers` | the optional value |

Where code and intent disagree the model follows the code, except where the code as written has no
meaning. `try_emplace` declares its ticket `const` and then assigns it
(include/ptl/mpmc_queue.hpp:48, 59); it is assignable here, as in `try_pop`. The subtraction
predicate names `max` and `min` without calling them
(include/ptl/type_safe/detail/integer_checking.hpp:72, 75); they are called here. `set_small` of a
packed pointer is `const` and assigns the word (include/ptl/packed_ptr.hpp:33, 79, 127); it assigns
here. A `reinterpret_cast` between integers (include/ptl/packed_ptr.hpp:21, 30, 76, 115, 124, 259)
or to `std::exception_ptr` (line 134 of that file) is read as the conversion it stands for.

Some claims hold only in part. `fnv1a_32` and `fnv1a_64` sign-extend each `char`
(include/ptl/hash/fnv1a.hpp:18, 22), so on bytes from 0x80 on they are not FNV-1a. The hash agrees
with FNV-1a on a string and all its prefixes exactly when no byte is 0x80 or more
(`Fnv1a.StandardThroughout`). With an odd number of such bytes it never agrees on the whole string
(`Fnv1a.OddHighBytesDiffer`); with an even number it can (`Fnv1a.EvenHighBytesCanAgree`). A
pointer survives a packed word exactly when it has one bits only in the field
(`PackedPtr.RoundTrips`). And a coroutine does not always resume with the `Executor::current` it
suspended with: a thread that builds a second executor and goes on running the first resumes it
with the second (`TaskSchedulingStray.AwayFromHome`). It comes home exactly when it is resumed
directly or its executor is the last built on the thread that runs it
(`TaskSchedulingJourneys.HomeExecutor`), and so always where each executor stays with the thread
that built it, which has no other (`TaskSchedulingJourneys.AlwaysHome`).

Preconditions the library leaves to its callers are stated as what a step needs to be enabled: an
object of a reference word is used only through handles that exist, fewer than 2^32 - 1 of them; a
`Task` is awaited before it starts or after it is done; spawning into a scope comes from the owner
before its join or from work still running; each executor has one runner, is destroyed only when it
holds no handle, and is given a handle only while it exists. The capacity of the queue is positive.

To check the whole project: `dafny verify dfyconfig.toml`.

The table lists the results first, area by area, and then the methods of the classes. Where a
method is one step of a system, its contract is always that the state it leaves is the one the step
relation gives and that the invariant holds again; its row names the step, and what it promises
besides.

## Model

| member | source | states |
|---|---|---|
| `MpmcQueue.InvNext` | include/ptl/mpmc_queue.hpp:29-125 | Every atomic step of `emplace`, `try_emplace`, `pop` and `try_pop`, by any thread at any time, keeps the invariant that ties head, tail, every slot's sequence and storage, and every thread inside a call to the tickets drawn |
| `MpmcQueue.SameTurn` | include/ptl/mpmc_queue.hpp:128-139 | Slot index and turn together identify a ticket |
| `MpmcQueue.NextLap` | include/ptl/mpmc_queue.hpp:128-139 | A ticket `capacity` later uses the same slot one turn on |
| `MpmcQueueProperties.RunExtends` | include/ptl/mpmc_queue.hpp:29-125 | Head, tail and the history of sends, publications, receipts and destructions only grow in a run |
| `MpmcQueueProperties.FifoMatching` | include/ptl/mpmc_queue.hpp:29-125 | In every run what the consumer of ticket k receives is the argument sent under producer ticket k, now and for ever: delivery in ticket order, nothing invented or duplicated |
| `MpmcQueueProperties.QuiescentContents` | include/ptl/mpmc_queue.hpp:29-125 | With no call under way, exactly the first tail values sent have been received and destroyed, and all head values sent are published: nothing is lost |
| `MpmcQueueProperties.EveryValueInOnePlace` | include/ptl/mpmc_queue.hpp:29-125 | And at every instant, with any calls under way, each value sent is with its producer, live in its slot, with its consumer, or received, and in one of these only |
| `MpmcQueueProperties.SlotExclusion` | include/ptl/mpmc_queue.hpp:33-41 | Two threads between turn check and sequence store on one slot are the same thread |
| `MpmcQueueProperties.ObjectLifetime` | include/ptl/mpmc_queue.hpp:156-172 | Construction meets only raw storage, a move only the live object of its own ticket, destruction only that object, moved from and not yet destroyed |
| `MpmcQueueProperties.TicketAt` | include/ptl/mpmc_queue.hpp:128-139 | The ticket for which a slot's sequence stands at a turn |
| `MpmcQueueProperties.QuiescentSlots` | include/ptl/mpmc_queue.hpp:149-154 | With no call under way a slot holds a live object exactly when its sequence is odd, and it is the one of the ticket at that turn |
| `MpmcQueueProperties.QuiescentLive` | include/ptl/mpmc_queue.hpp:149-154 | Conversely every value sent and not received stands live in the slot of its ticket |
| `MpmcQueueProperties.ProducerEnabled` | include/ptl/mpmc_queue.hpp:36-38 | A waiting producer has its turn exactly when it is in the first lap or the consumer one lap earlier has vacated the slot |
| `MpmcQueueProperties.LeastTicketEnabled` | include/ptl/mpmc_queue.hpp:33-38 | Of the smallest outstanding producer ticket and the smallest outstanding consumer ticket one is enabled: no deadlock between the two sides |
| `MpmcQueueProperties.SpinOnlyWhenFullOrEmpty` | include/ptl/mpmc_queue.hpp:36-38 | If every thread in the queue can only spin, all are producers and the queue is full, or all are consumers and it is empty |
| `MpmcQueueProperties.HonestTryPop` | include/ptl/mpmc_queue.hpp:105-125 | `try_pop` returns false only if at some instant during the call the element of the tail ticket was unpublished |
| `MpmcQueueProperties.TryPopTurnIsProgress` | include/ptl/mpmc_queue.hpp:107-124 | Each further turn of the `try_pop` loop looks at a later ticket, the earlier one having been drawn by another consumer |
| `MpmcQueueProperties.TryEmplaceTurnIsProgress` | include/ptl/mpmc_queue.hpp:48-64 | The same for the turns of `try_emplace` and the head |
| `MpmcQueueProperties.HonestTryEmplace` | include/ptl/mpmc_queue.hpp:45-65 | `try_emplace` returns false only if at some instant during the call the consumer one lap before the head ticket had not vacated its slot |
| `MpmcQueueCalls.BeginsCall` | include/ptl/mpmc_queue.hpp:29-105 | A thread in no call may begin any of the four, and is in that one then |
| `MpmcQueueCalls.EachCallDoesItsOp` | include/ptl/mpmc_queue.hpp:29-125 | Every call that returns has done what it was asked, once: `emplace(v)` has sent v under the ticket at the head when it began, `pop` has been handed what was sent under the one at the tail, a `try_` call has done so under a later ticket or, if it failed, has drawn none |
| `MpmcQueueCalls.TryCallsNeverWait` | include/ptl/mpmc_queue.hpp:45-125 | A `try_` call never spins on a slot: each of its steps can be taken and changes something |
| `MpmcQueueCalls.SendsFollowRealTime` | include/ptl/mpmc_queue.hpp:33-93 | A call that returned before another of its side began has the earlier ticket |
| `MpmcQueueCalls.SendsAreCalls` | include/ptl/mpmc_queue.hpp:33-54 | The sends grow exactly at the beginning of every `emplace`, by its argument, and at a step inside a `try_emplace`, by the argument of that call |
| `MpmcQueueCalls.EachSendIsACall` | include/ptl/mpmc_queue.hpp:33-54 | Every value ever sent is the argument of the call, begun by the same thread, that drew its ticket |
| `MpmcQueueCalls.PopHandsOutAnArgument` | include/ptl/mpmc_queue.hpp:91-103 | What a `pop` hands out is the argument of the `emplace` or `try_emplace` with the same place in line |
| `MpmcQueueProgress.TurnAdvances` | include/ptl/mpmc_queue.hpp:36-41 | A thread whose slot is at its turn, or that is past it, gets strictly further with its next step; only a thread waiting for its turn can spin |
| `MpmcQueueProgress.StuckOnlyWhenFullOrEmpty` | include/ptl/mpmc_queue.hpp:36-38 | If no step of a thread in the queue changes anything, no call is under way, or only producers are and the queue is full, or only consumers and it is empty |
| `MpmcQueueProgress.RunBounded` | include/ptl/mpmc_queue.hpp:29-125 | A run of n calls changes the state at most n * (2n + 6) times, under every scheduler |
| `MpmcQueueProgress.MaximalRunReturns` | include/ptl/mpmc_queue.hpp:29-125 | A run that goes on while it can change anything ends with every call returned, or full with producers only, or empty with consumers only |
| `TaskScheduling.TracksNext` | include/ptl/experimental/coroutine/task.hpp:33-73 | Awaiting, scheduling, hopping, queueing, finishing, popping, starting and resuming, nested in another coroutine or not, each move handles between places without losing or copying one |
| `TaskSchedulingProperties.RunTracks` | include/ptl/experimental/coroutine/task.hpp:33-73 | Every reachable state has a map giving each started, unfinished coroutine its one place |
| `TaskSchedulingProperties.HandleConservation` | include/ptl/experimental/coroutine/task.hpp:33-73 | A coroutine is started and unfinished exactly when its handle is somewhere, and it is then in one place only: in one call on one thread, at one position of one queue, the continuation of one unfinished `Task`, or kept by another awaitable |
| `TaskSchedulingProperties.ContinuationSet` | include/ptl/experimental/coroutine/task.hpp:65-73 | No `Task` reaches final suspend without a continuation; that one is unfinished and its handle is nowhere else |
| `TaskSchedulingProperties.RunOrdered` | include/ptl/experimental/coroutine/task.hpp:320-325 | A `Task` starts after the coroutine that waits for it: waiting is never circular |
| `TaskSchedulingProperties.EveryWaitEndsInWork` | include/ptl/experimental/coroutine/task.hpp:65-73 | From every live coroutine the chain of waits, of any length, ends at one a thread holds, an executor has queued or another awaitable keeps |
| `TaskSchedulingProperties.QuiescentAllDone` | include/ptl/experimental/coroutine/task.hpp:65-73 | Idle threads, empty queues and nothing kept elsewhere mean that every coroutine started has finished |
| `TaskSchedulingProperties.CurrentIsLastBuilt` | include/ptl/execution/basic_executor.hpp:17-27 | `Executor::current` of a thread is the executor last built on it, and null once one has been destroyed there since |
| `TaskSchedulingProperties.ExistsWhileBuilt` | include/ptl/execution/basic_executor.hpp:17-27 | An executor exists exactly from its construction to its destruction |
| `TaskSchedulingProperties.ExistsWhenCreated` | include/ptl/experimental/coroutine/task.hpp:23-26 | A coroutine exists exactly once created, with the kind it was created with |
| `TaskSchedulingProperties.ExecutorsAreFifo` | include/ptl/execution/basic_executor.hpp:34-59 | An executor runs the handles it is given in the order in which it was given them, each once |
| `TaskSchedulingProperties.NotStuck` | include/ptl/execution/basic_executor.hpp:34-59 | While anything waits some thread can go on with it |
| `TaskSchedulingJourneys.ResumesAsAsked` | include/ptl/experimental/coroutine/task.hpp:33-73 | A coroutine comes back as it was asked to and in no other way: one that migrated, or a `Task` scheduled on an executor, by a pop of that executor; one kept by another awaitable, when that resumes it; one that awaits a `Task`, when that ends, directly exactly if its executor is null or current there, and otherwise by a pop of its executor |
| `TaskSchedulingJourneys.RunsUntilSuspended` | include/ptl/experimental/coroutine/detail/schedule_awaitable.hpp:18-30 | From the step that starts it a coroutine runs on, on one thread, until a step suspends or ends it; migration to the executor it is on, or awaiting a finished `Task`, does neither |
| `TaskSchedulingJourneys.EndsForGood` | include/ptl/experimental/coroutine/task.hpp:61-73 | A coroutine that has ended never runs again |
| `TaskSchedulingJourneys.HomeExecutor` | include/ptl/experimental/coroutine/task.hpp:33-73 | A coroutine that suspended in awaiting a `Task`, with some `Executor::current`, next runs where that is current again exactly if it is resumed directly, or the executor from whose queue it is popped is the last built on the popping thread; whatever the awaited ones did in between, at any depth |
| `TaskSchedulingJourneys.HomeQueue` | include/ptl/experimental/coroutine/task.hpp:65-73 | If it is popped, it is from the queue of that executor and no other |
| `TaskSchedulingJourneys.AlwaysHome` | include/ptl/experimental/coroutine/task.hpp:33-73 | Where each executor is run and destroyed on the thread that built it, and no thread builds another meanwhile, it always does |
| `TaskSchedulingStray.AwayFromHome` | include/ptl/experimental/coroutine/task.hpp:65-73 | A run in which it does not: the thread that built the home executor has built a second one and runs the first |
| `ReferenceWord.ReferenceCount` | include/ptl/intrusive_ptr.hpp:341-352 | Packing two 32-bit counts: each half reads back as it went in |
| `ReferenceWord.InvNext` | include/ptl/intrusive_ptr.hpp:355-427 | Every add, load and compare-exchange, spurious failures included, keeps the word equal to the counts of live handles and every loop's handle alive |
| `ReferenceWord.WordUpdates` | include/ptl/intrusive_ptr.hpp:363-427 | Adding, releasing, releasing weakly and locking change one count by one without carry or borrow between the halves |
| `ReferenceWordProperties.WordCountsHandles` | include/ptl/intrusive_ptr.hpp:337-353 | At every instant of every run, with fewer than 2^32 - 1 handles, the word is (strong handles, weak handles plus one if any strong handle exists) |
| `ReferenceWordProperties.NoResurrection` | include/ptl/intrusive_ptr.hpp:411-427 | Once no strong handle exists, none ever does again |
| `ReferenceWordProperties.OneStepReachesStrongZero` | include/ptl/intrusive_ptr.hpp:363-384 | At most one step of a run takes the strong count to zero |
| `ReferenceWordProperties.DestroyedExactlyThen` | include/ptl/intrusive_ptr.hpp:377-383 | The object is destroyed by that step, a successful exchange of a release loop, and by no other |
| `ReferenceWordProperties.FreedExactlyThen` | include/ptl/intrusive_ptr.hpp:377-408 | The memory is given back by the one step that takes the word to zero, and that step is the last of the run |
| `ReferenceWordProperties.NothingAfterFree` | include/ptl/intrusive_ptr.hpp:363-427 | With the word at zero no thread is inside any loop and no operation is possible |
| `ReferenceWordProperties.AllReleased` | include/ptl/intrusive_ptr.hpp:363-408 | When the last handle is gone the object has been destroyed once and freed once |
| `ReferenceWordProperties.LockNeedsStrong` | include/ptl/intrusive_ptr.hpp:411-427 | A lock that succeeds finds a strong handle and adds one to the strong count |
| `ReferenceWordProperties.HandlesFollowCalls` | include/ptl/intrusive_ptr.hpp:355-427 | An add-ref adds the new handle at once; a release takes away the handle it was given, and a lock adds one, at the step at which its loop returns; a lock that returns adds none exactly if no strong handle exists; nothing else changes the handles |
| `ReferenceWordProperties.UndisturbedReturns` | include/ptl/intrusive_ptr.hpp:371-427 | A turn of a loop ends the call unless the exchange fails spuriously or the word has changed since the thread last looked |
| `IntrusiveHandles.Adopt` | include/ptl/intrusive_ptr.hpp:157-171 | A new handle may take over a share already counted: no count changes |
| `IntrusiveHandles.Abandon` | include/ptl/intrusive_ptr.hpp:146-155 | A handle that goes leaves its share behind until it is released |
| `IntrusiveHandles.Exchange` | include/ptl/intrusive_ptr.hpp:258-261 | Swapping two handles changes no count |
| `IntrusiveHandles.MoveOver` | include/ptl/intrusive_ptr.hpp:218-222 | Moving a pointer from one handle to another changes no count |
| `IntrusiveHandles.AddedShare` | include/ptl/intrusive_ptr.hpp:356-390 | Adding a share keeps every object's word equal to its live handles and loose shares |
| `IntrusiveHandles.DroppedShare` | include/ptl/intrusive_ptr.hpp:363-408 | Dropping a share keeps it too, destroying or freeing as the new counts say |
| `IntrusiveHandles.LockOutcome` | include/ptl/intrusive_ptr.hpp:411-427 | A lock fails exactly on a destroyed object, and otherwise adds one strong share |
| `IntrusiveHandles.HandleKeepsObject` | include/ptl/intrusive_ptr.hpp:137-155 | A non-null handle's object still has its memory, and a non-null strong handle's is not destroyed |
| `IntrusiveHandles.LooseKeepsObject` | include/ptl/intrusive_ptr.hpp:157-171 | So does a share that no handle has adopted yet |
| `WaitAll.InvNext` | include/ptl/experimental/coroutine/detail/wait_all_counter.hpp:19-29 | Every step of every node of a tree of `wait_all`s keeps each counter equal to what has yet to notify plus the share of `begin_await` |
| `WaitAll.InvInit` | include/ptl/experimental/coroutine/detail/wait_all_counter.hpp:10-13 | The initial counters satisfy it for trees of every shape |
| `WaitAllProperties.ProceedsOnce` | include/ptl/experimental/coroutine/detail/wait_all_counter.hpp:19-29 | No coroutine gets past its `co_await` twice, by `begin_await` returning false, by a resumption, or both |
| `WaitAllProperties.NotifiesOnce` | include/ptl/experimental/coroutine/detail/wait_all_task.hpp:24-32 | No task decrements its parent's counter twice |
| `WaitAllProperties.ResumesSuspended` | include/ptl/experimental/coroutine/detail/wait_all_counter.hpp:25-29 | A notification that resumes finds the coroutine suspended and its handle stored |
| `WaitAllProperties.AllBelowDone` | include/ptl/experimental/coroutine/detail/wait_all_awaiter.hpp:84-96 | Past a `co_await`, everything below in the tree has notified, with its result set |
| `WaitAllProperties.ResultOfBody` | include/ptl/experimental/coroutine/detail/wait_all_task.hpp:39-79 | A stored result is the outcome with which the body ended, at one step: value, void or exception |
| `WaitAllProperties.ProceedsAfterAll` | include/ptl/experimental/coroutine/detail/wait_all_awaiter.hpp:84-96 | The same along runs, at any depth: each result is the outcome with which that body ended, and no later step changes it |
| `WaitAllProperties.SomeEnabled` | include/ptl/experimental/coroutine/detail/wait_all_counter.hpp:19-29 | Below every started, unfinished node some node can take a step |
| `WaitAllProperties.RunBounded` | include/ptl/experimental/coroutine/detail/wait_all_awaiter.hpp:84-96 | Every run has a bound that depends on the tree alone, under every scheduler |
| `WaitAllProperties.MaximalRunCompletes` | include/ptl/experimental/coroutine/detail/wait_all_awaiter.hpp:84-96 | Every run that goes on while it can ends with the outermost coroutine past its wait and everything below complete, with the outcome of its body kept |
| `AsyncScope.InvNext` | include/ptl/experimental/coroutine/async_scope.hpp:45-54 | Every step of spawning, finishing and joining keeps the count equal to the unfinished work plus the share of the join |
| `AsyncScope.SpawnedIsAsked` | include/ptl/experimental/coroutine/async_scope.hpp:24-33 | What is spawned is what the owner or other work asked for, and it runs at once and until it ends |
| `AsyncScope.CountIsUnfinishedWork` | include/ptl/experimental/coroutine/async_scope.hpp:92-103 | In every run the count is that number, and the assertion of `on_work_started` never fails |
| `AsyncScope.JoinContinuesAfterAll` | include/ptl/experimental/coroutine/async_scope.hpp:50-54 | The owner continues once, after everything spawned at any depth has finished, with its continuation stored before |
| `AsyncScope.NeverReadyEarly` | include/ptl/experimental/coroutine/async_scope.hpp:45-48 | `await_ready` is never true, so the continuation is always stored |
| `AsyncScope.ResumesSuspended` | include/ptl/experimental/coroutine/async_scope.hpp:92-97 | Whoever resumes the owner finds it suspended with no work left |
| `AsyncScope.NotStuck` | include/ptl/experimental/coroutine/async_scope.hpp:45-54 | Until the owner continues some step is possible |
| `AsyncScope.RunBounded` | include/ptl/experimental/coroutine/async_scope.hpp:45-54 | A run takes at most three steps for each piece of work spawned and five more, under every scheduler |
| `AsyncScope.MaximalRunContinues` | include/ptl/experimental/coroutine/async_scope.hpp:45-54 | When no step is left the owner has continued, with all work finished |
| `RunLoop.InvNext` | include/ptl/execution/basic_executor.hpp:34-66 | Each locked region, notification and wake-up keeps executed plus queued work equal to what was added, in order, and a wake-up owed to a sleeping runner |
| `RunLoop.ExecutedIsPrefix` | include/ptl/execution/basic_executor.hpp:34-59 | In every run executed work is a prefix, in order, of work added by then or later |
| `RunLoop.RunsWhatWasAdded` | include/ptl/execution/basic_executor.hpp:34-66 | The items the runner has begun, in order, followed by those queued, are those handed to `add` so far, in order; and `finished_` is set exactly if `stop` was called |
| `RunLoop.QuietWhenDrained` | include/ptl/execution/basic_executor.hpp:40-44 | When neither the runner nor a notifier has a step to take, the runner has returned, if `stop` was called, or sleeps with everything added executed |
| `RunLoop.DrainsQueue` | include/ptl/execution/basic_executor.hpp:34-52 | With no further calls the runner executes what is queued, in two steps an item |
| `RunLoop.NoLostWakeUp` | include/ptl/execution/basic_executor.hpp:40-66 | A runner that sleeps on queued work or a requested stop is owed a notification, and that wakes it |
| `RunLoop.ReturnsWhenDrained` | include/ptl/execution/basic_executor.hpp:42-44 | `run` returns only after `stop` with everything added executed, work added by work included |
| `RunLoop.DrainsAfterStop` | include/ptl/execution/basic_executor.hpp:34-52 | After `stop` and with no further calls it returns one step later |
| `ManualResetEvent.InvNext` | include/ptl/sync/event.hpp:35-59 | Every store, load, futex wait and futex wake keeps every sleeper of a set event owed a wake |
| `ManualResetEvent.ValueIsLastSet` | include/ptl/sync/event.hpp:35-47 | The event is set exactly if the last store was that of a `set` |
| `ManualResetEvent.WaitIsHonest` | include/ptl/sync/event.hpp:49-59 | A call of `wait` is still under way unless the event was set at some instant since it began |
| `ManualResetEvent.SleeperIsOwedWake` | include/ptl/sync/event.hpp:35-42 | A thread asleep while the event is set implies a setter between its store and its wake, which wakes it |
| `ManualResetEvent.SetReleasesEveryone` | include/ptl/sync/event.hpp:35-59 | With the event set and no setter under way nobody sleeps, and each step of a waiter is its return |
| `AsyncWait.SystemInvDo` | include/ptl/experimental/coroutine/sync_wait.hpp:294-302 | Every step of coroutine and caller keeps: the event is set only after the outcome is stored, and the caller wakes only after the event is set |
| `AsyncWait.ReturnsTheOutcome` | include/ptl/experimental/coroutine/sync_wait.hpp:66-72 | What `async_wait` returns or throws is what the body stored at an earlier step |
| `AsyncWait.ReturnsOnlyWhenDone` | include/ptl/experimental/coroutine/sync_wait.hpp:294-302 | It returns only after the coroutine has completed and signalled |
| `AsyncWait.NotStuck` | include/ptl/experimental/coroutine/sync_wait.hpp:294-302 | Until it has returned something else can happen, and a caller asleep on a set event is owed a wake |
| `AsyncWait.RunBounded` | include/ptl/experimental/coroutine/sync_wait.hpp:294-302 | Every run takes at most ten steps and three more for each spurious wake or interrupt, under every scheduler |
| `AsyncWait.MaximalRunReturns` | include/ptl/experimental/coroutine/sync_wait.hpp:294-302 | A run that goes on while it can ends with `async_wait` returned, with the outcome of the coroutine |
| `IntrusiveList.Remove` | include/ptl/containers/list.hpp:68-75 | The entry becomes a ring of its own and the rest closes up, `next` and `prev` mutually inverse; no other ring changes; a detached entry stays detached |
| `IntrusiveList.InsertBefore` | include/ptl/containers/list.hpp:82-88 | The entry stands directly before the other in its ring |
| `IntrusiveList.InsertAfter` | include/ptl/containers/list.hpp:90-96 | The entry stands directly after the other in its ring |
| `IntrusiveList.EraseAllMembers` | include/ptl/containers/list.hpp:128-133 | Removing a sequence of items leaves exactly the others |
| `IntrusiveList.OnlyIn` | include/ptl/containers/list.hpp:111-118 | An item's entry stands in a list exactly when the item does |
| `IntrusiveList.EraseFirst` | include/ptl/containers/list.hpp:131 | Removing the front item leaves the rest |
| `IntrusiveList.RemoveFrom` | include/ptl/containers/list.hpp:68-75 | Removing an entry takes its item out of the list it stands in, if any |
| `IntrusiveList.Destruct` | include/ptl/containers/list.hpp:63-66 | The destructor of an entry takes its item out of whichever of any number of lists it stands in, and out of no other |
| `IntrusiveList.Delete` | include/ptl/containers/list.hpp:63-66 | Deleting an item with two entries takes it out of every list, whichever two or one or none it stands in |
| `IntrusiveList.DeleteFront` | include/ptl/containers/list.hpp:131 | The front item is deleted, and taken out of every other list as well |
| `IntrusiveList.DestroyStep` | include/ptl/containers/list.hpp:130-132 | One turn of the destructor loop: one item deleted, and what is left to erase from every list is the rest |
| `IntrusiveList.DestroyList` | include/ptl/containers/list.hpp:128-133 | With any number of lists of either binding, the destructor loop of one terminates, deletes every item once in order, and takes exactly those items out of every other list |
| `PackedPtr.Set` | include/ptl/packed_ptr.hpp:8-246 | For every word and layout the pointer read back is the argument cut to the bits the layout has room for, and value and small field are untouched |
| `PackedPtr.SetValue` | include/ptl/packed_ptr.hpp:8-246 | The same for the value |
| `PackedPtr.SetSmall` | include/ptl/packed_ptr.hpp:8-207 | The same for the small field |
| `PackedPtr.RoundTrips` | include/ptl/packed_ptr.hpp:161-204 | A set and a get round-trip exactly when the argument has one bits only in its field: bits 3 to 47 of a pointer, for the shifted layout too |
| `PackedPtr.LastWriteWins` | include/ptl/packed_ptr.hpp:8-246 | Of two writes to one field the first leaves no trace |
| `PackedPtr.SettersCommute` | include/ptl/packed_ptr.hpp:8-246 | Any two fields may be set in either order |
| `PackedPtr.UnusedStayClear` | include/ptl/packed_ptr.hpp:8-246 | No setter puts a one into a bit outside the fields |
| `PackedPtr.FieldsDetermineWord` | include/ptl/packed_ptr.hpp:8-246 | A word holds nothing but its fields, exactly when its unused bits are clear |
| `AtomicPackedPtr.InvNext` | include/ptl/packed_ptr.hpp:261-283 | Every load and every compare-exchange, spurious failures included, keeps the word what a single thread would leave that made the successful changes in order |
| `AtomicPackedPtr.FieldsAreLastWrites` | include/ptl/packed_ptr.hpp:261-283 | Under every interleaving each field holds what the last successful setter of that field stored |
| `AtomicPackedPtr.EachCallIsAsked` | include/ptl/packed_ptr.hpp:261-283 | The calls are those begun, in order, each with its argument |
| `AtomicPackedPtr.EachCallTakesEffectOnce` | include/ptl/packed_ptr.hpp:261-283 | A call takes effect once, with the argument it was begun with, if it has returned, and not at all otherwise |
| `AtomicPackedPtr.EffectsFollowRealTime` | include/ptl/packed_ptr.hpp:261-283 | A call that returned before another began takes effect before it |
| `AtomicPackedPtr.FailureIsProgress` | include/ptl/packed_ptr.hpp:261-283 | An attempt ends its call unless it fails spuriously or another call has taken effect since this one last looked |
| `AtomicPackedPtr.RunExtends` | include/ptl/packed_ptr.hpp:261-283 | No change once made is undone |
| `AtomicPackedPtr.ReadsAreAtomic` | include/ptl/packed_ptr.hpp:257-274 | `value()` and `get()` return what the last setter of the field to take effect had stored at one instant within the call |
| `AtomicPackedPtr.ReplayFields` | include/ptl/packed_ptr.hpp:261-283 | Making changes in order leaves each field with its last write |
| `IntegerChecking.AdditionExact` | include/ptl/type_safe/detail/integer_checking.hpp:51-60 | True exactly when the sum is outside the type; its own arithmetic stays inside |
| `IntegerChecking.UnsignedAdditionExact` | include/ptl/type_safe/detail/integer_checking.hpp:62-66 | The same for unsigned types |
| `IntegerChecking.SubtractionExact` | include/ptl/type_safe/detail/integer_checking.hpp:68-77 | True exactly when the difference is outside the type; its own arithmetic stays inside |
| `IntegerChecking.UnsignedSubtractionExact` | include/ptl/type_safe/detail/integer_checking.hpp:79-83 | The same for unsigned types |
| `IntegerChecking.MultiplicationExact` | include/ptl/type_safe/detail/integer_checking.hpp:85-101 | In all four quadrants, true exactly when the product is outside the type |
| `IntegerChecking.UnsignedMultiplicationExact` | include/ptl/type_safe/detail/integer_checking.hpp:103-107 | The same for unsigned types |
| `IntegerChecking.DivisionExact` | include/ptl/type_safe/detail/integer_checking.hpp:109-115 | True exactly when the divisor is zero or the truncated quotient is outside the type |
| `IntegerChecking.UnsignedDivisionExact` | include/ptl/type_safe/detail/integer_checking.hpp:117-122 | The same for unsigned types |
| `IntegerChecking.EvaluationDefined` | include/ptl/type_safe/detail/integer_checking.hpp:88-100 | The divisions inside the multiplication predicate stay inside the type |
| `IntegerChecking.UnsignedEvaluationDefined` | include/ptl/type_safe/detail/integer_checking.hpp:106 | The same for unsigned types, when the predicate divides at all |
| `IntegerChecking.QuotientMagnitude` | include/ptl/type_safe/detail/integer_checking.hpp:109-115 | The sign and size of a truncated quotient |
| `Fnv1a.HashConcat` | include/ptl/hash/fnv1a.hpp:17-23 | Hashing a concatenation is hashing its second part seeded with the hash of its first |
| `Fnv1a.HashBijective` | include/ptl/hash/fnv1a.hpp:17-23 | For a fixed string seed and hash determine each other, both ways |
| `Fnv1a.MixBijective` | include/ptl/hash/fnv1a.hpp:18 | Mixing in one character can be undone |
| `Fnv1a.WidenIsConversion` | include/ptl/hash/fnv1a.hpp:18-22 | The conversion of a character keeps its signed value modulo 2^32 or 2^64 |
| `Fnv1a.HashEndsAtNul` | include/ptl/hash/fnv1a.hpp:17-22 | What follows a NUL plays no part |
| `Fnv1a.KnownAnswers` | include/ptl/hash/fnv1a.hpp:11-22 | The string "a" hashes to e40c292c and af63dc4c8601ec8c, as FNV-1a has it |
| `Fnv1a.TimesOver` | include/ptl/hash/fnv1a.hpp:11-13 | The primes have inverses modulo 2^32 and 2^64, 0x359c449b for the first |
| `Fnv1a.OneCharacterNeverCollides` | include/ptl/hash/fnv1a.hpp:17-23 | Strings of one length that differ in one character have different hashes, at any length and seed |
| `Fnv1a.MixIsStandard` | include/ptl/hash/fnv1a.hpp:18 | One character is mixed in as FNV-1a prescribes exactly when its byte is below 0x80 |
| `Fnv1a.HashIsStandard` | include/ptl/hash/fnv1a.hpp:17-23 | On bytes below 0x80 the result is FNV-1a |
| `Fnv1a.StandardThroughout` | include/ptl/hash/fnv1a.hpp:17-23 | The hash agrees with FNV-1a on a string and every prefix of it exactly when no byte is 0x80 or more |
| `Fnv1a.OddHighBytesDiffer` | include/ptl/hash/fnv1a.hpp:17-23 | With an odd number of bytes of 0x80 or more, at any places, seed and width, it never is: the two hashes agree modulo 256 and not modulo 512 |
| `Fnv1a.EvenHighBytesCanAgree` | include/ptl/hash/fnv1a.hpp:17-23 | With an even number of them it can be: the string 02 c5 ff hashes to 8a1092ed both ways |
| `MpmcQueueObject.Queue.constructor` | include/ptl/mpmc_queue.hpp:20-23 | Head and tail zero, every slot raw at sequence zero; the invariant holds |
| `MpmcQueueObject.Queue.FetchAddHead` | include/ptl/mpmc_queue.hpp:33 | The `fetch_add` on head that begins `emplace` |
| `MpmcQueueObject.Queue.AcquireSpin` | include/ptl/mpmc_queue.hpp:36-38 | One turn of the producer's spin loop; it ends exactly when the slot is at the acquire turn |
| `MpmcQueueObject.Queue.ConstructObject` | include/ptl/mpmc_queue.hpp:40 | Construction in place, on storage the invariant shows raw |
| `MpmcQueueObject.Queue.PublishSlot` | include/ptl/mpmc_queue.hpp:41 | The release store that publishes the ticket and ends the call |
| `MpmcQueueObject.Queue.LoadHead` | include/ptl/mpmc_queue.hpp:48 | The first ticket load of `try_emplace` |
| `MpmcQueueObject.Queue.CheckHeadSlot` | include/ptl/mpmc_queue.hpp:50-51 | The look at the slot's sequence, to the compare-exchange or to the reload |
| `MpmcQueueObject.Queue.CompareExchangeHead` | include/ptl/mpmc_queue.hpp:52-56 | The compare-exchange: the ticket is drawn, or the loop goes on with the head seen |
| `MpmcQueueObject.Queue.ReloadHead` | include/ptl/mpmc_queue.hpp:57-63 | The reload: the call fails exactly when the head is still the ticket |
| `MpmcQueueObject.Queue.FetchAddTail` | include/ptl/mpmc_queue.hpp:93 | The `fetch_add` on tail of `pop` |
| `MpmcQueueObject.Queue.ReleaseSpin` | include/ptl/mpmc_queue.hpp:96-98 | One turn of the consumer's spin loop |
| `MpmcQueueObject.Queue.MoveOut` | include/ptl/mpmc_queue.hpp:100 | The move hands out the value sent under this ticket and leaves the slot moved from |
| `MpmcQueueObject.Queue.DestructObject` | include/ptl/mpmc_queue.hpp:101 | The destructor of the moved-from object, once per ticket |
| `MpmcQueueObject.Queue.VacateSlot` | include/ptl/mpmc_queue.hpp:102 | The store that opens the slot for the next lap and ends the call |
| `MpmcQueueObject.Queue.LoadTail` | include/ptl/mpmc_queue.hpp:107 | The first ticket load of `try_pop` |
| `MpmcQueueObject.Queue.CheckTailSlot` | include/ptl/mpmc_queue.hpp:109-110 | The look at the slot's sequence |
| `MpmcQueueObject.Queue.CompareExchangeTail` | include/ptl/mpmc_queue.hpp:111-116 | The compare-exchange on tail |
| `MpmcQueueObject.Queue.ReloadTail` | include/ptl/mpmc_queue.hpp:117-123 | The reload: the call fails exactly when the tail is still the ticket |
| `MpmcQueueObject.Queue.DestroySlots` | include/ptl/mpmc_queue.hpp:149-154 | The slot destructors destroy each remaining object once; with those destroyed by pops, every value ever sent exactly once |
| `TaskSchedulingObject.Scheduler.constructor` | include/ptl/execution/basic_executor.hpp:17-27 | Idle threads, no executors, `Executor::current` null everywhere |
| `TaskSchedulingObject.Scheduler.BuildExecutor` | include/ptl/execution/basic_executor.hpp:20 | A new executor becomes current on the thread that builds it |
| `TaskSchedulingObject.Scheduler.DestroyExecutor` | include/ptl/execution/basic_executor.hpp:21 | After a destructor no executor is current on the thread, whichever was |
| `TaskSchedulingObject.Scheduler.CreateCoroutine` | include/ptl/experimental/coroutine/task.hpp:23-26 | A new coroutine is suspended, with no continuation |
| `TaskSchedulingObject.Scheduler.StartRootOn` | include/ptl/experimental/coroutine/async_scope.hpp:24-32 | A coroutine that nobody awaits starts as a call of whatever the thread is in, as in `spawn` |
| `TaskSchedulingObject.Scheduler.SetContinuation` | include/ptl/experimental/coroutine/task.hpp:33-37 | The promise takes the awaiting handle and the awaiting thread's current executor, and nothing else changes |
| `TaskSchedulingObject.Scheduler.CoAwait` | include/ptl/experimental/coroutine/task.hpp:315-325 | `co_await`: a finished `Task` is not waited for; another takes the awaiter as continuation and starts in its place |
| `TaskSchedulingObject.Scheduler.ScheduleTask` | include/ptl/experimental/coroutine/task.hpp:285-290 | `schedule_on`: the `Task` takes its continuation and its handle is handed to the executor named |
| `TaskSchedulingObject.Scheduler.HopTo` | include/ptl/experimental/coroutine/detail/schedule_awaitable.hpp:18-30 | Migration does nothing on the executor's own thread and otherwise hands the running handle to it |
| `TaskSchedulingObject.Scheduler.AddToExecutor` | include/ptl/execution/basic_executor.hpp:54-59 | The handle goes to the back of the executor's queue and the thread returns to what it was in |
| `TaskSchedulingObject.Scheduler.ParkHandle` | include/ptl/experimental/coroutine/async_scope.hpp:50-54 | An awaitable that is no `Task` keeps the handle of the coroutine that awaits it |
| `TaskSchedulingObject.Scheduler.ResumeParked` | include/ptl/experimental/coroutine/async_scope.hpp:92-97 | A handle kept so is resumed, as a call of whatever the thread is in |
| `TaskSchedulingObject.Scheduler.FinishCoroutine` | include/ptl/experimental/coroutine/task.hpp:65-73 | Final suspend: continue the continuation here if its executor is null or current, otherwise hand it to that executor |
| `TaskSchedulingObject.Scheduler.RunNext` | include/ptl/execution/basic_executor.hpp:46-50 | The front of the queue is taken and runs on this thread |
| `ReferenceWordObject.WeakReferences.constructor` | include/ptl/intrusive_ptr.hpp:338 | A new object has one strong share and one weak share |
| `ReferenceWordObject.WeakReferences.PtrAddRef` | include/ptl/intrusive_ptr.hpp:356-359 | `references++` adds one strong handle |
| `ReferenceWordObject.WeakReferences.PtrAddWeakRef` | include/ptl/intrusive_ptr.hpp:387-390 | The weak add adds one weak handle |
| `ReferenceWordObject.WeakReferences.ReleaseLoad` | include/ptl/intrusive_ptr.hpp:365 | The load before the release loop |
| `ReferenceWordObject.WeakReferences.ReleaseWeakLoad` | include/ptl/intrusive_ptr.hpp:395 | The load before the weak release loop |
| `ReferenceWordObject.WeakReferences.LockLoad` | include/ptl/intrusive_ptr.hpp:413 | The load before the lock loop |
| `ReferenceWordObject.WeakReferences.ReleaseIterate` | include/ptl/intrusive_ptr.hpp:368-383 | One turn of the release loop: it destroys exactly when no strong handle is left and frees exactly when no handle is left |
| `ReferenceWordObject.WeakReferences.ReleaseWeakIterate` | include/ptl/intrusive_ptr.hpp:398-407 | One turn of the weak release loop: it frees exactly when no handle of either kind is left |
| `ReferenceWordObject.WeakReferences.LockIterate` | include/ptl/intrusive_ptr.hpp:416-426 | One turn of the lock loop: retried, refused with no strong handle left, or a strong handle more |
| `IntrusiveHandles.Handles.constructor` | include/ptl/intrusive_ptr.hpp:337-353 | No objects, no handles |
| `IntrusiveHandles.Handles.New` | include/ptl/intrusive_ptr.hpp:337-338 | A new object owns one strong share that no handle has adopted |
| `IntrusiveHandles.Handles.AddRef` | include/ptl/intrusive_ptr.hpp:356-390 | One more share of the kind asked for |
| `IntrusiveHandles.Handles.Release` | include/ptl/intrusive_ptr.hpp:363-408 | One share fewer; the object is destroyed exactly when that was its last strong one |
| `IntrusiveHandles.Handles.TryLock` | include/ptl/intrusive_ptr.hpp:411-427 | Succeeds exactly when the object is not destroyed, and then adds a strong share |
| `IntrusiveHandles.Handles.Take` | include/ptl/intrusive_ptr.hpp:157-171 | A new handle takes over a share already counted, or is null |
| `IntrusiveHandles.Handles.ConstructNull` | include/ptl/intrusive_ptr.hpp:142-144 | A null handle |
| `IntrusiveHandles.Handles.ConstructRaw` | include/ptl/intrusive_ptr.hpp:157-171 | From a raw pointer the handle adopts a share unless told to add one |
| `IntrusiveHandles.Handles.CopyConstruct` | include/ptl/intrusive_ptr.hpp:180-190 | A copy shares the object and adds one reference |
| `IntrusiveHandles.Handles.MoveConstruct` | include/ptl/intrusive_ptr.hpp:218-222 | A move takes the pointer and leaves null |
| `IntrusiveHandles.Handles.Destruct` | include/ptl/intrusive_ptr.hpp:146-155 | The handle and its share are gone; its object is destroyed if that was the last strong share |
| `IntrusiveHandles.Handles.Swap` | include/ptl/intrusive_ptr.hpp:258-261 | The two pointers change places |
| `IntrusiveHandles.Handles.CopyAssign` | include/ptl/intrusive_ptr.hpp:191-195 | Copy and swap, from any handle of the kind, itself included: the target equals the source, the old object loses one share |
| `IntrusiveHandles.Handles.MoveAssign` | include/ptl/intrusive_ptr.hpp:223-227 | Move and swap; a self-assignment leaves the handle as it was |
| `IntrusiveHandles.Handles.AssignRaw` | include/ptl/intrusive_ptr.hpp:173-177 | Assigning or resetting to a raw pointer adopts its share and drops the old one |
| `IntrusiveHandles.Handles.Reset` | include/ptl/intrusive_ptr.hpp:248-251 | The handle becomes null and its share is dropped |
| `IntrusiveHandles.Handles.WeakOf` | include/ptl/intrusive_ptr.hpp:272-275 | A weak handle to the same object, with a weak share of its own |
| `IntrusiveHandles.Handles.Lock` | include/ptl/intrusive_ptr.hpp:298-312 | A strong handle that adopts the share the lock added, or null exactly when the object is destroyed |
| `WaitAllObject.WaitAllTree.constructor` | include/ptl/experimental/coroutine/detail/wait_all_counter.hpp:10-13 | Each counter starts at its number of children plus one |
| `WaitAllObject.WaitAllTree.StartTask` | include/ptl/experimental/coroutine/detail/wait_all_task.hpp:81-85 | One start of `start_tasks`: the next child begins to run |
| `WaitAllObject.WaitAllTree.SetCoroutine` | include/ptl/experimental/coroutine/detail/wait_all_counter.hpp:21 | With all children started the awaiting handle is stored; an empty `wait_all` is ready at once |
| `WaitAllObject.WaitAllTree.BeginAwait` | include/ptl/experimental/coroutine/detail/wait_all_counter.hpp:22 | The decrement: suspends exactly when somebody has yet to notify |
| `WaitAllObject.WaitAllTree.FinishBody` | include/ptl/experimental/coroutine/detail/wait_all_task.hpp:39-42 | The body ends by value, return or exception, and its outcome is kept |
| `WaitAllObject.WaitAllTree.NotifyComplete` | include/ptl/experimental/coroutine/detail/wait_all_counter.hpp:26 | The decrement at final suspend: the last to notify is the one to resume |
| `WaitAllObject.WaitAllTree.Resume` | include/ptl/experimental/coroutine/detail/wait_all_counter.hpp:27 | The suspended parent proceeds, and no other |
| `AsyncScope.Scope.constructor` | include/ptl/experimental/coroutine/async_scope.hpp:14-16 | The count starts at the share of the join |
| `AsyncScope.Scope.OnWorkStartedByOwner` | include/ptl/experimental/coroutine/async_scope.hpp:99-101 | The assertion of `on_work_started` holds when the owner spawns |
| `AsyncScope.Scope.OnWorkStartedByWork` | include/ptl/experimental/coroutine/async_scope.hpp:99-101 | and when running work spawns |
| `AsyncScope.Scope.AddByOwner` | include/ptl/experimental/coroutine/async_scope.hpp:102 | The `fetch_add`, after which the new work runs |
| `AsyncScope.Scope.AddByWork` | include/ptl/experimental/coroutine/async_scope.hpp:102 | The same from running work |
| `AsyncScope.Scope.OnWorkFinished` | include/ptl/experimental/coroutine/async_scope.hpp:94 | The `fetch_sub`; whoever takes the last share is to resume |
| `AsyncScope.Scope.Resume` | include/ptl/experimental/coroutine/async_scope.hpp:95 | The stored continuation is resumed |
| `AsyncScope.Scope.BeginJoin` | include/ptl/experimental/coroutine/async_scope.hpp:34-61 | The one join begins |
| `AsyncScope.Scope.JoinAwaitReady` | include/ptl/experimental/coroutine/async_scope.hpp:45-48 | The load of `await_ready`, never zero |
| `AsyncScope.Scope.JoinStore` | include/ptl/experimental/coroutine/async_scope.hpp:52 | The continuation is stored before the decrement |
| `AsyncScope.Scope.JoinFetchSub` | include/ptl/experimental/coroutine/async_scope.hpp:53 | The decrement: suspends exactly when work is left |
| `RunLoop.QueuedExecutor.constructor` | include/ptl/execution/basic_executor.hpp:68-74 | Nothing queued, not finished |
| `RunLoop.QueuedExecutor.AddWork` | include/ptl/execution/basic_executor.hpp:55-57 | The locked push to the back |
| `RunLoop.QueuedExecutor.StopRunning` | include/ptl/execution/basic_executor.hpp:62-64 | The locked store of `finished_` |
| `RunLoop.QueuedExecutor.NotifyOne` | include/ptl/execution/basic_executor.hpp:58 | The notification after the lock is released wakes a sleeping runner |
| `RunLoop.QueuedExecutor.LookForWork` | include/ptl/execution/basic_executor.hpp:38-48 | The locked region of `run`: sleep, return exactly when drained and finished, or take the front item |
| `RunLoop.QueuedExecutor.ItemDone` | include/ptl/execution/basic_executor.hpp:50-51 | An item ends and the runner looks again |
| `RunLoop.QueuedExecutor.WakeSpuriously` | include/ptl/execution/basic_executor.hpp:40 | A wake-up without a notification goes back to the test |
| `RunLoop.QueuedExecutor.RunToReturn` | include/ptl/execution/basic_executor.hpp:34-52 | The loop of `run`, once stopped and left alone, terminates with everything added executed |
| `ManualResetEvent.Event.constructor` | include/ptl/sync/event.hpp:31-33 | Not set, nobody waiting |
| `ManualResetEvent.Event.StoreOne` | include/ptl/sync/event.hpp:37 | The store of `set` |
| `ManualResetEvent.Event.WakeSleepers` | include/ptl/sync/event.hpp:39-40 | The wake of `set`: every sleeper goes back to its load |
| `ManualResetEvent.Event.StoreZero` | include/ptl/sync/event.hpp:46 | The store of `reset` |
| `ManualResetEvent.Event.EnterWait` | include/ptl/sync/event.hpp:49-51 | A thread enters `wait` |
| `ManualResetEvent.Event.Load` | include/ptl/sync/event.hpp:51-57 | The load of `wait`: returns exactly when set |
| `ManualResetEvent.Event.CompareAndSleep` | include/ptl/sync/event.hpp:53-56 | The futex wait: sleeps if the state is still zero, otherwise returns with EAGAIN |
| `ManualResetEvent.Event.WakeSpuriously` | include/ptl/sync/event.hpp:53-57 | A sleeper woken for no reason loads again |
| `AsyncWait.AsyncWaitCall.constructor` | include/ptl/experimental/coroutine/sync_wait.hpp:296-299 | A fresh event, no outcome yet |
| `AsyncWait.AsyncWaitCall.YieldValue` | include/ptl/experimental/coroutine/sync_wait.hpp:50-54 | The body ends with a value |
| `AsyncWait.AsyncWaitCall.UnhandledException` | include/ptl/experimental/coroutine/sync_wait.hpp:61-64 | The body ends with an exception |
| `AsyncWait.AsyncWaitCall.NotifyStore` | include/ptl/experimental/coroutine/sync_wait.hpp:143-146 | Final suspend sets the event: its store |
| `AsyncWait.AsyncWaitCall.NotifyWake` | include/ptl/experimental/coroutine/sync_wait.hpp:143-146 | and its wake |
| `AsyncWait.AsyncWaitCall.LeaveStart` | include/ptl/experimental/coroutine/sync_wait.hpp:299-300 | `start` returns and the caller enters the wait |
| `AsyncWait.AsyncWaitCall.CallerLoads` | include/ptl/experimental/coroutine/sync_wait.hpp:300 | The caller's load in `wait` |
| `AsyncWait.AsyncWaitCall.CallerSleeps` | include/ptl/experimental/coroutine/sync_wait.hpp:300 | The caller's futex wait |
| `AsyncWait.AsyncWaitCall.CallerInterrupted` | include/ptl/experimental/coroutine/sync_wait.hpp:300 | The caller is woken for no reason |
| `AsyncWait.AsyncWaitCall.TakeResult` | include/ptl/experimental/coroutine/sync_wait.hpp:66-72 | The exception is rethrown if there is one, otherwise the value returned; one of them is there |
| `IntrusiveList.Entry.constructor` | include/ptl/containers/list.hpp:58-61 | A new entry is its own ring |
| `IntrusiveList.Item.constructor` | include/ptl/containers/list.hpp:16-20 | An item with two detached entries |
| `IntrusiveList.List.constructor` | include/ptl/containers/list.hpp:127 | A new list is empty |
| `IntrusiveList.List.Empty` | include/ptl/containers/list.hpp:161-164 | True exactly of the empty sequence |
| `IntrusiveList.List.Front` | include/ptl/containers/list.hpp:145-151 | The first item, or null exactly when empty |
| `IntrusiveList.List.Back` | include/ptl/containers/list.hpp:153-159 | The last item, or null exactly when empty |
| `IntrusiveList.List.PushBack` | include/ptl/containers/list.hpp:135-138 | Appends to the sequence |
| `IntrusiveList.List.PushFront` | include/ptl/containers/list.hpp:140-143 | Prepends to the sequence |
| `IntrusiveList.List.Unlink` | include/ptl/containers/list.hpp:63-75 | Removes the item wherever it stands; a no-op when detached |
| `PackedPtr.Packed.constructor` | include/ptl/packed_ptr.hpp:15-17 | All fields zero |
| `PackedPtr.Packed.SetPointer` | include/ptl/packed_ptr.hpp:43-46 | The pointer changes, the other fields do not |
| `PackedPtr.Packed.SetVal` | include/ptl/packed_ptr.hpp:23-26 | The value changes, the other fields do not |
| `PackedPtr.Packed.SetSmallField` | include/ptl/packed_ptr.hpp:33-36 | The small field changes, the others do not |
| `AtomicPackedPtr.AtomicPacked.constructor` | include/ptl/packed_ptr.hpp:253-255 | The zero word |
| `AtomicPackedPtr.AtomicPacked.Enter` | include/ptl/packed_ptr.hpp:261-263 | A call begins |
| `AtomicPackedPtr.AtomicPacked.LoadExpected` | include/ptl/packed_ptr.hpp:265 | The load before the loop |
| `AtomicPackedPtr.AtomicPacked.CompareExchange` | include/ptl/packed_ptr.hpp:266-268 | One turn of the loop: done exactly when the word was as expected and the exchange did not fail spuriously |
| `AtomicPackedPtr.AtomicPacked.EnterRead` | include/ptl/packed_ptr.hpp:257-258 | A call of `value()` or `get()` begins |
| `AtomicPackedPtr.AtomicPacked.ReadPart` | include/ptl/packed_ptr.hpp:259-273 | Its one load, whose result is the last write of the field |

## Left out

- ReferenceWordProperties.DestroyedExactlyThen: says which step decides the destruction, not that the destructor has returned before the memory goes; the weak share of the strong handles is dropped by the same exchange that precedes `~T` (include/ptl/intrusive_ptr.hpp:368-381), so a concurrent weak release may come first.
- ReferenceWordProperties.FreedExactlyThen: counts the step that gives the memory back; `delete ptr` rather than `derived` in one branch (include/ptl/intrusive_ptr.hpp:379) is not told apart.
- Fnv1a.OddHighBytesDiffer: goes one way; when a string with an even number of bytes of 0x80 or more, not zero, has the standard's hash is a matter of cancellation and is not characterised beyond `Fnv1a.StandardThroughout` and the witness.
- RunLoop.DrainsQueue: two steps an item for items that make no calls; items that add work are covered by `RunLoop.ReturnsWhenDrained`.
- Weak memory: acquire and release orders are read as sequential consistency.
- Wrap-around of `size_t` tickets, and a queue of capacity zero.
- The value types' own behaviour: constructors, moves and destructors that throw or re-enter.
- `push` and `try_push` (include/ptl/mpmc_queue.hpp:67-89), which forward to `emplace` and `try_emplace`; `try_push` returns nothing from its body.
- What coroutines compute: results and exceptions of `Task`, destruction of frames, moved-from and empty `Task`s.
- The reference count loops of the handle layer are run to their successful exchange in one step; their interleaving is the subject of the `ReferenceWord` files.
- `intrusive_wptr` and `intrusive_ptr` share one set of handle methods; the converting copies and moves, which differ in the pointer type only, and `intrusive_strong_reference` have no members here.
- A second `co_await` of one lvalue `wait_all`, for which `await_ready` is then true, and `non_void_result`, which misspells the member it needs.
- Destroying an executor that still holds handles, and handing one to an executor already destroyed: the queue goes with the executor (include/ptl/execution/basic_executor.hpp:17-27).
- More than one `join` of a scope and more than one runner of an executor, for which `stop` and the single continuation field are not made.
- `sync_wait`, which starts its coroutine and reads the result without waiting.
- The locked regions of `QueuedExecutor` are single steps, and the mutex and condition variable themselves are not modelled.
- Items have two list entries; a type with more of them is not modelled.
- The offset arithmetic between an item and its list entry is a pair of mutually inverse fields.
- `AtomicPackedPtr::get_add`, a `const` member that stores; packed values of signed type, which sign-extend.
- `is_modulo_undefined`, settled by its one test; integer promotion of types narrower than `int`, which changes no quotient here.
- The libev, socket and process code, the bounded ring buffer, the ordered scheduler, the singly linked lists, the bit field and the thin value wrappers.
