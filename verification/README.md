# RT-Thread kernel core, verified

Dafny models of the state machines in RT-Thread's `src/`, with proofs of what they keep over whole runs.
Objects the kernel updates in place are classes with the same fields; each method is one section that runs
with interrupts disabled (or, on several processors, with the lock of all processors held). Threads, mutexes,
message nodes, timers and heap headers are named by ids or offsets, and the links between them are fields of
type `map` or `seq`. Ghost fields hold the list, block sequence or page extents that the links stand for, and
`Valid()` ties the two together. The numbers of the source (priorities up to 0xff, 32-bit ticks and event sets,
16-bit entry counters, the two bit tables of `__rt_ffs`) are modelled with their width.

| file | what it models |
|---|---|
| `MutexInheritance.dfy`, `MutexTheorems.dfy` | mutexes with priority inheritance and ceilings; what the invariant means for a system of threads |
| `MessageQueueModel.dfy`, `MessageQueue.dfy` | the message queue as a transition system over its split critical sections; the linked queue that implements it |
| `Waiting.dfy`, `Mailbox.dfy`, `MemPool.dfy` | sleeping and woken threads; the mailbox (a ring refining a bounded deque) and the memory pool |
| `Event.dfy` | event sets: one traversal that wakes several sleepers and clears bits on the way |
| `Timers.dfy` | the timer skip list with wrapping ticks |
| `BitScan.dfy`, `ReadyTable.dfy` | both versions of `__rt_ffs`; the one- and two-level ready bitmap |
| `SchedulerUpModel.dfy`, `SchedulerUp.dfy` | the single-processor scheduler: abstract operations, and the class that finds threads through the bitmap |
| `SchedulerMp.dfy`, `SmpLock.dfy`, `SmpKernel.dfy` | per-processor ready tables, the lock that travels across context switches, and the class with both |
| `SmallHeapModel.dfy`, `SmallHeap.dfy` | the small-memory heap: offset-linked headers, first fit, lowest-free cache |
| `Rings.dfy`, `MemheapModel.dfy`, `Memheap.dfy` | the memheap: a ring of blocks and a ring of free blocks |
| `PageRuns.dfy`, `ZoneSizes.dfy`, `SlabModel.dfy`, `Slab.dfy` | the slab allocator: page list, chunk sizes, zones and chunks, the allocator with its fields |
| `Lists.dfy`, `Options.dfy`, `Arithmetic.dfy`, `Memory.dfy` | edits of lists, values or none, rounding, byte copies |

Where the code and its documentation differ, the model follows the code, shows an input and gives the exact
condition:

- A yielding thread on one processor does not go to the end of its list, because the mark is cleared before the
  list is changed (`src/scheduler_up.c:259` and 273). `SchedulersUp.YieldBeforeTheOther` runs into it from
  start-up: 2 and 1 wait, 0 yields, and the list is 0, 1 instead of 1, 0. `UpModel.YieldRotatesIff` says exactly
  when the result is nevertheless a rotation, and `UpModel.YieldingPairStarvesTheRest` what happens otherwise.
- On several processors the threads that share a ready list take turns, but on a tie a processor always prefers
  its own list to the shared one (`src/scheduler_mp.c:157-169`), so threads of the same priority in the shared
  list may never run there. `MpModel.SharedStarves` is such a state, and `MpModel.AllTurnsIff` says exactly when
  everybody gets a turn.
- `zoneindex` is not idempotent above 15360 bytes: `ZoneSizes.ZoneIndexAgain` gives the exact limit for every
  size.
- The memheap refuses a request that equals all the available bytes even when one free block holds them
  (`src/memheap.c:201`). `Memheaps.AllRefused` shows it for every fresh heap, `Memheaps.RefusedThoughItFits`
  gives the exact case.
- Handing a mutex over does not apply its ceiling to the new owner (`src/ipc.c:1477-1485`).
  `MutexTheorems.ForgottenCeiling` is a run in which a thread goes on at priority 10 though it holds a mutex with
  ceiling 5; `MutexTheorems.HandOverCeiling` says exactly when the exact minimum is nevertheless kept, and no
  other call loses it (`MutexTheorems.ExactWithCeilings`).

## Model

| member | source | states |
|---|---|---|
| MutexTheorems.ExactInheritance | src/ipc.c:763-783 | In every state the calls keep valid, without ceilings, a thread runs at exactly the minimum of its initial priority and the priorities of the mutexes it holds. |
| MutexTheorems.TwoSidedBound | src/ipc.c:763-783 | With ceilings, and even with deadlocks, the current priority lies between the minimum with ceilings counted and the minimum without them. |
| MutexTheorems.ExactWithCeilings | src/ipc.c:763-783 | With ceilings in use every thread runs at exactly the minimum with ceilings counted, in every state that no forgetful hand-over has led to. |
| MutexTheorems.NoInversion | src/ipc.c:786-834 | Along a wait chain of any length the owner at its end never ranks below the thread blocked at its start, whatever the ceilings. |
| MutexTheorems.PriorityOfChains | src/ipc.c:786-834 | Without ceilings and deadlock a thread's priority is the most urgent initial priority among all threads blocked behind it: none is above, one reaches it. |
| MutexTheorems.PrioritiesDetermined | src/ipc.c:786-834 | Two valid states with the same ownership and waiting give every thread the same priority, whatever histories led there. |
| MutexTheorems.InheritedIsMinimum | src/ipc.c:763-783 | The recursive reference minimum is a lower bound of all contributions and is one of them. |
| MutexTheorems.HandOverCeiling | src/ipc.c:1477-1485 | After a hand-over the new owner has the exact minimum with ceilings iff it was at least as urgent as the ceiling already. |
| MutexTheorems.ForgottenCeiling | src/ipc.c:1477-1485 | A run of four calls after which a thread runs at 10 although the minimum with ceilings is 5. |
| MutexInheritance.NoRecomputeNeeded | src/ipc.c:1449-1459 | When release skips the recomputation, the old priority is still within both bounds for the mutexes that are left. |
| MutexInheritance.PassOnValid | src/ipc.c:1449-1502 | Giving a mutex up and handing it to its front waiter keeps ownership, sorted wait lists, mutex priorities and every thread's bounds. |
| MutexInheritance.RequeueStep | src/ipc.c:786-834 | One propagation step leaves only the owner of the next mutex possibly out of its bounds, and moves that mutex's priority in the direction of the change. |
| MutexInheritance.DistanceShrinks | src/ipc.c:786-834 | Each step moves the sum of all priorities strictly in its direction: the measure under which the propagation ends even on a cyclic wait graph. |
| MutexInheritance.OwnerStep | src/ipc.c:786-834 | After a step the owner is settled or is the next to move, nearer to the end; a lowering may turn into a raising but not back. |
| MutexInheritance.CeilingStep | src/ipc.c:992-1016 | A new ceiling puts at most the owner out of its bounds, and never above its upper bound. |
| MutexInheritance.DropStep | src/ipc.c:942-981 | When a waiter leaves, the owner needs a new priority only if it runs at the priority of the one that left. |
| MutexInheritance.EnqueueStep | src/ipc.c:1234-1264 | Queueing up behind an owner leaves at most that owner off, and then the newcomer's priority is right for it. |
| MutexInheritance.Kernel.ThreadGetMutexPriority | src/ipc.c:763-783 | The loop finds a priority that is below all contributions with ceilings and reaches one of them. |
| MutexInheritance.Kernel.FindPosition | src/ipc.c:125-181 | The place on a priority-ordered wait list: behind all waiters as urgent, before all less urgent ones, so the list stays sorted. |
| MutexInheritance.Kernel.Requeue | src/ipc.c:745-760 | A waiter taken out and inserted again: same members, sorted by the new priorities, mutex priority that of the front. |
| MutexInheritance.Kernel.ThreadUpdatePriority | src/ipc.c:786-834 | For a waiting thread the recursive propagation ends and restores the whole invariant, changing nothing but priorities and the order of wait lists. |
| MutexInheritance.Kernel.Take | src/ipc.c:1159-1266 | A nested take counts up to the limit and answers full beyond it; a free mutex gets its owner with count 1; any other waits or is refused as asked. Nothing else changes but priorities and wait lists, and the whole invariant is kept. |
| MutexInheritance.Kernel.Release | src/ipc.c:1402-1510 | A release counts down; the last one takes the mutex off the owner's list and hands it to the front waiter with count 1, or leaves it free; a caller that is not the owner changes nothing. The invariant is kept, and exactness with ceilings is lost only by a hand-over to a thread less urgent than the ceiling. |
| MutexInheritance.Kernel.SetPrioCeiling | src/ipc.c:992-1016 | The mutex has the new ceiling, its owner and count are as before, no thread changes but in priority; a value that is no priority is refused. The invariant is kept. |
| MutexInheritance.Kernel.DropThread | src/ipc.c:942-981 | After a waiter was unlinked, the mutex and its chain of owners get their right priorities back. |
| MutexInheritance.Kernel.Detach | src/thread.c:413-457 | The thread is closed and pends on nothing, all other threads and all mutexes change at most in priority and wait list, and the invariant is kept. |
| MutexInheritance.Kernel.Run | src/ipc.c:1159-1510 | Any sequence of calls keeps the invariant, loses exactness with ceilings only through releases that forget one, and without ceiling calls no mutex gets a ceiling. |
| MutexTheorems.TakeTimes | src/ipc.c:1188-1200 | After n takes of a free mutex the thread owns it with count n. |
| MutexTheorems.ReleaseTimes | src/ipc.c:1440-1502 | The owner keeps the mutex through fewer releases than takes, and the release that matches the first take gives it up. |
| MessageQueueModel.EveryRun | src/ipc.c:3181-3349 | Under any interleaving of the sections, copies, timeouts and resets: nodes partitioned, messages intact, receives in deque order, no lost wake-up. |
| MessageQueueModel.ApplyKeeps | src/ipc.c:3216-3335 | Each atomic section of any thread keeps all of that. |
| MessageQueueModel.FreshIsValid | src/ipc.c:2936-2966 | The state after initialisation has it. |
| MessageQueueModel.FifoOrder | src/ipc.c:3306-3335 | Without urgent messages and resets what was received is a prefix of what was sent and the queue holds the rest in order. |
| MessageQueueModel.Conservation | src/ipc.c:3455-3493 | Urgent messages only change the order: sent messages are the received and the queued ones, as multisets. |
| MessageQueueModel.Delivered | src/ipc.c:3650-3675 | What a receiver copied out is the message it took, and all of it if its buffer is large enough. |
| MessageQueueModel.AppendKeeps | src/ipc.c:3306-3330 | Linking a copied message changes the deque at the right end, and there is room for the count. |
| MessageQueueModel.LinkKeeps | src/ipc.c:3306-3335 | Linking and waking a receiver keeps the invariant; the counter is below its maximum, so the overflow branch is dead. |
| MessageQueueModel.GiveBackKeeps | src/ipc.c:3671-3681 | Returning a node and waking a sender loses no wake-up. |
| MessageQueueModel.ResetKeeps | src/ipc.c:3760-3777 | A reset moves queued nodes to the free list without touching nodes in flight. |
| MessageQueueModel.Pigeonhole | src/ipc.c:3321-3330 | A list of different nodes is no longer than the pool: why the entry counter is bounded. |
| MessageQueues.MessageQueue.constructor | src/ipc.c:2936-2966 | The loop links all nodes into the free list and represents the fresh state. |
| MessageQueues.MessageQueue.SendClaim | src/ipc.c:3213-3299 | The sender gets the first free node, or with none sleeps exactly if it may wait, and is refused otherwise; a message that is too long is an error. The queue and everybody else are as before, and, like every method here, it keeps the whole invariant. |
| MessageQueues.MessageQueue.SendResume | src/ipc.c:3228-3296 | A woken sender gets the first free node, or with none sleeps again exactly if time is left. |
| MessageQueues.MessageQueue.CopyMessageIn | src/ipc.c:3301-3304 | The claimed node starts with the bytes of the message; no other node and no message in the queue changes. |
| MessageQueues.MessageQueue.LinkMessage | src/ipc.c:3306-3348 | The message joins the queue at the end, an urgent one in front; the first sleeping receiver is woken; the result is never the overflow error. |
| MessageQueues.MessageQueue.RecvTake | src/ipc.c:3569-3666 | The receiver takes the first message of the queue, or with none sleeps exactly if it may wait, and times out otherwise. |
| MessageQueues.MessageQueue.RecvResume | src/ipc.c:3637-3666 | A woken receiver takes the first message, or with none sleeps again exactly if time is left. |
| MessageQueues.MessageQueue.CopyMessageOut | src/ipc.c:3668-3669 | The unlocked copy delivers the bytes of the message that was taken. |
| MessageQueues.MessageQueue.ReturnNode | src/ipc.c:3671-3697 | The node heads the free list, the first sleeping sender is woken, and the queue is as before. |
| MessageQueues.MessageQueue.ResetQueue | src/ipc.c:3749-3785 | The loop empties the queue into the free list in the order of the transition system. |
| MessageQueues.MessageQueue.Timeout | src/thread.c:127-156 | A timeout takes one sleeper off its list and nothing else. |
| Mailboxes.Mailbox.Send | src/ipc.c:2351-2489 | Appends to the bounded deque, or sleeps or refuses exactly when it is full; wakes the first receiver. |
| Mailboxes.Mailbox.Urgent | src/ipc.c:2565-2617 | Puts a value in front of the deque, wrapping the out offset backwards. |
| Mailboxes.Mailbox.Recv | src/ipc.c:2646-2783 | Takes the front of the deque, or sleeps or gives up exactly when it is empty; wakes the first sender. |
| Mailboxes.Mailbox.Reset | src/ipc.c:2817-2849 | Empties the mailbox and both wait lists. |
| Mailboxes.Mailbox.Run | src/ipc.c:2351-2849 | Over any calls, timeouts included: while a receiver (sender) sleeps, messages (slots) are no more than woken threads that have not run; without urgent values and resets what was received is what was there and was sent, in order. |
| Mailboxes.PushBack | src/ipc.c:2454-2465 | Writing at the in offset of the ring appends to its contents. |
| Mailboxes.PushFront | src/ipc.c:2584-2598 | Writing before the out offset prepends. |
| Mailboxes.ContentsAt | src/ipc.c:2454-2465 | Entry i of the contents is the ring slot i places after the out offset. |
| Waiting.OfferOne | src/ipc.c:2461-2483 | One more on offer and the first sleeper woken keeps every sleeper covered. |
| MemPools.MemPool.constructor | src/mempool.c:89-136 | The loop threads all blocks of the pool on the embedded list. |
| MemPools.MemPool.Alloc | src/mempool.c:319-407 | Gives the first free block, or queues the caller or refuses exactly when there is none. |
| MemPools.MemPool.Free | src/mempool.c:415-465 | The block heads the list and the first sleeper is woken, with no wake-up lost. |
| MemPools.MemPool.TakeAndGiveBack | src/mempool.c:319-465 | A block taken and given back leaves the list as it was. |
| MemPools.MemPool.Run | src/mempool.c:319-465 | Over any calls, timeouts included: while a client sleeps, free blocks are no more than woken threads that have not run; blocks given out and free blocks are disjoint and together those that were free. |
| EventSets.LeftUnsatisfied | src/ipc.c:1781-1841 | A sleeper passed over during the traversal is not satisfied by the set at its end either, although bits were cleared after its turn. |
| EventSets.LeftExactly | src/ipc.c:1781-1841 | Exactly the sleepers satisfied at their own turn are woken; the rest keep their order. |
| EventSets.TurnsClear | src/ipc.c:1828-1841 | Along the traversal the set only ever loses bits. |
| EventSets.FewerBits | src/ipc.c:1797-1813 | An AND or OR wish satisfied by a set is satisfied by every larger one. |
| EventSets.GrantIsThere | src/ipc.c:1797-1813 | What a woken thread is granted was in the set and in its wish: all of it for AND, some of it for OR. |
| EventSets.GrantHas | src/ipc.c:1797-1813 | A woken thread is granted exactly the events its wish and the set have in common. |
| EventSets.SatisfiedHas | src/ipc.c:1797-1813 | An AND wish is satisfied only by sets with each of its events, an OR wish by any set with one of them. |
| EventSets.TurnHas | src/ipc.c:1781-1841 | Event by event: after i turns it is still there iff it was at the start and none of those woken till then cleared it. |
| EventSets.MinusIs | src/ipc.c:1830-1831 | Clearing takes off what the sets have in common and nothing else. |
| EventSets.MinusHas | src/ipc.c:1830-1831 | The same for each single event. |
| EventSets.EitherHas | src/ipc.c:1783-1784 | An event is in the set after a send iff it was in it or was sent. |
| EventSets.OneIs | src/ipc.c:1781-1784 | The 32 events are single in the sense of these statements. |
| EventSets.SendKeeps | src/ipc.c:1761-1851 | No sleeper left after a send is satisfied by the set. |
| EventSets.Event.Send | src/ipc.c:1761-1851 | Afterwards an event is in the set if it was or was sent and none of those woken was granted and cleared it; the wishes of all sleepers left are unmet; the woken are those satisfied at their turn, in one traversal. |
| EventSets.Event.Recv | src/ipc.c:1887-1989 | Receives the events asked for that are there, exactly when the AND or OR condition holds, and takes just those off if asked to clear; sleeps or gives up otherwise; refuses an empty wish. |
| EventSets.Event.Reset | src/ipc.c:2062-2090 | Sends every sleeper away and clears the set. |
| Timers.WindowOrder | src/timer.c:447-475 | Within a half-range window the wrapping comparison is the order of the distances from its start. |
| Timers.PassesIsMonotone | src/timer.c:447-475 | Once a timer goes before one member of a row it goes before all later ones: why each row's search may stop. |
| Timers.RowsNest | src/timer.c:481-496 | Each row of the skip list is a subsequence of the row below it. |
| Timers.TallerIsSubsequence | src/timer.c:481-496 | The members that reach a greater height are a subsequence of those that reach a smaller one. |
| Timers.RowsInsert | src/timer.c:481-496 | Linking at the positions found in the lowest k rows is inserting into the sorted list at height k. |
| Timers.RowsWithout | src/timer.c:188-196 | Unlinking from every row is deleting from the sorted list. |
| Timers.InsertOrdered | src/timer.c:447-496 | Insertion between the earlier-or-equal and the later timers keeps the wrapping order. |
| Timers.SplitsByOffset | src/timer.c:464-471 | The wrapping tests at the insertion point separate the timers due no later from those due later. |
| Timers.ByOffset | src/timer.c:672-673 | The wrapping test for expiry says that the timer is due by now. |
| Timers.TimerList.Search | src/timer.c:447-475 | Searching row by row from where the row above stopped finds, in every row, the point after all timers that fire no later. |
| Timers.TimerList.InsertRows | src/timer.c:481-496 | Whatever the insertion counter says, the timer is linked in the bottom row and consistently above it. |
| Timers.TimerList.Start | src/timer.c:407-523 | Behind every timer due no later, counted in ticks from the start of the window (so first in, first out on ties), and before every later one; due one period from now. |
| Timers.TimerList.Stop | src/timer.c:533-560 | Removes the timer from the list and all rows; an error exactly for an inactive one. |
| Timers.TimerList.FireFirst | src/timer.c:672-707 | One round of the check loop: a periodic timer is armed again and inserted in order, a one-shot one leaves. |
| Timers.TimerList.Check | src/timer.c:647-714 | Ends; fires exactly the timers due by now, counted in ticks from the start of the window, the earlier before the later; a periodic one is due one period from now, a one-shot one is off; what is left is due later. |
| BitScan.FfsFindsLowest | src/kservice.c:2098-2153 | The table-driven scan returns one more than the lowest set bit, zero only for zero. |
| BitScan.TinyFfsAgrees | src/kservice.c:2072-2096 | The 37-entry version gives the same result for every word. |
| BitScan.UpdateBit | src/scheduler_up.c:390-394 | Setting and clearing a mask changes that bit and no other. |
| ReadyTables.InsertKeeps | src/scheduler_up.c:356-399 | After an insertion a priority's bit (in one or two levels) is set iff its list is not empty. |
| ReadyTables.RemoveKeeps | src/scheduler_up.c:408-438 | The same after a removal, also of the last thread of a group. |
| ReadyTables.HighestIsLeast | src/scheduler_up.c:141-163 | The priority the bitmap search finds is the least one with a thread waiting. |
| ReadyTables.EmptyAgrees | src/scheduler_up.c:168-188 | The empty table agrees with its bitmap. |
| SchedulersUp.BestIsFirst | src/scheduler_up.c:141-163 | The two-level search and a plain scan of the lists give the same priority. |
| UpModel.ScheduleKeeps | src/scheduler_up.c:224-343 | Scheduling in any state keeps each ready thread on the list of its priority and nowhere else, and with the scheduler unlocked no ready thread outranks the running one. |
| UpModel.StaysIff | src/scheduler_up.c:245-260 | The running thread stays exactly if every ready thread is less urgent, or as urgent while it has not yielded. |
| UpModel.ScheduleEffect | src/scheduler_up.c:233-300 | A locked scheduler changes nothing; otherwise the first thread of the best list takes over and only those two threads change. |
| UpModel.SwitchedLists | src/scheduler_up.c:262-277 | After a switch the thread that ran is first in its list and the one that took over is on none; all other lists are as they were. |
| UpModel.SwitchKeeps | src/scheduler_up.c:262-277 | A switch puts a running thread back on its list and takes the next one off, with nothing lost or doubled. |
| UpModel.ResumeKeeps | src/thread.c:1041-1079 | Resuming keeps lists and states in agreement. |
| UpModel.StartupKeeps | src/thread.c:372-401 | So does starting a thread. |
| UpModel.SuspendKeeps | src/thread.c:976-1024 | So does suspending the running one. |
| UpModel.ChangeKeeps | src/thread.c:847-890 | So does changing a priority, ready or not. |
| UpModel.CloseKeeps | src/thread.c:413-457 | So does closing a thread. |
| UpModel.ResumeEffect | src/thread.c:1041-1079 | Only a suspended thread is resumed: to the front of its list, to the end if it has yielded; the current one just goes on. |
| UpModel.StartupEffect | src/thread.c:372-401 | A started thread gets the masks of its priority and comes to the front of its list. |
| UpModel.SuspendEffect | src/thread.c:976-1024 | The current thread is suspended and on no list; nothing else changes. |
| UpModel.ChangeEffect | src/thread.c:847-890 | A ready thread leaves its list for the front of the new one; any other thread only changes priority and masks. |
| UpModel.CloseEffect | src/thread.c:413-457 | A closed thread is on no list; nothing else changes. |
| UpModel.YieldTrades | src/scheduler_up.c:245-277 | A yield trades places with the first thread of the same priority; the yielding one is first in line again. |
| UpModel.YieldRotatesIff | src/scheduler_up.c:245-277 | The list after a yield is the rotated one iff a single other thread waits at that priority. |
| SchedulersUp.YieldBeforeTheOther | src/scheduler_up.c:245-277 | From start-up: with 2 and 1 waiting in this order, 0 yields and waits before 1, not behind it. |
| UpModel.YieldingPairStarvesTheRest | src/scheduler_up.c:245-277 | However often they yield, the processor goes back and forth between the first two threads and the others stay where they are. |
| SchedulersUp.Scheduler.Schedule | src/scheduler_up.c:224-343 | The code that works on bitmap and lists does what the model says and keeps the bitmap right; unlocked, nothing ready outranks the running thread. |
| SchedulersUp.Scheduler.InsertThread | src/scheduler_up.c:356-399 | Insertion through the thread's masks does what the model says. |
| SchedulersUp.Scheduler.RemoveThread | src/scheduler_up.c:408-438 | So does removal. |
| SchedulersUp.Scheduler.Startup | src/thread.c:372-401 | Startup computes the masks that the index relies on. |
| SchedulersUp.Scheduler.ChangePriority | src/thread.c:847-890 | A ready thread moves between lists with its old and its new masks. |
| SchedulersUp.Scheduler.Yield | src/thread.c:582-595 | Marks the running thread and schedules. |
| SchedulersUp.Scheduler.ExitCritical | src/scheduler_up.c:464-489 | The last exit schedules, so that nothing ready outranks the running thread; other exits only count. |
| SchedulersUp.Scheduler.Run | src/scheduler_up.c:224-489 | Any script of calls keeps bitmap, lists and thread states in agreement. |
| MpModel.PickIsLeast | src/scheduler_mp.c:139-173 | The thread picked from the shared and the local table is ready, may run on that processor, and no such thread outranks it. |
| MpModel.ScheduleKeeps | src/scheduler_mp.c:305-346 | Scheduling keeps every table, bitmap and placement right on all processors, leaves no ready thread above the one running there, and takes no thread from another processor. |
| MpModel.StaysIff | src/scheduler_mp.c:313-334 | The thread on a processor stays exactly if it runs, may run there, and every ready thread that may is less urgent, or as urgent while it has not yielded. |
| MpModel.HeadTakesOver | src/scheduler_mp.c:139-173 | Who takes over heads the list of its priority in the processor's own table, or in the shared one if that list is empty. |
| MpModel.ScheduleEffect | src/scheduler_mp.c:308-346 | Only the two threads that trade places change, and only on that processor. |
| MpModel.SwitchedLists | src/scheduler_mp.c:308-346 | The thread that ran is first in its list, last if it yielded; the one that took over is on none. |
| MpModel.InsertLists | src/scheduler_mp.c:509-593 | A thread off every processor goes on the one list of its binding and priority. |
| MpModel.RemoveUnlists | src/scheduler_mp.c:602-652 | Removal takes a thread off that list and clears the bit when it was the last. |
| MpModel.YieldRotates | src/scheduler_mp.c:313-334 | A yield turns the ring of threads of the best priority by one. |
| MpModel.RoundRobin | src/scheduler_mp.c:313-334 | After n yields the ring of the running thread and the list it shares is turned by n: every thread of that list runs in its turn. |
| MpModel.AllTurnsIff | src/scheduler_mp.c:157-169 | Every thread of that priority that may run on the processor gets its turn iff none of them waits in the other table. |
| MpModel.OthersWait | src/scheduler_mp.c:157-169 | However many yields, every other table stays as it is: what waits there starves. |
| MpModel.SharedStarves | src/scheduler_mp.c:157-169 | A state in which a thread of the shared table never runs, though it is as urgent as those that do. |
| MpModel.RelistKeeps | src/thread.c:758-814 | A change of binding or priority moves a ready thread between tables and leaves it on exactly one list. |
| MpModel.RelistList | src/thread.c:847-890 | A thread that changes priority or binding leaves its list for the front of the new one; a thread that is not ready is on none. |
| MpModel.OperationKeeps | src/thread.c:758-890 | No operation under the lock disturbs tables or placement, or changes which thread runs where. |
| SmpLock.EveryRun | src/cpu.c:195-262 | From start-up, under any interleaving of the processors' steps, the lock, the nest counters and the scheduler stay consistent. |
| SmpLock.StepKeeps | src/scheduler_mp.c:400-499 | Every single step, also interrupts and switches out of them, keeps that invariant. |
| SmpLock.RunSafety | src/cpu.c:195-262 | So over every run: a processor holds the lock iff its thread counts on it and is past the spin lock, at most one does, and there the test for a scheduler nest of 1 means that no critical section and no region without preemption is open. |
| SmpLock.NestsReturn | src/scheduler_mp.c:657-741 | Lock and unlock, and enter and exit, restore a thread's counters at any depth. |
| SmpLock.LockAndUnlock | src/cpu.c:195-240 | Taking and giving back the lock leaves the whole system as it was. |
| SmpLock.EnterAndExit | src/scheduler_mp.c:657-741 | So does an empty critical section. |
| SmpLock.ScheduleInv | src/scheduler_mp.c:266-393 | rt_schedule keeps the invariant; when it may switch it leaves nothing ready above what runs; inside an interrupt it only asks for a switch on the way out; with a section open it does nothing. |
| SmpLock.IrqSwitchInv | src/scheduler_mp.c:400-499 | When a switch was asked for and may be done, nothing ready outranks what runs afterwards and the request is gone; otherwise nothing changes. The invariant is kept. |
| SmpLock.IrqEffect | src/irq.c:81-114 | Interrupts are off from the start of an interrupt until its way out is over, and only the nest count and the mark of the way out change. |
| SmpLock.BootInv | src/scheduler_mp.c:222-238 | The state once every processor has entered its idle thread satisfies the invariant. |
| SmpKernels.Processors.constructor | src/scheduler_mp.c:178-216 | Empty tables, each processor in its idle thread: the start state of the runs above. |
| SmpKernels.Processors.HighestPriorityThread | src/scheduler_mp.c:139-173 | Comparing the two words as unsigned numbers finds the best ready thread for this processor. |
| SmpKernels.Processors.Choose | src/scheduler_mp.c:308-346 | Picking, putting back and taking off through the fields does what the scheduler's reference step does. |
| SmpKernels.Processors.Schedule | src/scheduler_mp.c:266-393 | The running thread stays exactly if no ready thread has a claim; otherwise the two trade places and the lock goes with the new one; inside an interrupt only the request is noted. The fields follow the step, the invariant is kept. |
| SmpKernels.Processors.DoIrqSwitch | src/scheduler_mp.c:400-499 | With a request and no section open: nothing ready outranks what runs afterwards, the request is gone, and an interrupted thread that leaves has no count on the lock; otherwise nothing changes. |
| SmpKernels.Processors.RestoreLock | src/cpu.c:250-262 | The new thread is current, and the lock is given up unless that thread counts on it. |
| SmpKernels.Processors.CpusLock | src/cpu.c:195-216 | Only the outermost lock waits for the spin lock and raises the scheduler nest. |
| SmpKernels.Processors.SpinLock | src/cpu.c:207-211 | A processor gets the lock only when nobody holds it, and only then do the counts of a critical section that waited for it rise. |
| SmpKernels.Processors.CpusUnlock | src/cpu.c:224-240 | Only the outermost unlock frees the spin lock and lowers the scheduler nest. |
| SmpKernels.Processors.EnterCritical | src/scheduler_mp.c:657-695 | Counts in the lock, in the critical nest and in the scheduler nest, keeping their relation. |
| SmpKernels.Processors.ExitCritical | src/scheduler_mp.c:701-741 | Undoes that, and goes on to the scheduler iff neither a lock nor a region without preemption is left. |
| SmpKernels.Processors.CpuBind | src/thread.c:758-814 | Binding follows the reference operation, with every number out of range read as "any processor". |
| SmpKernels.Processors.ChangePriority | src/thread.c:847-890 | A ready thread moves to the list of its new priority in the same table. |
| SmpKernels.Processors.Resume | src/thread.c:1041-1079 | Only a suspended thread is resumed; one still on a processor runs on instead of being listed. |
| SmallHeapModel.SearchRange | src/mem.c:316-318 | Every free block that fits lies between the lowest free block and the last offset the search looks at: first fit misses none. |
| SmallHeapModel.ReleaseInvertsCarve | src/mem.c:515-558 | Freeing the block just allocated gives back the very same blocks. |
| SmallHeapModel.CarvedValid | src/mem.c:316-403 | Allocation keeps the tiling and the merging, adds the span of the block it gives to what is in use, and gives less than a header and a smallest block more than asked for. |
| SmallHeapModel.ReleasedValid | src/mem.c:515-558 | Freeing keeps them and takes exactly that span away. |
| SmallHeapModel.ShrunkValid | src/mem.c:467-495 | Cutting a block in place keeps them and gives back exactly the bytes cut off. |
| SmallHeapModel.PluggedValid | src/mem.c:126-164 | After plugging, no two neighbours are free, whatever stood around the hole. |
| SmallHeaps.JoinLinked | src/mem.c:126-164 | The header writes of a merge leave headers that link exactly the merged blocks, both ways. |
| SmallHeaps.SplitLinked | src/mem.c:340-357 | The header writes of a split leave headers that link exactly the split blocks. |
| SmallHeaps.JoinLowest | src/mem.c:126-164 | A merge moves the lowest free block only if that was the block taken in: what the test on the cache relies on. |
| SmallHeaps.ApartBlocks | src/mem.c:278-407 | Different blocks share no byte and lie within the heap. |
| SmallHeaps.RoundedIs | src/mem.c:303-307 | The rounded request is the smallest block or the next multiple of the alignment. |
| SmallHeaps.AllocEffect | src/mem.c:316-403 | The block given has its size in that range, its span is what use grows by, and every block in use before survives. |
| SmallHeaps.FirstIsLowest | src/mem.c:316-318 | The first block that fits is the one with the lowest address. |
| SmallHeaps.SmallMem.constructor | src/mem.c:177-241 | The fresh heap is one free block and the sentinel. |
| SmallHeaps.SmallMem.PlugHoles | src/mem.c:126-164 | The header and cache updates merge the block with its free neighbours on both sides. |
| SmallHeaps.SmallMem.Alloc | src/mem.c:278-407 | NULL iff the request is zero or no free block has the room after rounding; otherwise the lowest that has, cut so that less than a header and a smallest block is wasted; used grows by its span, the high-water mark follows, and all other blocks keep place and bytes. |
| SmallHeaps.SmallMem.SeekLowest | src/mem.c:384-391 | The loop moves the cache to the lowest free block or the sentinel. |
| SmallHeaps.SmallMem.Free | src/mem.c:515-558 | Used falls by the span of the block, it is merged with its free neighbours, the cache is right, all other blocks keep place and bytes; NULL changes nothing. |
| SmallHeaps.SmallMem.AllocAndFree | src/mem.c:278-558 | Whatever is asked for, allocating and freeing restores the block layout, the cache and the used bytes. |
| SmallHeaps.SmallMem.Realloc | src/mem.c:421-506 | The first min(old, new) bytes go along, every other live block keeps its place and bytes; the block stays, cut to size, exactly if it fits or enough is left over; otherwise NULL iff no free block has the room, and then nothing changes. |
| Rings.UnlinkRing | src/memheap.c:42-50 | Unlinking a node by its two neighbours gives the ring without it. |
| Rings.LinkRing | src/memheap.c:274-278 | Linking a node after another gives the ring with it there, also next to the head. |
| MemheapModel.SplitFree | src/memheap.c:237-289 | After a split the free blocks are those before, less the one taken, and the remainder. |
| MemheapModel.FusedFree | src/memheap.c:646-690 | After a merge only the block taken in is no longer free. |
| MemheapModel.SplitRooms | src/memheap.c:237-289 | A split costs the free bytes the part taken and one header. |
| Memheaps.MergeOrder | src/memheap.c:646-690 | Merging left first and then right gives the same blocks as the other order. |
| Memheaps.FoundFits | src/memheap.c:218-234 | The search of the free list finds a block iff some block of the heap fits. |
| Memheaps.RefusedThoughItFits | src/memheap.c:201-229 | The first test refuses a request some free block holds iff it asks for exactly all that is available. |
| Memheaps.AllRefused | src/memheap.c:201-229 | Every fresh heap refuses a request for all its bytes, although its one block holds them. |
| Memheaps.RefusedExample | src/memheap.c:201-229 | Such a heap: a pool of 128 bytes with headers of 16 refuses 96 bytes. |
| Memheaps.HighestIs | src/memheap.c:283-296 | The recorded maximum is one of the levels of use since the start, and none is above it. |
| Memheaps.GrownValid | src/memheap.c:431-486 | Growing into the next block keeps tiling and merging and costs the free bytes just the growth. |
| Memheaps.GrownListed | src/memheap.c:431-486 | And the free ring then holds exactly the free blocks. |
| Memheaps.ShrunkRooms | src/memheap.c:522-579 | Giving bytes back never lowers what is available. |
| Memheaps.MemHeap.constructor | src/memheap.c:75-151 | The fresh pool: one free block, the tail, both rings closed. |
| Memheaps.MemHeap.Search | src/memheap.c:218-234 | The loop stops at the first listed block with room, or at the head. |
| Memheaps.MemHeap.Alloc | src/memheap.c:184-347 | NULL iff the rounded request is not below what is available or no free block has the room; otherwise the first listed block that has, cut so that less than a header and a smallest block is wasted; all other blocks keep place and bytes; the high-water mark stays the maximum of all levels of use since the start. |
| Memheaps.MemHeap.MergeLeft | src/memheap.c:646-668 | A free block before takes the freed one in, and is on the list already. |
| Memheaps.MemHeap.MergeRight | src/memheap.c:670-690 | A free block after is taken in and leaves the list. |
| Memheaps.MemHeap.Free | src/memheap.c:598-725 | At least the room of the block becomes available, it is merged on both sides, both rings and the available bytes agree again, all other blocks keep place and bytes; NULL changes nothing. |
| Memheaps.MemHeap.Grow | src/memheap.c:431-486 | Growth in place relinks both rings to the grown block and its remainder. |
| Memheaps.MemHeap.Shrink | src/memheap.c:522-579 | The cut part is merged with a free block after it and listed. |
| Memheaps.MemHeap.Realloc | src/memheap.c:362-589 | The data goes along and the other blocks stay; a block large enough stays, cut to size if enough is left over; one that is not grows in place exactly when the next block allows it; otherwise NULL iff an allocation would be refused, and then nothing changes. The high-water mark stays the maximum over all levels of use. |
| PageRuns.PutFrees | src/slab.c:252-294 | After giving pages back, free are exactly the pages free before and those. |
| PageRuns.CutFrees | src/slab.c:211-241 | After taking pages, free are exactly the pages free before less those. |
| PageRuns.PutRuns | src/slab.c:252-294 | The runs stay sorted, apart and maximally coalesced. |
| PageRuns.PutInvertsCut | src/slab.c:211-294 | Giving the pages just taken back gives the identical list. |
| PageRuns.SameFreeSameRuns | src/slab.c:252-294 | The list is determined by the set of free pages. |
| PageRuns.FreePagesInOneRun | src/slab.c:211-241 | Consecutive free pages always lie in one run. |
| ZoneSizes.ZoneFits | src/slab.c:406-464 | The index is below 72 and alone gives the chunk size, which is the smallest that holds the request; the waste is below an eighth from 128 bytes on. |
| ZoneSizes.ZoneIndexAgain | src/slab.c:406-464 | A second call with the rounded size gives the same zone iff the request was at most 15360 bytes; above, it gives zone 0. |
| ZoneSizes.LargerRequestLargerZone | src/slab.c:406-464 | Zone and chunk size are monotone in the request. |
| ZoneSizes.RoomForTwo | src/slab.c:619-637 | A fresh zone lies within its pages and holds two chunks at least. |
| SlabModel.LiveApart | src/slab.c:485-651 | No two live objects, chunks or page runs, share a byte. |
| SlabModel.LiveInside | src/slab.c:485-651 | A live object lies inside its own zone or pages. |
| SlabModel.LiveChunks | src/slab.c:485-651 | A zone's part of the used bytes is the number of its live chunks times their size. |
| SlabModel.PageOfChunk | src/slab.c:779-786 | The page an object starts on belongs to its zone: how free finds it. |
| SlabModel.TakePages | src/slab.c:211-241 | A page allocation keeps extents disjoint and free and taken pages complementary. |
| SlabModel.GivePages | src/slab.c:252-294 | So does a page release. |
| Slabs.NoRunNoPages | src/slab.c:211-241 | The page allocator fails iff no stretch of free pages is long enough. |
| Slabs.TakeFresh | src/slab.c:556-560 | A chunk never given out becomes live and no other changes; the zone's count of free chunks stays exact. |
| Slabs.TakeFreed | src/slab.c:561-568 | The same for a chunk from the zone's free list. |
| Slabs.PickChunk | src/slab.c:541-568 | Any zone with free chunks gives one that was not live. |
| Slabs.ZoneSize | src/slab.c:356-365 | The loop picks the zone size and limit for the size of the heap. |
| Slabs.Slab.constructor | src/slab.c:319-378 | The fresh allocator, with its usage table on the first pages and nothing live. |
| Slabs.Slab.PageAlloc | src/slab.c:211-241 | The pointer-to-pointer search takes pages from the first run long enough. |
| Slabs.Slab.PageFree | src/slab.c:252-294 | The loop finds the one place where the pages belong and joins them with what they touch. |
| Slabs.Slab.Alloc | src/slab.c:485-651 | NULL exactly without pages or zone to serve the size; otherwise one object of exactly the rounded size becomes live, from the first zone of the list, else from an idle zone, else from new pages; nothing else changes and both counters follow. |
| Slabs.Slab.GiveChunk | src/slab.c:779-798 | The chunk heads its zone's list of free chunks and the zone heads its array list if it was full. |
| Slabs.Slab.Retire | src/slab.c:806-850 | A zone all free leaves its list and lies idle, or, with two idle already, gives exactly its pages back. |
| Slabs.SpareGone | src/slab.c:806-824 | Once a zone that is all free has left its list, no list keeps two of them, whether its pages are given back or not. |
| Slabs.SpareKept | src/slab.c:806-807 | Without retirement no list keeps two of them either: the zone has a chunk in use, or is alone on its list. |
| Slabs.Slab.Free | src/slab.c:734-851 | Exactly the object freed stops being live and use falls by its size; its zone is retired exactly if it is all free and not alone on its list, so that no list keeps two zones that are all free; pages become free exactly for a large object or a third idle zone; NULL changes nothing. |
| Slabs.Slab.Realloc | src/slab.c:665-723 | The data goes along and all other live objects keep place and bytes; a chunk stays exactly if the size maps to the same chunk; otherwise NULL iff an allocation would be refused, and then nothing changes; without an old object it is an allocation. |

## Left out

- MutexInheritance.Kernel.Take: only waiting without limit and not waiting at all; after a timed-out or interrupted take `pending_object` keeps its old value, so the exact invariant does not cover `src/ipc.c:1293-1336`.
- MutexInheritance.Kernel.Detach: closes a thread as far as the mutex it waits for is concerned; mutexes it owns stay owned, as in the source.
- Mutex detach and delete, and user calls that change the priority of a thread that holds or waits for a mutex.
- Exact equality with ceilings in use is false of the code after some hand-overs (`MutexTheorems.ForgottenCeiling`); the two-sided bound holds throughout.
- Semaphores: counting and waking only, without a property that the mailbox and the memory pool do not show.
- Mailboxes.Mailbox.Send: the caller may end up at any place of the wait list, which covers both the FIFO and the priority order; the priority order itself is shown for mutexes.
- Mailboxes.Mailbox.Recv: the same.
- EventSets.Event.Recv: the same; the caller gives RT_EVENT_FLAG_AND or RT_EVENT_FLAG_OR, which the source asserts.
- MessageQueues.MessageQueue.SendClaim: the same.
- MessageQueues.MessageQueue.RecvTake: the same.
- MessageQueues.MessageQueue.constructor: a pool of at most 65535 messages, the width of the entry counter; a pool too small for one message is refused by the source before this point.
- MemPools.MemPool.constructor: a pool of zero blocks, for which initialisation writes before the pool (`src/mempool.c:89-136`), is not modelled.
- MemPools.MemPool.Free: a pointer that is not a block given out is the caller's error in the source too; so it is for the free and realloc of the three heaps.
- SmallHeaps.SmallMem.constructor: the alignment arithmetic on the start address; offsets count from an aligned start. The same holds of the memheap and the slab allocator, so chunk alignment in a slab is relative to the heap's start.
- SmallHeaps.SmallMem.Alloc: sizes so near the word limit that rounding wraps are not modelled; the same holds of the other heaps.
- Header bytes are no part of the byte contents: headers and user data are separate fields.
- Memheaps.MemHeap.Free: the order of the free list in best-fit mode, where alloc and realloc still insert at the head, is not modelled; nor is the memheap's own semaphore.
- Timers.TimerList.Start: stated for live timeouts within a window shorter than half the tick range; without one the wrapping comparison is no order.
- Timers.TimerList.Check: the same, with callbacks that touch neither timers nor the tick; the soft-timer thread repeats the same loop.
- Round-robin fairness on one processor is false of the code; the lemmas on yielding state what it does instead.
- SmpLock.BootInv: the switch of each processor from no thread at all to its idle thread is not modelled.
- SmpKernels.Processors.constructor: the same.
- SmpLock.StepKeeps: an interrupt does not interrupt another on the same processor.
- Several processors with more than 32 priorities: the table is indexed from an empty group (`src/scheduler_mp.c:147-150`).
- SchedulersUp.Scheduler.Close: the mutex the thread waits for is treated in MutexInheritance.
- Requests to schedule that one processor sends to others: a processor may schedule at any step. The spin lock, stack switching and interrupt masking are one abstract step each, and threads are not closed in the multi-processor model.
- Signals, hooks, RT_USING_SMART, modules, debug checks, MEMTRACE, the object registry, start-up, idle clean-up, console and devices.
