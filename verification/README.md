# ZerOS kernel: a verified model

ZerOS is a single-core RTOS kernel written as header templates over abstract
drivers. This project models its concurrent core in Dafny and proves what holds in
every run: scheduling and priority inheritance, the wrapping time kernel with its
timers and sleepers, the blocking primitives, the intrusive list under all of them,
the block allocator, the critical sections and the tickless idle loop.

## How it is built

Every `CriticalGuard` region of the source is one atomic step. For each component
there are up to three layers.

* **A specification on values** (`SchedulerSpec`, `MutexSpec`, `TimeKernelSpec`,
  `TimerSpec`, `SemaphoreSpec`, `MsgQueueSpec`, `EventGroupSpec`, `PoolSpec`, ...):
  one function per guarded region, with the branches, constants and error answers of
  the code.
* **The objects** (`Scheduler`, `Mutex`, `TimeKernel`, `TimerBoard`, `Semaphore`,
  `MsgQueue`, `EventGroup`, `SelfList`, `TimerQueue`, `Bitmap`, `BitmapPool`,
  `CriticalSection`): classes with the source's fields, loops and arrays, each method
  proved to compute its specification. Pointers appear in `SelfList` and in
  `TimerQueue`, which is built on it; the other objects hold their lists as sequences,
  with the operations that `SelfList` is proved to perform.
* **Runs**: state machines over any number of tasks, in which any enabled step may
  come next, and theorems about every state of every run.

Where the specification would only repeat the code, there is an independent
reference to compare with: the *ledger* (`TimeLedger.dfy`), an unbounded-time,
queue-less account of bookings; `PickNextIsMostUrgent`, which speaks of runnable
tasks and never of rings or bitmaps; `PoolSpec`, a linear scan with client-side
histories; for the message queue the bare sequence of messages written; and for all
three primitives the list of calls made, from which every answer is determined.

A callback that runs inside the drain loop may book and cancel at will. What the
k-th callback does is the k-th entry of a *script*; theorems quantify over scripts.

| file | subject |
|---|---|
| `Lists`, `SelfList`, `TimerQueue` | the intrusive list, on sequences and on the heap, and the deadline queue built on it |
| `BitOps`, `Bitmap`, `Arith` | 32-bit words as numbers, the bare-word bitmap |
| `SchedulerSpec`, `Scheduler`, `RoundRobin`, `Slices` | rings, picking, time slices, switch requests |
| `MutexSpec`, `Mutex`, `Inheritance`, `LockHistory` | lock, unlock, boosts, whole runs, what the answers mean |
| `Ticks`, `TimeKernelSpec`, `TimeKernel`, `TimeLedger`, `TimeRuns`, `AlarmTruth`, `TimeBound` | the deadline queue, the lazy alarm, the exact range |
| `TimerSpec`, `TimerBoard`, `TimerRuns`, `TimerBeat`, `TimerHistory` | one-shot and periodic timers |
| `Sleep`, `SleepCalls` | scheduler and time kernel together |
| `SemaphoreSpec`, `Semaphore`, `LeftoverAlarm`, `MsgQueueSpec`, `MsgQueue`, `EventGroupSpec`, `EventGroup` | the blocking primitives |
| `SemaphoreHistory`, `MsgQueueHistory`, `EventHistory` | their answers in terms of the calls made |
| `PoolSpec`, `BitmapPool` | the two-level block allocator with poison marks |
| `CriticalSection`, `Tickless` | BASEPRI nesting, one-shot SysTick splitting |

`dafny verify dfyconfig.toml` checks the whole project.

## What the code relies on

These conditions are stated in the model as enabling conditions of steps. Where one
of them is needed, a lemma says exactly why.

* `block` is complete only for a task that sits in no ring (`BlockGoodIff`); `yield`
  and a slice-ending tick push the current task without looking at its state, so they
  need it Running (`YieldGoodIff`, `OnTickGoodIff`). On the chip this follows from
  PendSV and SysTick having the same exception priority (section B1.5.4 of the
  ARMv7-M Architecture Reference Manual).
* `reprioritize` requests no switch; `ReprioritizeUrgentIff` says exactly when it keeps
  the most urgent task running all the same. The mutex needs more than that, and
  `Inheritance` shows that its own block and wake make up for it.
* A parked waiter may be woken only by the primitive that pops it or by its own
  current deadline. Its loop re-inserts a node that may still be linked:
  `SemaphoreSpec.StrayWakeKeepsListIff`, `MutexSpec.StrayWakeKeepsListIff` and
  `EventGroupSpec.StrayWakeSoundIff` give the exact condition for each primitive on
  sequences, and `SelfList.InsertLinked` shows on the heap, for any order, that no
  chain through all nodes is left. Two sources of such wakes exist in the code:
  `notify` to a parked task, and an alarm left booked after a timed wait
  (`AlarmLeftIff` says exactly when one is left, `OldAlarmLinksTwice` what it does).
* Elapsed step and span are each below 2^31 ticks and together at most 2^31. This is
  exact: `BoundIsExact` gives, for every step and span beyond it, bookings that the
  kernel gets wrong. `LongTimeoutIsImmediate` shows what a longer time-out does.
* Callbacks of the drain book at least one tick ahead; this is what makes it end
  (`FireShrinks`).
* A task holds at most one mutex and does not lock while holding one, because the
  saved priority is kept per mutex.

## Where code and comments disagree

The model follows the code.

* `Ticks::is_after` answers "has been reached", the opposite of its name.
* The comment on `notify` says a parked task may be woken "by mistake" without harm;
  the re-inserting loops do not allow that (the three stray-wake lemmas).
* The re-boost branch of `unlock` never runs: the waiters are in priority order, so
  the next waiter is never more urgent than the new owner (`NoReboost`).
* An event group pulse (set, then clear before the woken task runs) can be missed;
  `PulseSeenIff` says exactly when it is seen.
* The tickless clamp is written for any `cycles_per_tick`; reported time is true
  exactly for 2 to 2^24 cycles per tick (`HonestIff`).

## Model

| member | source | states |
|---|---|---|
| `Lists.Insert` | include/ZerOS/base/self_list.hpp:28-40 | the inserted list has exactly the old elements and the new one |
| `Lists.InsertShape` | include/ZerOS/base/self_list.hpp:28-40 | stable sorted insertion: elements before the first greater one stay, the rest shift by one |
| `Lists.DropUnique` | include/ZerOS/base/self_list.hpp:54-70 | removal takes out exactly that element and keeps the rest free of repeats |
| `SelfLists.SelfList.Insert` | include/ZerOS/base/self_list.hpp:28-40 | on the heap: the chain stays acyclic, tail is last, and the nodes are the stable sorted insertion of the new one |
| `SelfLists.SelfList.PushBack` | include/ZerOS/base/self_list.hpp:44-52 | appends, tail pointer exact |
| `SelfLists.SelfList.PushFront` | include/ZerOS/base/self_list.hpp:72-78 | prepends, tail pointer exact also for the empty list |
| `SelfLists.SelfList.PopHead` | include/ZerOS/base/self_list.hpp:80-90 | takes the first node, detached, and leaves every other link untouched |
| `SelfLists.SelfList.Remove` | include/ZerOS/base/self_list.hpp:54-70 | removal by identity, answer true iff the node was linked, tail repaired, node detached |
| `SelfLists.SelfList.Empty` | include/ZerOS/base/self_list.hpp:91-91 | true iff the list is empty |
| `SelfLists.SelfList.InsertLinked` | include/ZerOS/base/self_list.hpp:28-40 | inserting a node that is already linked, under any order in which it does not precede itself: no valid chain contains all the nodes afterwards |
| `SelfLists.BrokenChain` | include/ZerOS/base/self_list.hpp:28-40 | why: inserted before itself or right behind itself the chain loops, further down everything between is cut off |
| `SelfLists.UnorderedAppends` | include/ZerOS/base/self_list.hpp:18-40 | with the default comparator sorted insertion is an append |
| `TimerQueues.TimerQueue.Insert` | include/ZerOS/kernel/clock/timequeue.hpp:13-13 | on the heap list: the contents are the kernel's queue with the booking inserted in deadline order |
| `TimerQueues.TimerQueue.Remove` | include/ZerOS/kernel/clock/timequeue.hpp:15-15 | removal by node identity is the kernel's removal by waiter, with its answer |
| `TimerQueues.TimerQueue.Head` | include/ZerOS/kernel/clock/timequeue.hpp:14-14 | the first booking, none iff the queue is empty |
| `TimerQueues.TimerQueue.PopDue` | include/ZerOS/kernel/clock/timequeue.hpp:23-29 | pops the first node iff its deadline has been reached |
| `TimerQueues.TimerQueue.Rebook` | include/ZerOS/kernel/clock/kernel.hpp:91-102 | remove, stamp, insert on the heap is the queue part of the specified booking |
| `BitOps.Ctz` | include/ZerOS/base/bitmap.hpp:8-26 | the index of the lowest set bit |
| `BitOps.MaskWraps` | include/ZerOS/kernel/sync/msg_queue.hpp:20-20 | masking with a power of two less one ignores a whole turn |
| `Bitmaps.Bitmap.Set` | include/ZerOS/base/bitmap.hpp:51-51 | adds exactly bit i to the set of set bits; padding stays clean |
| `Bitmaps.Bitmap.Clear` | include/ZerOS/base/bitmap.hpp:52-52 | removes exactly bit i |
| `Bitmaps.Bitmap.Test` | include/ZerOS/base/bitmap.hpp:53-55 | membership |
| `Bitmaps.Bitmap.WordFull` | include/ZerOS/base/bitmap.hpp:64-66 | true iff every real bit of the word is set, tail word included |
| `Bitmaps.Bitmap.FirstZeroInWord` | include/ZerOS/base/bitmap.hpp:75-78 | the least clear real bit of the word, none iff the word is full |
| `Bitmaps.Bitmap.FindFirstZero` | include/ZerOS/base/bitmap.hpp:82-90 | the least clear bit of all, none iff all are set |
| `Bitmaps.Bitmap.FindFirstSet` | include/ZerOS/base/bitmap.hpp:93-100 | the least set bit of all, none iff none is set |
| `Bitmaps.FullIsMask` | include/ZerOS/base/bitmap.hpp:115-122 | comparing with the mask of real bits decides fullness |
| `SchedulerSpec.AddGood` | include/ZerOS/kernel/sched/scheduler.hpp:31-40 | adding a task keeps the rings exact and the most urgent task running or a switch pending |
| `SchedulerSpec.PickNextGood` | include/ZerOS/kernel/sched/scheduler.hpp:54-67 | a pick restores the ready and urgency invariant from the ready structure alone |
| `Slices.SliceIsTicksSincePick` | include/ZerOS/kernel/sched/scheduler.hpp:62-64 | in every run of scheduler operations the slice count is the number of ticks since the last pick, modulo 10; idle has none |
| `Slices.KeepsWholeSlice` | include/ZerOS/kernel/sched/scheduler.hpp:62-64 | whatever the count before, a picked task keeps the CPU for 10 ticks, then the longest waiting equal follows, or it stays if there is none |
| `Slices.PickKeepsIff` | include/ZerOS/kernel/sched/scheduler.hpp:54-58 | a Running task survives a pick iff nothing more urgent waits |
| `Slices.WakeRequestsIff` | include/ZerOS/kernel/sched/scheduler.hpp:75-77 | a wake requests a switch iff the pick would change the running task |
| `Slices.JoinRequestsIff` | include/ZerOS/kernel/sched/scheduler.hpp:37-39 | the same for a new task |
| `Slices.TickRequestsIff` | include/ZerOS/kernel/sched/scheduler.hpp:164-178 | the same for a tick |
| `Slices.OthersRequest` | include/ZerOS/kernel/sched/scheduler.hpp:80-89 | blocking oneself hands over, blocking another requests nothing, a letter requests what its wake does |
| `Slices.UnfitTask` | include/ZerOS/kernel/sched/scheduler.hpp:189-192 | a task of priority 32 or more is not taken in, yet while idle runs it requests a switch that changes nothing |
| `SchedulerSpec.PickNextIsMostUrgent` | include/ZerOS/kernel/sched/scheduler.hpp:54-67 | the picked task has the least priority number of all runnable tasks; idle iff there is none |
| `SchedulerSpec.PickNextBreaksTies` | include/ZerOS/kernel/sched/scheduler.hpp:54-58 | a still-Running current stays ahead of its equals; otherwise the head of the level runs |
| `SchedulerSpec.NewcomersQueueLast` | include/ZerOS/kernel/sched/scheduler.hpp:189-196 | woken, new and re-levelled tasks queue behind all equals; other rings untouched |
| `SchedulerSpec.MakeReadyGood` | include/ZerOS/kernel/sched/scheduler.hpp:69-78 | waking keeps the invariant |
| `SchedulerSpec.BlockGoodIff` | include/ZerOS/kernel/sched/scheduler.hpp:80-89 | blocking keeps the invariant iff the task is not Ready |
| `SchedulerSpec.YieldGoodIff` | include/ZerOS/kernel/sched/scheduler.hpp:91-98 | yielding is right (and wakes nobody) iff the current task is Running |
| `SchedulerSpec.OnTickGoodIff` | include/ZerOS/kernel/sched/scheduler.hpp:159-179 | the same for a tick: right iff Running, or the slice is not over, or no equal waits |
| `SchedulerSpec.ReprioritizeConsistent` | include/ZerOS/kernel/sched/scheduler.hpp:106-121 | re-levelling keeps the rings exact, whatever the task's state |
| `SchedulerSpec.ReprioritizeUrgentIff` | include/ZerOS/kernel/sched/scheduler.hpp:106-121 | re-levelling alone keeps the urgency promise iff a switch is pending, nothing runs, the running task does not drop below a waiting one, or the moved task does not rise above the running one |
| `SchedulerSpec.ReprioritizeCanLeaveUrgencyBehind` | include/ZerOS/kernel/sched/scheduler.hpp:106-121 | a state in which it leaves a more urgent task waiting |
| `SchedulerSpec.NotifyGood` | include/ZerOS/kernel/sched/scheduler.hpp:131-142 | a letter is accepted iff the task is known and not idle, replaces an unread one, wakes a blocked target |
| `SchedulerSpec.LetterRoundTrip` | include/ZerOS/kernel/sched/scheduler.hpp:131-155 | the probe takes the latest letter, exactly once |
| `SchedulerSpec.ApplyGood` | include/ZerOS/kernel/sched/scheduler.hpp:31-179 | every scheduler operation under its enabling condition keeps the invariant |
| `Schedulers.Scheduler.Add` | include/ZerOS/kernel/sched/scheduler.hpp:31-40 | computes the specified add; bitmap bit p is set iff ring p is non-empty |
| `Schedulers.Scheduler.PickNext` | include/ZerOS/kernel/sched/scheduler.hpp:54-67 | the bitmap search picks what the least non-empty ring gives, with a fresh slice |
| `Schedulers.Scheduler.PopHighest` | include/ZerOS/kernel/sched/scheduler.hpp:207-217 | takes the head of the least non-empty ring and keeps the bitmap in step |
| `Schedulers.Scheduler.MakeReady` | include/ZerOS/kernel/sched/scheduler.hpp:69-78 | computes the specified wake, bitmap in step |
| `Schedulers.Scheduler.Block` | include/ZerOS/kernel/sched/scheduler.hpp:80-89 | computes the specified block |
| `Schedulers.Scheduler.Yield` | include/ZerOS/kernel/sched/scheduler.hpp:91-98 | computes the specified yield |
| `Schedulers.Scheduler.Reprioritize` | include/ZerOS/kernel/sched/scheduler.hpp:106-121 | computes the specified move between rings, bitmap in step |
| `Schedulers.Scheduler.Notify` | include/ZerOS/kernel/sched/scheduler.hpp:131-142 | computes the specified letter drop |
| `Schedulers.Scheduler.WaitNotify` | include/ZerOS/kernel/sched/scheduler.hpp:148-155 | computes the specified mailbox probe |
| `Schedulers.Scheduler.OnTick` | include/ZerOS/kernel/sched/scheduler.hpp:159-179 | computes the specified tick |
| `RoundRobin.RoundRobinIsFair` | include/ZerOS/kernel/sched/scheduler.hpp:54-67 | the exact scheduler state after any number of ticks of a round, for every number of equals |
| `RoundRobin.FullRound` | include/ZerOS/kernel/sched/scheduler.hpp:159-179 | after kSliceTicks * k ticks each of k equals had exactly kSliceTicks, and the state is back where it was |
| `MutexSpec.ParkGood` | include/ZerOS/kernel/sync/mutex.hpp:49-61 | parking lends exactly the lower priority number and leaves the most urgent task running or a switch pending |
| `LockHistory.SelfLockedIffHeld` | include/ZerOS/kernel/sync/mutex.hpp:24-31 | over every run `lock` refuses with SelfLocked iff the caller was given this mutex and has not given it back |
| `LockHistory.UnlockOkIffHeld` | include/ZerOS/kernel/sync/mutex.hpp:69-71 | over every run `unlock` answers Ok iff the caller was given the mutex and has not given it back, else NotYourLock |
| `LockHistory.HoldsWhatItWasTold` | include/ZerOS/kernel/sync/mutex.hpp:20-89 | a task owns a mutex and is past `lock` iff the answers it got say so |
| `LockHistory.MutualExclusion` | include/ZerOS/kernel/sync/mutex.hpp:20-89 | going by the answers, no two tasks hold one mutex and no task holds two |
| `MutexSpec.StrayWakeKeepsListIff` | include/ZerOS/kernel/sync/mutex.hpp:35-62 | a lock turn taken while still linked keeps the list sound iff the mutex is free or the caller's already |
| `Mutexes.Mutex.LockTurn` | include/ZerOS/kernel/sync/mutex.hpp:35-62 | one turn of the lock loop as specified, on the real scheduler object |
| `Mutexes.Mutex.Unlock` | include/ZerOS/kernel/sync/mutex.hpp:64-89 | unlock as specified, on the real scheduler object |
| `Inheritance.StepInv` | include/ZerOS/kernel/sync/mutex.hpp:20-89 | every step of tasks, kernel and mutexes keeps the global invariant |
| `Inheritance.AlwaysUrgent` | include/ZerOS/kernel/sync/mutex.hpp:20-89 | in every state of every run the most urgent task runs or a switch is pending, rings exact |
| `Inheritance.InheritanceExact` | include/ZerOS/kernel/sync/mutex.hpp:49-84 | in every state of every run an owner's priority is the minimum of its base and its waiters' bases, the bookkeeping remembers the base iff they differ, all others are at base |
| `Inheritance.OkMeansOwner` | include/ZerOS/kernel/sync/mutex.hpp:20-89 | lock answers Ok only to the one owner, a parked caller is queued, unlock answers Ok iff the caller owned |
| `Inheritance.HandOverIsFair` | include/ZerOS/kernel/sync/mutex.hpp:72-84 | unlock undoes the boost and hands over to the most urgent waiter, first come first among equals, Ready |
| `Inheritance.NoReboost` | include/ZerOS/kernel/sync/mutex.hpp:78-83 | the re-boost branch never changes anything |
| `Inheritance.RestoredUrgent` | include/ZerOS/kernel/sync/mutex.hpp:72-84 | dropping the boost may uncover more urgent tasks, and the wake that follows requests the switch |
| `Inheritance.NoStrandedLocker` | include/ZerOS/kernel/sync/mutex.hpp:35-84 | a blocked locker is queued on a mutex whose owner exists and is not itself blocked in a lock |
| `Ticks.DiffIsTrueIff` | include/ZerOS/kernel/clock/ticks.hpp:18-21 | the signed difference of two wrapped counters is the true one iff that lies in [-2^31, 2^31) |
| `Ticks.PlusIsTrue` | include/ZerOS/kernel/clock/ticks.hpp:29-31 | wrapped addition is addition of true times |
| `Ticks.LongTimeoutIsImmediate` | include/ZerOS/kernel/clock/ticks.hpp:18-31 | a deadline is not ahead iff the span is 0 or at least 2^31 |
| `TimeKernelSpec.FireShrinks` | include/ZerOS/kernel/clock/kernel.hpp:83-85 | each firing leaves fewer due bookings, whatever its callback books ahead: the drain ends |
| `TimeLedger.OnElapsedRefines` | include/ZerOS/kernel/clock/kernel.hpp:77-87 | an elapsed step fires the very waiters in the very order the unbounded ledger does, mid-drain bookings included |
| `TimeLedger.DoRelated` | include/ZerOS/kernel/clock/kernel.hpp:35-57 | booking and cancelling keep queue and ledger aligned |
| `TimeLedger.CancelRelated` | include/ZerOS/kernel/clock/kernel.hpp:52-57 | cancel answers true iff the waiter has a live booking |
| `TimeLedger.SlotIsRight` | include/ZerOS/kernel/clock/timequeue.hpp:7-11 | the wrapped comparison finds the slot that true deadlines and booking order give |
| `TimeLedger.HeadIsNext` | include/ZerOS/kernel/clock/timequeue.hpp:23-29 | the head is due iff something is, and it is the one to fire next |
| `TimeLedger.MisorderedIff` | include/ZerOS/kernel/clock/timequeue.hpp:7-11 | a booking made now sorts before an overdue one iff the two are more than 2^31 ticks apart |
| `TimeBound.BoundIsExact` | include/ZerOS/kernel/clock/kernel.hpp:77-102 | an elapsed step is right for all bookings and callbacks iff step and span are each below and together at most 2^31 |
| `TimeRuns.EveryRun` | include/ZerOS/kernel/clock/kernel.hpp:35-130 | in every run: aligned with unbounded time, every firing once, on time and in order; alarm off iff nothing waits, otherwise still to fire and no later than the head is due |
| `TimeRuns.SameFirings` | include/ZerOS/kernel/clock/kernel.hpp:77-87 | what each step fires is what the ledger logs for it |
| `TimeRuns.FatesAreFinal` | include/ZerOS/kernel/clock/kernel.hpp:35-102 | a booking once fired or dropped stays so; none is lost or rewritten |
| `TimeRuns.CancelledNeverFires` | include/ZerOS/kernel/clock/kernel.hpp:52-57 | after a cancel that answered true that booking never fires |
| `TimeRuns.NothingOverdue` | include/ZerOS/kernel/clock/kernel.hpp:77-87 | after an elapsed step no pending booking is due |
| `TimeRuns.UpdateAlarmSafe` | include/ZerOS/kernel/clock/kernel.hpp:104-130 | alarm off iff nothing waits; otherwise it is yet to fire, at the next tick or later, and no later than max(head deadline, now + 1), stale earlier alarms included |
| `AlarmTruth.EveryRunAlarm` | include/ZerOS/kernel/clock/kernel.hpp:104-130 | in every run the alarm goes off at the true deadline of a booking once made, or at the next tick when one is due already |
| `AlarmTruth.AlarmForEarliest` | include/ZerOS/kernel/clock/kernel.hpp:121-129 | in every run, as long as no booking was cancelled or replaced, the alarm is set for exactly the earliest deadline, never earlier |
| `AlarmTruth.LeftAloneIff` | include/ZerOS/kernel/clock/kernel.hpp:114-129 | the hardware is left alone iff its alarm is ahead and not later than the head; otherwise it is armed for the head |
| `TimeRuns.BookedAsAsked` | include/ZerOS/kernel/clock/kernel.hpp:91-102 | in every run a booking is for exactly the span asked from the time of the call, replaces the waiter's old one and touches no other |
| `TimeRuns.NextDueInIsTrue` | include/ZerOS/kernel/clock/kernel.hpp:64-74 | the distance reported is the true distance to the earliest deadline, none iff nothing is booked |
| `TimeKernels.TimeKernel.RefreshAlarm` | include/ZerOS/kernel/clock/kernel.hpp:104-130 | computes the specified re-arming |
| `TimeKernels.TimeKernel.CallAfterSpan` | include/ZerOS/kernel/clock/kernel.hpp:91-102 | computes the specified booking |
| `TimeKernels.TimeKernel.CancelWaiter` | include/ZerOS/kernel/clock/kernel.hpp:52-57 | computes the specified cancel and answer |
| `TimeKernels.TimeKernel.DueIn` | include/ZerOS/kernel/clock/kernel.hpp:64-74 | computes the specified distance |
| `TimeKernels.TimeKernel.PopDue` | include/ZerOS/kernel/clock/timequeue.hpp:23-29 | pops the head iff it is due |
| `TimeKernels.TimeKernel.DrainDue` | include/ZerOS/kernel/clock/kernel.hpp:83-85 | the loop computes the specified drain for every behaviour of the callbacks |
| `TimeKernels.TimeKernel.Elapsed` | include/ZerOS/kernel/clock/kernel.hpp:77-87 | the whole elapsed step as specified |
| `TimerSpec.TElapsedIsOnElapsed` | include/ZerOS/kernel/clock/timer.hpp:44-61 | a timer step is a kernel step under some script, so the kernel theorems hold for timers |
| `TimerRuns.EveryTimerRun` | include/ZerOS/kernel/clock/timer.hpp:18-61 | in every run a timer runs iff it is booked (once), one with a period is always running, and no timer fires twice in a step |
| `TimerRuns.FiresOnce` | include/ZerOS/kernel/clock/kernel.hpp:83-85 | no waiter fires twice in one drain, however callbacks re-book |
| `TimerRuns.StopInsideCallback` | include/ZerOS/kernel/clock/timer.hpp:53-61 | a stop inside the timer's own function leaves it cold |
| `TimerRuns.StoppedStaysSilent` | include/ZerOS/kernel/clock/timer.hpp:27-33 | a timer that is not running fires in no step until some call arms it again |
| `TimerBeat.ArmedAsAsked` | include/ZerOS/kernel/clock/timer.hpp:18-25 | arming books one node at the asked distance; only a periodic timer keeps a period |
| `TimerBeat.PeriodicStep` | include/ZerOS/kernel/clock/timer.hpp:53-61 | fires iff its distance is covered, then is booked at now + period; otherwise comes closer by the step |
| `TimerBeat.OneshotStep` | include/ZerOS/kernel/clock/timer.hpp:53-61 | a one-shot fires iff its distance is covered and is cold from then on |
| `TimerBeat.BeatsAtPeriod` | include/ZerOS/kernel/clock/timer.hpp:23-61 | left alone it fires at ticks p, 2p, 3p, ... and at no other |
| `TimerBeat.PeriodicStartsBeating` | include/ZerOS/kernel/clock/timer.hpp:23-25 | the call that starts a periodic timer sets that up |
| `TimerHistory.EveryRunSane` | include/ZerOS/kernel/clock/timer.hpp:18-61 | every state of every bounded run from power-on is aligned with unbounded time |
| `TimerHistory.PeriodicFiresIff` | include/ZerOS/kernel/clock/timer.hpp:23-61 | in every run from power-on: a periodic timer left alone since its call fires in a tick iff that is the p-th, 2p-th, ... since |
| `TimerHistory.OneshotFiresIff` | include/ZerOS/kernel/clock/timer.hpp:18-61 | in every run from power-on: a one-shot left alone since its call fires in exactly the step in which the ticks since reach its span (0 included), never again |
| `TimerBoards.TimerBoard.StartOneshot` | include/ZerOS/kernel/clock/timer.hpp:18-20 | computes the specified arming |
| `TimerBoards.TimerBoard.StartPeriodic` | include/ZerOS/kernel/clock/timer.hpp:23-25 | computes the specified arming |
| `TimerBoards.TimerBoard.StopTimer` | include/ZerOS/kernel/clock/timer.hpp:27-33 | computes the specified stop |
| `TimerBoards.TimerBoard.Fired` | include/ZerOS/kernel/clock/timer.hpp:53-61 | cool off, run the function, re-book what still has a period |
| `TimerBoards.TimerBoard.DrainDue` | include/ZerOS/kernel/clock/kernel.hpp:83-85 | the drain loop with timer callbacks as specified |
| `TimerBoards.TimerBoard.Elapsed` | include/ZerOS/kernel/clock/kernel.hpp:77-87 | the whole elapsed step with timer callbacks as specified |
| `Sleep.EverySleepRun` | include/ZerOS/kernel/clock/kernel.hpp:43-49 | in every run a task is Blocked iff its alarm is booked, and the scheduler promise holds |
| `Sleep.FallsAsleep` | include/ZerOS/kernel/sched/scheduler.hpp:100-104 | sleep_for leaves the caller Blocked and due exactly span ticks from now |
| `Sleep.WakesExactlyOnTime` | src/arch/arm_cortex_m3/system.cpp:21-23 | a sleeper stays Blocked through every step but the elapsed step that first reaches its deadline (span 0 included), which makes it Ready |
| `Sleep.SleepersLineUp` | src/arch/arm_cortex_m3/system.cpp:21-23 | woken sleepers of one level queue behind those waiting, in the order their alarms fire |
| `SleepCalls.SleepFor` | include/ZerOS/kernel/clock/kernel.hpp:43-49 | books and blocks in one step |
| `SleepCalls.ElapsedWaking` | include/ZerOS/kernel/clock/kernel.hpp:77-87 | the drain wakes each popped sleeper before it looks at the next |
| `SemaphoreSpec.EveryRun` | include/ZerOS/kernel/sync/semaphore.hpp:20-70 | over every interleaving: units counted, list without repeats, parked tasks listed with deadlines ahead, no lost wake-up |
| `SemaphoreSpec.UnitsConserved` | include/ZerOS/kernel/sync/semaphore.hpp:20-70 | count = initial + releases - acquires that answered Ok |
| `SemaphoreSpec.NoUnitBesideSleeper` | include/ZerOS/kernel/sync/semaphore.hpp:61-70 | with nobody between waking and re-checking, a sleeper means an empty counter |
| `SemaphoreSpec.SignalInv` | include/ZerOS/kernel/sync/semaphore.hpp:61-70 | a release keeps units matched by popped tasks while anybody waits |
| `SemaphoreSpec.WakesLongestParked` | include/ZerOS/kernel/sync/semaphore.hpp:61-70 | a release wakes the task that has been parked longest |
| `SemaphoreSpec.AnswersAreTrue` | include/ZerOS/kernel/sync/semaphore.hpp:38-59 | Ok iff a unit was there; TimedOut iff none was and the true deadline has come; otherwise parked and listed |
| `SemaphoreHistory.AnswerByHistory` | include/ZerOS/kernel/sync/semaphore.hpp:38-59 | in every run, from the calls alone: Ok iff initial + releases - acquires leaves a unit; TimedOut iff not, the call set a time-out and that many ticks passed since; else asleep |
| `SemaphoreHistory.SleepsWithinTimeout` | include/ZerOS/kernel/sync/semaphore.hpp:42-57 | a task asleep in a timed wait has time left, counted from its call |
| `SemaphoreSpec.StrayWakeKeepsListIff` | include/ZerOS/kernel/sync/semaphore.hpp:44-58 | a turn taken while still linked keeps the list sound iff it ends with a verdict |
| `LeftoverAlarm.AlarmLeftIff` | include/ZerOS/kernel/sync/semaphore.hpp:38-59 | over every run a timed wait that began without an alarm leaves one booked iff it parked and returned before its deadline |
| `LeftoverAlarm.LiveIsBooked` | include/ZerOS/kernel/clock/kernel.hpp:91-102 | that alarm is a node in the aligned kernel's queue |
| `LeftoverAlarm.OldAlarmLinksTwice` | include/ZerOS/kernel/sync/semaphore.hpp:44-58 | for every task and time-out: such an alarm goes off in the task's next untimed wait and links its node twice |
| `LeftoverAlarm.CancelledAlarmIsGone` | include/ZerOS/kernel/clock/kernel.hpp:52-57 | had it been cancelled on the way out, nothing would go off |
| `SemaphoreSpec.FullCounterWraps` | include/ZerOS/kernel/sync/semaphore.hpp:64-64 | a release counts up iff the 32-bit counter is not full |
| `Semaphores.Semaphore.AcquireTurn` | include/ZerOS/kernel/sync/semaphore.hpp:25-58 | both acquire loops' guarded turn as specified |
| `Semaphores.Semaphore.Release` | include/ZerOS/kernel/sync/semaphore.hpp:61-70 | release as specified |
| `MsgQueueSpec.EveryRun` | include/ZerOS/kernel/sync/msg_queue.hpp:22-61 | for any interleaving: popped followed by ring contents equals written; spaces + reserved + count = capacity; units + committed = count |
| `MsgQueueSpec.FirstInFirstOut` | include/ZerOS/kernel/sync/msg_queue.hpp:39-61 | no write overwrites, no pop reads an empty ring, a pop delivers the oldest undelivered message |
| `MsgQueueHistory.WritesWhatWasPosted` | include/ZerOS/kernel/sync/msg_queue.hpp:39-49 | in every run a write appends the message of the sender's last post, and that post was not written before |
| `MsgQueueHistory.PostRefusedIff` | include/ZerOS/kernel/sync/msg_queue.hpp:39-42 | in every run a post gives up iff no slot is left and the ticks since its call reached its time-out; Full iff that was zero, else Timeout |
| `MsgQueueHistory.ReceiveRefusedIff` | include/ZerOS/kernel/sync/msg_queue.hpp:28-33 | in every run a receive gives up iff no unit is left, it set a time-out and the ticks since its call reached it |
| `MsgQueueSpec.SleepersHaveReason` | include/ZerOS/kernel/sync/msg_queue.hpp:22-49 | at rest a sender sleeps only if all slots are taken or promised, a receiver only if all messages are promised |
| `MsgQueueSpec.RefusalsAreTrue` | include/ZerOS/kernel/sync/msg_queue.hpp:28-49 | Full, Timeout and the receiver's time-out are told exactly when nothing was there and the deadline it holds has come |
| `MsgQueueSpec.PutAppends` | include/ZerOS/kernel/sync/msg_queue.hpp:45-46 | the masked index appends to the contents |
| `MsgQueueSpec.TakeIsFirst` | include/ZerOS/kernel/sync/msg_queue.hpp:55-58 | the masked head step removes the first of the contents |
| `MsgQueues.MsgQueue.Write` | include/ZerOS/kernel/sync/msg_queue.hpp:43-48 | on the array: contents grow by the message, one unit released |
| `MsgQueues.MsgQueue.PopRing` | include/ZerOS/kernel/sync/msg_queue.hpp:52-61 | on the array: the first message leaves, one slot released |
| `EventGroupSpec.EveryRun` | include/ZerOS/kernel/sync/event_group.hpp:23-77 | in every state of every run no listed waiter's condition is satisfied |
| `EventGroupSpec.SleepersAreUnsatisfied` | include/ZerOS/kernel/sync/event_group.hpp:23-77 | a parked task's condition is false and its deadline ahead |
| `EventGroupSpec.ClearSatisfiesNobody` | include/ZerOS/kernel/sync/event_group.hpp:73-77 | clearing bits satisfies no condition |
| `EventGroupSpec.SatisfiedIff` | include/ZerOS/kernel/sync/event_group.hpp:80-87 | satisfied iff some mask bit is lit and, for all_of, every one is |
| `EventGroupSpec.AnswersAreHonest` | include/ZerOS/kernel/sync/event_group.hpp:38-58 | a hit is a non-empty lit part of the mask, all of it for all_of; TimedOut iff unsatisfied at or after the deadline it holds |
| `EventHistory.BitsAreHistory` | include/ZerOS/kernel/sync/event_group.hpp:63-77 | in every run, waiters or not, a bit is lit iff some set of it was not followed by a clear of it |
| `EventHistory.AnswerByHistory` | include/ZerOS/kernel/sync/event_group.hpp:38-58 | in every run, from the calls alone: a wait hits with exactly the lit bits of its mask iff they are enough, times out iff not and the ticks since its call reached its limit, else sleeps |
| `EventHistory.SleepsForReason` | include/ZerOS/kernel/sync/event_group.hpp:23-58 | a sleeping task has time left since its call and not enough bits lit |
| `EventHistory.SetWakesAll` | include/ZerOS/kernel/sync/event_group.hpp:63-70 | a set wakes every sleeper, satisfied or not |
| `EventGroupSpec.PulseCanBeMissed` | include/ZerOS/kernel/sync/event_group.hpp:63-77 | a run in which a set followed by a clear passes a woken waiter by |
| `EventGroupSpec.StrayWakeSoundIff` | include/ZerOS/kernel/sync/event_group.hpp:26-57 | a turn taken while still linked leaves the list sound iff the wait is timed and returns; the untimed loop does not unlink on a hit |
| `EventGroupSpec.PulseSeenIff` | include/ZerOS/kernel/sync/event_group.hpp:63-87 | it is seen iff what the clear left over meets the condition, bit by bit |
| `EventGroups.EventGroup.WaitTurn` | include/ZerOS/kernel/sync/event_group.hpp:26-57 | both wait loops' guarded turn as specified |
| `EventGroups.EventGroup.Set` | include/ZerOS/kernel/sync/event_group.hpp:63-70 | lights the bits and wakes every waiter, in list order |
| `EventGroups.EventGroup.Clear` | include/ZerOS/kernel/sync/event_group.hpp:73-77 | clears the bits as specified |
| `PoolSpec.Scan` | include/ZerOS/kernel/mem/bitmap_allocate.hpp:87-97 | the least free index, none iff all are used |
| `PoolSpec.AllocationVerdict` | include/ZerOS/kernel/mem/bitmap_allocate.hpp:44-60 | over every history: OutOfMemory iff every block is held; Poisoned iff the lowest block not held was given back before and a byte of it is not the fill value; else that block, never a held one; refusals change nothing |
| `PoolSpec.ReleaseVerdict` | include/ZerOS/kernel/mem/bitmap_allocate.hpp:61-73 | over every history: Ok iff the pointer is a held block; wild, interior, foreign and double frees change nothing |
| `PoolSpec.UntouchedIsClean` | include/ZerOS/kernel/mem/bitmap_allocate.hpp:148-166 | a block given back and not written since is never accused |
| `PoolSpec.OnlyFreedBlockIsFilled` | include/ZerOS/kernel/mem/bitmap_allocate.hpp:61-73 | an accepted release fills exactly its block and marks only it; allocation and every refusal change no byte |
| `PoolSpec.IndexInvertsAddress` | include/ZerOS/kernel/mem/bitmap_allocate.hpp:129-144 | index-of-pointer inverts block address |
| `PoolSpec.AddressInvertsIndex` | include/ZerOS/kernel/mem/bitmap_allocate.hpp:130-144 | a pointer has an index iff it is the start of a block, and the address of that index is the pointer |
| `PoolSpec.TakeGiveRoundTrip` | include/ZerOS/kernel/mem/bitmap_allocate.hpp:44-73 | what was just handed out can be given back, and the used set is as before |
| `BitmapPools.BitmapPool.AvailableBlockIndex` | include/ZerOS/kernel/mem/bitmap_allocate.hpp:87-97 | the two-level search finds what the linear scan finds |
| `BitmapPools.BitmapPool.SetAsInUsed` | include/ZerOS/kernel/mem/bitmap_allocate.hpp:99-107 | keeps L1 bit w set iff L2 word w is full, and the used count |
| `BitmapPools.BitmapPool.ReleaseBlock` | include/ZerOS/kernel/mem/bitmap_allocate.hpp:109-127 | the same for a release; true iff the block was in use |
| `BitmapPools.BitmapPool.IndexOfGivenPtr` | include/ZerOS/kernel/mem/bitmap_allocate.hpp:130-144 | computes the specified index |
| `BitmapPools.BitmapPool.PoisonBlock` | include/ZerOS/kernel/mem/bitmap_allocate.hpp:148-154 | fills exactly the block and marks it, or nothing without the policy |
| `BitmapPools.BitmapPool.DetectedPoison` | include/ZerOS/kernel/mem/bitmap_allocate.hpp:155-166 | true iff some byte of the block is not the fill value |
| `BitmapPools.BitmapPool.RawAllocate` | include/ZerOS/kernel/mem/bitmap_allocate.hpp:44-60 | allocation as specified on the two-level maps |
| `BitmapPools.BitmapPool.RawDeallocate` | include/ZerOS/kernel/mem/bitmap_allocate.hpp:61-73 | release as specified on the two-level maps |
| `CriticalSections.MaskedExactlyWhileHeld` | include/ZerOS/kernel/irq/critical_section.hpp:12-22 | for every well-nested run over any number of objects BASEPRI is 0x40 exactly while a guard is open, and the start value otherwise |
| `CriticalSections.UnlockExactIff` | include/ZerOS/arch/arm_cortex_m3/cm3_irq.hpp:26-30 | an unlock is right iff it is not the keeper of the old level leaving for good while others hold |
| `CriticalSections.LockKeeps` | include/ZerOS/arch/arm_cortex_m3/cm3_irq.hpp:20-25 | a lock masks and exactly one holder keeps the old level |
| `CriticalSections.OverlapLeaksMask` | include/ZerOS/arch/arm_cortex_m3/cm3_irq.hpp:20-30 | two overlapping sections leave BASEPRI open while one is held and masked after both |
| `CriticalSections.CriticalSection.LockIt` | include/ZerOS/arch/arm_cortex_m3/cm3_irq.hpp:20-25 | lock as specified, on the register |
| `CriticalSections.CriticalSection.UnlockIt` | include/ZerOS/arch/arm_cortex_m3/cm3_irq.hpp:26-30 | unlock as specified, on the register |
| `Tickless.OneShotFits` | src/arch/arm_cortex_m3/time_kernel_cm3.cpp:87-97 | for 1 to 0xFFFFFF cycles per tick the one-shot fits 24 bits without overflow, is as long as fits, and ends no later than the head is due |
| `Tickless.HonestIff` | src/arch/arm_cortex_m3/time_kernel_cm3.cpp:85-102 | every expiry reports as many ticks as its cycles are worth iff a tick is 2 to 2^24 cycles |
| `Tickless.ShortWaitsTick` | src/arch/arm_cortex_m3/time_kernel_cm3.cpp:87-102 | a one-shot is used iff the head is more than two ticks away; otherwise the periodic tick stays |
| `Tickless.StopsIffNothingPending` | src/arch/arm_cortex_m3/time_kernel_cm3.cpp:98-100 | the counter is stopped iff no booking is pending |
| `Tickless.TicklessIsExact` | src/arch/arm_cortex_m3/time_kernel_cm3.cpp:85-139 | repeated shots and final plain ticks fire the head at exactly its true deadline, after exactly that many cycles, and nothing before |
| `Tickless.SettleShot` | src/arch/arm_cortex_m3/time_kernel_cm3.cpp:124-139 | settling up to the head distance fires nothing short of it and the head on it |

## Left out

- Nested mutexes, or several held by one task: the saved priority is per mutex, and the code's invariants do not cover it.
- `notify` aimed at a task parked in a primitive or asleep: excluded as an enabling condition; the list would break as the stray-wake lemmas and `SelfList.InsertLinked` say.
- The alarm left booked after a timed wait that the event won: runs of the primitives deliver only the waiter's current deadline; `LeftoverAlarm` says when one is left over and what it does.
- Lists of the scheduler, the wait queues and the time kernel object as heap nodes: they are sequences there; `SelfList` and `TimerQueue` carry the pointer proofs.
- Semaphore, queue and event group runs carry program points (outside, taking a turn, parked) instead of the full scheduler state; `Sleep` shows for sleepers that parked is Blocked and that alarms wake on time.
- `system.wait_notify`, the re-check loop around the mailbox probe: a loop over `TakeLetter` and a sleep, nothing new to prove.
- `drain_pending_expiry` and the COUNTFLAG and NVIC races of `idle_sleep`: they depend on hardware flags; the tickless theorem is about idling with no other wake source, arming taken as instantaneous.
- Context switching, exception entry, stack frames and fault capture: a switch is "a pending request eventually runs the pick".
- Interrupts inside `lock` and `unlock` of a critical section before the mask is written: both are taken as atomic.
- Memory beyond the pool's buffer: pointers are offsets from its start, and a write from outside is any write to a byte of it.
- Board code, UART, GPIO, clock tree, startup and linker scripts: register access and wiring only.
- Formatter, log channel, stack canary and watermark, arena, task builder, typed allocation and borrowed pointers, work queue: small or compile-time matters that would only add easy members.
