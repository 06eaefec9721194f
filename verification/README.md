# TinyServer in Dafny

A model of the stateful cores of TinyServer, a C++ server framework built on fibers, with proofs of
what those cores guarantee over whole runs. `dafny verify dfyconfig.toml` checks everything.

## What is modelled

**The fiber wake-up protocol** (`src/scheduler.cpp`, `src/fiber.cpp`, `src/iomanager.cpp`,
`src/hook.cpp`). `Wakeup.dfy` is an interleaved step system over any number of scheduler threads,
fibers, fds, timers and hooked calls. Every critical section is a step and so is every gap another
thread can observe:

| step | source |
|---|---|
| `Scan`: take the earliest eligible entry, or go idle, or leave the loop | `src/scheduler.cpp:184-210`, `259-278` |
| `Switch`: from the dequeued entry to the running fiber, or drop the entry of a finished one | `src/scheduler.cpp:217-219`, `231-242`, `261-265`; `src/fiber.cpp:107-116` |
| `CountDown`: the decrement of `m_activateThreadCount` | `src/scheduler.cpp:220`, `243`, `263` |
| `Settle`: re-queue a READY fiber, set HOLD, or cache a finished callback fiber | `src/scheduler.cpp:221-228`, `244-257` |
| `Expire`, `Flush`: take a due timer's callback, hand the callbacks to `schedule` | `src/iomanager.cpp:326-333` |
| `SeeNoTimers`, `SeeNoPending`, `EndIdle`, `NotStopping`: the three reads of `stopping()`, one after the other, and its two ways of failing | `src/iomanager.cpp:281-287`, `299-303`; `src/scheduler.cpp:140-144` |
| `LeaveIdle`: the idle fiber yields | `src/iomanager.cpp:391-394` |
| `YieldToHold`, `YieldToReady`, `End` | `src/fiber.cpp:168-182`, `189-209` |
| `ScheduleSelf`, `RegisterSelf`, `RegisterCb`, `Sleep`: client code registers itself or a callback | `src/scheduler.h:33-45`, `src/iomanager.cpp:103-155`, `src/hook.cpp:164-200` |
| `BeginCall`, `ArmTimeout`, `AddWait`, `CancelTimeout`, `CheckTimeout`, `RawAgain`: the pieces of `do_io` and `connect_with_timeout` | `src/hook.cpp:102-154`, `251-279` |
| `WakeSleeper`, `RunTimeoutLock`, `RunTimeoutCheck`, `RunTimeoutSet`, `RunTimeoutFire`: the timer callbacks those calls leave behind; from the lock on a callback keeps the `timer_info` alive | `src/timer.cpp:126-131`; `src/hook.cpp:118-124`, `170-172`, `258-264` |
| `Report`, `Cancel`, `CancelFd`, `DropEvent`: a reported event, `cancelEvent`, `cancelAll`, `delEvent` | `src/iomanager.cpp:157-259`, `348-390` |
| `Spawn`, `SpawnCb`, `ScheduleParked`, `ClientTimer`, `RequestStop` | `src/scheduler.h:33-45`, `src/timer.cpp:104-110`, `src/scheduler.cpp:101` |

`Wakeups(s, WakeOf(f))` counts everything that will lead to a switch to fiber `f`: queue entries,
registered fd slots, armed timers, expired and running timer callbacks, and what a thread has dequeued,
is about to re-queue or has cached. The log records consumed entries, triggered registrations, armed
and run timeouts, and how calls returned. `WakeupInvariant` holds the invariant, `WakeupFibers`,
`WakeupTasks` and `WakeupHistory` show that each step keeps its parts, and `WakeupTheorems` states the
first results. `WakeupSteps` says what the steps do in the state's own fields. The other modules build on it with invariants of their own: `WakeupSlots` (who is in the fd
slots), `WakeupNoLoss` (no wake-up is lost), `WakeupStopping` (what `stopping()` being true means),
`WakeupYield` (when `YieldToReady` is safe), `WakeupOutcomes` (when a call times out, and what triggering
queues), `WakeupTimers` (no timer outlives its call; what late callbacks do), `WakeupTimeouts` (no timeout is
forgotten), `WakeupClosures` (a callback works on its own call's fd and event), `WakeupGuards` (exactly when a waiting
call has lost its timeout). `WakeupScenarios` and `WakeupLate` hold the runs that show where a guarantee ends.

`FdEvents.dfy` is the fd table together with the kernel's epoll interest list; `epoll_ctl` fails on an
illegal request and otherwise whenever the environment says so. A failing `TINY_ASSERT` is an outcome of
its own. `IOManager.dfy` is the class that updates these fields in place.

**TimerManager** (`Timers`, `TimerProofs`, `TimerRuns`, and the class in `TimerManager`): the ordered set
keyed by deadline and address, with clock readings as parameters and 64-bit arithmetic written out.

**ByteArray** (`Blocks`, `ByteArray`, `Bits`, `Codec`, `Wire`, `TypedIO`, `FlatRuns`): the linked list of
fixed-size nodes as a class over heap nodes and arrays, proved to be one flat buffer, with the codecs and
the scatter/gather views on top.

**The connection pool's accounting** (`Pool`), with clients interleaved at the points where they touch
the shared list or counter, and **the IPv6 text printer** (`Ipv6`).

## Where the code departs from its evident intent

The model follows the code. For each departure the members named here say exactly when it happens, or give the
run in which it does.

- `addCapacity` (`src/bytearray.cpp:588`) compares with the free space instead of with 0: it makes enough
  room exactly when `Blocks.Suffices` says so, and `write` runs off the list otherwise.
- `read` of 0 bytes at the very end of the storage dereferences a null cursor (`src/bytearray.cpp:453`);
  so reading back a list fails exactly if its last value is an empty string and the storage is exactly
  full (`TypedIO.RoundTrip`).
- The 64-bit varints go through 32 bits (`src/bytearray.cpp:171`, `325`): `Codec.Int64SurvivesExactly`.
- `resetEvent` clears a copy (`src/iomanager.cpp:65-70`): after `delEvent`, adding the event again hits
  the assertion (`FdEventProofs.ReAddAfterDelAborts`), and the fiber waiting for it has lost its wake-up
  (`WakeupNoLoss.DelEventLosesTheWakeup`; `StepKeepsNoLoss` says exactly which calls do that).
- `idle` triggers reported bits that are not registered (`src/iomanager.cpp:380-389`): it hits the
  assertion exactly if a report carries both a registered and an unregistered bit
  (`FdEventProofs.DispatchKeeps`).
- `IOManager::stopping` reads timers, pending count and queue one after the other (`src/iomanager.cpp:283-286`):
  a fiber that registers or goes to sleep between two reads is missed (`WakeupStopping.StaleStopMissesEvent`,
  `StaleStopMissesTimer`). The system is quiescent at the last read if and only if the earlier answers still
  hold (`QuiescentExactly`; that none of them may have turned is part of what quiescent means), in particular if
  nothing was armed or registered in between.
- A READY fiber is counted inactive just before it is re-queued (`src/scheduler.cpp:220-223`), so even then
  `stopping()` can be true while a fiber is about to be queued; `WakeupStopping.StoppingLeaves` says exactly in which
  places a wake-up is left.
- A fiber that calls `YieldToReady` keeps the invariant if and only if nothing else is going to wake it
  (`WakeupYield.YieldToReadyExactly`); otherwise two threads can dequeue it and `swapIn`'s assertion fails
  (`YieldToReadyWhileRegisteredBreaks`, `YieldToReadyWhileQueuedBreaks`, `YieldToReadyWhileAsleepBreaks`). A fiber
  that has registered itself and goes on instead of yielding keeps it under the same condition (`GoingOnExactly`).
- `do_io` arms its timer before `addEvent` (`src/hook.cpp:118-130`): a callback that runs in between leaves the call
  waiting with nothing to time it out (`WakeupLate.LostTimeout`), even with a second timer armed, whose callback will
  find the mark and do nothing (`WakeupLate.LostWithTimerArmed`). `WakeupGuards.TimeoutLostExactly` gives the exact
  condition: a call waiting in its slot is lost if and only if, before its `addEvent`, a callback had marked it and
  ended with no other one past its check, or the kernel has since refused a callback's `cancelEvent`. In the first
  round that is: the timer has left the set and no callback is on its way or firing (`FirstRoundLostExactly`). A
  lost call stays lost in every continuation (`LostForEver`); a callback that fires later than `addEvent` wakes its
  own call (`TimeoutWakesItsCall`).
- A timeout callback keeps its call's `timer_info` alive, so a second one can take effect after the call has
  returned (`WakeupLate.LateCallbackFires`); `WakeupTimers.CallbackLocksExactly` gives the condition.
- The clock is taken to have rolled over also if it goes back at all within its first hour
  (`src/timer.cpp:204`): `TimerProofs.RolloverExactly`.
- The cast to `int` in `idle` (`src/iomanager.cpp:309`) shortens or negates long delays:
  `TimerProofs.ClampIsSafeExactly`.
- The age of a pooled connection never limits its use: as `m_createTime` is never set
  (`src/http/http_connection.h:84`) and the test in `ReleasePtr` (`src/http/http_connection.cpp:363`) is reversed, once
  the clock has passed the limit itself an open connection is kept exactly if it was not used too often
  (`Pool.AgeNeverMatters`), and one older than its limit is kept and lent again for every limit and every age
  (`Pool.OldConnectionIsLentAgain`). With any creation time, a released connection is kept if and only if it is
  open, has outlived the limit and was not used too often (`Pool.ReleaseExactly`).

## Model

| member | source | states |
|---|---|---|
| WakeupTheorems.StepKeepsInv | src/scheduler.cpp:179-279 | every step of every thread, fiber, hooked call, timer callback and kernel report keeps the inductive invariant |
| WakeupTheorems.RunKeepsInv | src/scheduler.cpp:179-279 | so it holds after every run from a state that has it |
| WakeupTheorems.ReachableInv | src/scheduler.cpp:166-282 | and in every state reachable from the start, for any number of threads |
| WakeupTheorems.OneWakeupPerFiber | src/scheduler.cpp:185-258 | in every reachable state each fiber has at most one outstanding wake-up |
| WakeupTheorems.NeverOnTwoThreads | src/scheduler.cpp:196-200 | no fiber executes on two threads |
| WakeupTheorems.SwapInAssertionHolds | src/fiber.cpp:107-116 | the fiber a thread is about to switch to is not EXEC, so swapIn's assertion never fails; a cached callback fiber is INIT |
| WakeupTheorems.RunningStateAssertionsHold | src/fiber.cpp:176-182 | a running fiber is EXEC, as YieldToHold and addEvent assert, and the state its thread reads when settling is the one it left with, so Fiber::reset's assertion holds |
| WakeupNoLoss.NoLostWakeup | src/hook.cpp:102-152 | in every state reached without a delEvent that takes a fiber out of its slot, a fiber that has registered itself and not been resumed has exactly one outstanding wake-up |
| WakeupNoLoss.StepKeepsNoLoss | src/scheduler.cpp:217-258 | a step loses no waiting fiber's wake-up if and only if it is not a delEvent that succeeds on a slot holding a fiber |
| WakeupNoLoss.SwapInLosesOnlyItsOwn | src/scheduler.cpp:217-242 | a switch uses up the wake-up of the fiber switched to, and no other fiber's and no timeout callback |
| WakeupStopping.LastReadSeesNoTask | src/scheduler.cpp:140-144 | when the last read of stopping() succeeds nothing is queued and no thread holds a task |
| WakeupStopping.StoppingLeaves | src/iomanager.cpp:281-287 | a fiber has a wake-up left then if and only if it is in a registered slot, in an armed timer, or of one of three named kinds that escape every read |
| WakeupStopping.StoppingForgets | src/iomanager.cpp:281-287 | a fiber still suspended then is in a slot, in a timer, or a sleeper whose expired callback an idle thread holds |
| WakeupStopping.QuiescentExactly | src/iomanager.cpp:281-287 | at the last read the system is quiescent (no timer, no event, no task, and every wake-up left of a kind that escapes) if and only if there is still no timer and no pending event |
| WakeupStopping.StoppingIsQuiescent | src/iomanager.cpp:281-287 | it is, if between the reads no timer was armed and, after the second, no event registered |
| WakeupStopping.StaleStopMissesEvent | src/iomanager.cpp:283-286 | a reachable state in which stopping() succeeds while a fiber is suspended on a registered event |
| WakeupStopping.StaleStopMissesTimer | src/iomanager.cpp:283-286 | and one in which it succeeds while a fiber sleeps on an armed timer |
| WakeupStopping.StoppingCanMissReadyFiber | src/scheduler.cpp:220-223 | and one in which nothing is stale and a READY fiber is about to be re-queued |
| WakeupSlots.SlotsHoldWaiters | src/iomanager.cpp:142-153 | in every reachable state a registered slot holds a client's callback or a fiber whose code waits for exactly that event |
| WakeupNoLoss.DelEventLosesTheWakeup | src/iomanager.cpp:157-187 | a successful delEvent leaves the fiber it unregisters with no wake-up |
| WakeupOutcomes.TimedOutExactly | src/hook.cpp:143-151 | after its wait a call returns ETIMEDOUT if and only if a timer callback holding its own timer_info has run, and otherwise retries |
| WakeupOutcomes.ReadinessQueues | src/iomanager.cpp:348-390 | a report with a registered event that does not hit the assertion queues exactly what waits for reading if it is readable, an error or a hang-up, and behind it what waits for writing if it is writable, an error or a hang-up; it logs them, empties exactly their slots and clears exactly their bits |
| WakeupOutcomes.UnregisteredReportDoesNothing | src/iomanager.cpp:364-367 | a report of events none of which is registered changes nothing |
| WakeupSteps.ScanTakesFirst | src/scheduler.cpp:184-210 | the entry taken is the first one neither pinned to another thread nor a fiber in EXEC; the others keep their order and the count rises by one |
| WakeupSteps.ScanFindsNothing | src/scheduler.cpp:184-278 | if every entry is pinned elsewhere or a fiber in EXEC, the thread goes to its idle fiber, or leaves once that has ended |
| WakeupSteps.TakenFiberRuns | src/scheduler.cpp:217-265 | the entry of a fiber in TERM or EXCEPT is dropped and counted down; any other fiber is switched to, EXEC, and goes on behind what it waited for |
| WakeupSteps.TakenCallbackRuns | src/scheduler.cpp:231-242 | a callback runs on the cached fiber or else a new one, as what it is: a sleep's, a timeout's or a client's |
| WakeupSteps.LeavingSettles | src/scheduler.cpp:220-257 | through decrement and settling a READY fiber comes to the back of the queue for any thread, a running one is put on HOLD, and one that has ended is cached as INIT if it ran a callback |
| WakeupSteps.ExpireTakes | src/timer.cpp:182-192 | an expired callback is taken behind those taken before, and only a recurring timer stays armed |
| WakeupSteps.FlushQueues | src/iomanager.cpp:326-333 | exactly the callbacks taken come to the back of the queue, in order, for any thread |
| WakeupSteps.CallArms | src/hook.cpp:113-124 | a call that would block arms one timer, for its own fd and event, if it has a timeout, and none otherwise |
| WakeupSteps.CallAdds | src/hook.cpp:130-140 | its fiber is put into the slot of its event, beside what else is registered, or it fails and changes nothing |
| WakeupSteps.WokenCallChecks | src/hook.cpp:142-151 | after the wait the call's own timer is cancelled; it returns ETIMEDOUT if it was cancelled and otherwise retries |
| WakeupSteps.RetryExactly | src/hook.cpp:104-112 | it begins another round if the raw call blocks again and otherwise returns |
| WakeupSteps.CallbackMarks | src/hook.cpp:121-122 | a timeout callback past its check marks its own call and goes on to cancel the same event |
| WakeupSteps.CancelExactly | src/iomanager.cpp:189-218 | cancelEvent as a step: what it queues, the slot it empties, and when it does nothing |
| WakeupSteps.CancelFdQueues | src/iomanager.cpp:220-259 | cancelAll as a step: exactly what is registered on the fd is queued, READ first, and its slots are emptied |
| WakeupSteps.DropExactly | src/iomanager.cpp:157-187 | delEvent as a step: one bit is cleared, nothing is queued, the slots stay |
| WakeupSteps.IdleEndsExactly | src/iomanager.cpp:281-303 | the idle loop ends exactly after seeing no timer, then no pending event, then a requested stop with nothing queued or active |
| WakeupOutcomes.CancelQueues | src/iomanager.cpp:189-218 | cancelEvent queues exactly what waits for the event and clears the bit |
| WakeupOutcomes.TimeoutQueuesTheWaiter | src/hook.cpp:118-124 | a timeout callback that finds its event registered queues exactly what is registered there; that is a client's callback or a fiber waiting for this very event |
| WakeupOutcomes.StepKeepsKnown | src/hook.cpp:77-80 | every step keeps that a callback which ran has left its mark in its call's timer_info |
| WakeupTimers.ArmedTimeoutIsOwned | src/hook.cpp:116-145 | in every reachable state an armed timeout timer belongs to a call that has not returned and is going to cancel it |
| WakeupTimers.ReturnedCallLeftNoTimer | src/hook.cpp:135-150 | a call that has returned has left no timer armed |
| WakeupTimers.CallbackLocksExactly | src/timer.cpp:126-131 | an expired callback gets hold of its call's timer_info if and only if the call has not returned or another callback of it holds it |
| WakeupTimers.LateCallbackDoesNothing | src/timer.cpp:126-131 | so one that runs after the return, while no callback of the call holds its timer_info, does nothing |
| WakeupTimers.CallbackFiresExactly | src/hook.cpp:119-122 | one that has locked takes effect if and only if no callback of the call has before |
| WakeupLate.LateCallbackFires | src/hook.cpp:103-124 | a run in which a callback takes effect after its call has returned, through another callback's hold |
| WakeupTimeouts.TimeoutIsNotForgotten | src/hook.cpp:116-143 | in every reachable state a call waiting with a timer has it armed, or a callback of it on its way, or one has taken effect (the rows below say when one that has leaves it waiting) |
| WakeupGuards.GuardedExactly | src/hook.cpp:118-143 | in every reachable state something is left to time a call with a timer out if and only if no callback has marked it and ended without another one past its check |
| WakeupGuards.FirstRoundLostExactly | src/hook.cpp:118-130 | while it has armed one timer, a call is lost if and only if that timer has left the set and no callback of it is on its way or firing |
| WakeupGuards.AddWaitDecidesNothing | src/hook.cpp:130-130 | addEvent changes neither: the wait it begins is lost if and only if the call was lost before |
| WakeupGuards.TimeoutLostExactly | src/hook.cpp:116-143 | over every run through which a call waits in its slot: it is lost if and only if it was before its addEvent, or the kernel has since refused a callback's cancelEvent and no other callback is past its check; otherwise it is guarded |
| WakeupGuards.LostForEver | src/hook.cpp:119-123 | in every continuation no callback of a lost call cancels its event, and it stays lost |
| WakeupGuards.TimeoutWakesItsCall | src/hook.cpp:118-124 | after a callback's cancelEvent the fiber waiting in that very call is in no slot, and is queued or already dequeued |
| WakeupGuards.CommittedUntilItFires | src/hook.cpp:121-123 | a callback past its check stays so, under every step, until its own cancelEvent |
| WakeupClosures.StepKeepsClosures | src/hook.cpp:118-172 | every step keeps that each timeout callback, armed, expired, queued or running, carries its call's own fd and event, and that each sleep's callback is of a fiber still asleep |
| WakeupClosures.CallbackHasItsCallsEvent | src/hook.cpp:118-130 | in every reachable state a callback cancels the event its call waits for |
| WakeupClosures.CallWaitsSomewhere | src/hook.cpp:130-143 | a fiber suspended in a hooked call whose wake-up was not lost is in its slot, queued, or dequeued |
| WakeupTimeouts.StepKeepsTimed | src/hook.cpp:116-145 | every step keeps that, and that a call cancels only its own timer |
| WakeupLate.LostTimeout | src/hook.cpp:118-130 | a run in which the callback runs before addEvent and the call waits with nothing left to time it out |
| WakeupLate.LostWithTimerArmed | src/hook.cpp:104-130 | a run in which a call waits in its second round with its timer armed, and is lost |
| WakeupTimers.StepKeepsTimely | src/hook.cpp:102-154 | every step keeps who owns which timer, that no two fibers are in one call, and which calls are live |
| WakeupTheorems.TaskConservation | src/scheduler.cpp:184-210 | every pushed entry is in exactly one place: queued, held by one thread, or consumed |
| WakeupTheorems.PinnedEntriesStayPut | src/scheduler.cpp:189-194 | from the dequeue to the decrement no thread ever holds an entry pinned to another thread |
| WakeupTheorems.ActiveCountIsExact | src/scheduler.cpp:202-265 | m_activateThreadCount is the number of threads between a dequeue and its single decrement |
| WakeupTheorems.RegistrationWakesOnce | src/iomanager.cpp:189-259 | over every interleaving a registration's slot is triggered at most once |
| WakeupTheorems.RegisteredNotYetWoken | src/iomanager.cpp:72-87 | a registration still in its slot has not been triggered |
| WakeupTheorems.TimedOutOnlyByOwnTimer | src/hook.cpp:118-150 | a call reports ETIMEDOUT only after a timer callback holding its own timer_info ran |
| WakeupTheorems.TimersRunAtMostOncePerArming | src/hook.cpp:251-278 | such callbacks take effect no more often than the call armed timers; a call that armed none never times out |
| WakeupTheorems.FdTableIsExact | src/iomanager.cpp:127-141 | in every reachable state the kernel waits for exactly the registered bits and m_pendingEventCount is their number |
| WakeupTheorems.SlotsExactWithoutDelEvent | src/iomanager.cpp:140-154 | in every run without delEvent a bit is set exactly when its slot is full, so addEvent's assertions fail only on a second registration of the same event |
| WakeupYield.YieldToReadyExactly | src/fiber.cpp:168-173 | YieldToReady keeps the whole invariant if and only if nothing else is going to wake the running fiber |
| WakeupYield.TwoEntriesBreakSwapIn | src/fiber.cpp:107-111 | from any state in which two scanning threads would each dequeue the same fiber, a run leads to a switch to an EXEC fiber |
| WakeupYield.YieldToReadyWhileRegisteredBreaks | src/fiber.cpp:168-173 | in every state with the invariant, a registered fiber that calls YieldToReady while two other threads scan and have nothing else to take can make swapIn's assertion fail |
| WakeupYield.YieldToReadyWhileQueuedBreaks | src/fiber.cpp:168-173 | likewise a fiber that has queued itself |
| WakeupYield.YieldToReadyWhileAsleepBreaks | src/fiber.cpp:168-173 | likewise a fiber that has armed its sleep timer, if one of the two threads can go idle and has no cached callback fiber |
| WakeupYield.GoingOnExactly | src/hook.cpp:164-173 | a registered fiber that runs any statement of client code instead of yielding keeps the whole invariant if and only if nothing is going to wake it |
| WakeupYield.RegisteredStateIsReachable | src/fiber.cpp:168-173 | such a state is reachable for a registered fiber |
| WakeupYield.AsleepStateIsReachable | src/fiber.cpp:168-173 | and for a sleeping one |
| WakeupFibers.StepKeepsFibers | src/scheduler.cpp:211-258 | every step keeps one wake-up and one execution per fiber and the state each thread relies on |
| WakeupFibers.AboutToRunIsParked | src/scheduler.cpp:217-242 | what a thread is about to switch to is executed by nobody and has exactly the wake-up that thread holds |
| WakeupFibers.SettleKeeps | src/scheduler.cpp:221-257 | re-queueing, setting HOLD or caching after the decrement keeps it |
| WakeupFibers.StmtCounts | src/hook.cpp:102-152 | each piece of a fiber's own code gains a wake-up exactly when it leaves the fiber waiting, and that wake-up is its own |
| WakeupTasks.StepKeepsTasks | src/scheduler.cpp:184-265 | every step keeps the conservation of entries and the active count |
| WakeupHistory.StepKeepsRegs | src/iomanager.cpp:103-259 | every step keeps the fd table's invariant and each registration live or triggered, at most once, never both |
| WakeupHistory.StepKeepsCalls | src/hook.cpp:118-150 | every step keeps that timeout callbacks come from their own call's timers and that only they set cancelled |
| SchedulerQueue.Scheduler.ScheduleNoLock | src/scheduler.h:73-83 | an empty task is not queued, any other goes to the back; the result says whether the queue was empty |
| SchedulerQueue.Scheduler.ScheduleAll | src/scheduler.h:47-63 | all tasks are queued in order behind what was there |
| SchedulerQueue.Scheduler.Scan | src/scheduler.cpp:184-210 | the entry taken is neither pinned to another thread nor a fiber in EXEC, and every entry before it is; if nothing is taken every entry is; the others keep their order, the count rises exactly if something was taken |
| Tasks.FirstEligibleExactly | src/scheduler.cpp:187-209 | the scan stops at an index if and only if every entry before is pinned to another thread or a fiber in EXEC and the one there is neither |
| FdEventProofs.TriggerKeeps | src/iomanager.cpp:72-87 | triggering clears exactly the event's bit, leaves its slot without scheduler, fiber and callback, lowers the count by one and touches nothing else |
| FdEventProofs.TriggerWeight | src/iomanager.cpp:72-87 | what leaves the table is exactly what is handed out, for every weighing of slots |
| FdEventProofs.GrowKeeps | src/iomanager.cpp:89-119 | growing the table makes room for the fd and changes nothing else |
| FdEventProofs.GrowExactly | src/iomanager.cpp:89-119 | it grows exactly if it is too small, to fd * 1.5 places, and the new ones are empty |
| FdEventProofs.AddEventKeeps | src/iomanager.cpp:103-155 | addEvent aborts exactly on a set bit or, if the kernel agrees, a slot that still holds a scheduler, fiber or callback; is refused exactly on a fault and then without effect; and otherwise keeps kernel and count exact |
| FdEventProofs.AddEventRegisters | src/iomanager.cpp:140-154 | the fiber or callback it was given is then in that event's slot, its bit is set, and the rest of the table is unchanged |
| FdEventProofs.DelEventKeeps | src/iomanager.cpp:157-187 | delEvent is refused exactly on a fault or an unregistered event, without effect; otherwise exactly that bit is cleared and every slot keeps its contents |
| FdEventProofs.CancelEventKeeps | src/iomanager.cpp:189-218 | cancelEvent never aborts, is refused exactly on a fault or an unregistered event, and otherwise hands out exactly that slot, empties it and clears its bit |
| FdEventProofs.CancelAllKeeps | src/iomanager.cpp:220-259 | cancelAll never aborts and hands out exactly the registered slots, READ first, empties them and clears both bits |
| FdEventProofs.DispatchKeeps | src/iomanager.cpp:348-390 | with an error or hang-up counting as readable and writable: dispatch aborts exactly if a registered and an unregistered event are reported, is skipped exactly on a fault or if no registered one is, and otherwise hands out READ's slot if readable, then WRITE's if writable, and empties exactly those |
| FdEventProofs.HangupOnHalfRegisteredFdAborts | src/iomanager.cpp:350-389 | a hang-up on an fd registered only for reading hits the assertion |
| FdEventProofs.ReAddAfterDelAborts | src/iomanager.cpp:182-186 | adding an event again after delEvent hits the assertion |
| FdEventProofs.DelEventExactness | src/iomanager.cpp:182-186 | delEvent keeps "slot full exactly if bit set" if and only if it does nothing |
| IOManager.Manager.constructor | src/iomanager.cpp:34-34 | the table starts with 32 fresh fds, valid and exact |
| IOManager.Manager.EventResize | src/iomanager.cpp:89-100 | a smaller size cuts the table off, a larger one fills it up with fresh FdEvents |
| IOManager.Manager.TriggerEvent | src/iomanager.cpp:72-87 | the in-place trigger is the operation proved above |
| IOManager.Manager.AddEvent | src/iomanager.cpp:103-155 | the in-place addEvent refines the operation and keeps the table valid |
| IOManager.Manager.DelEvent | src/iomanager.cpp:157-187 | likewise delEvent |
| IOManager.Manager.CancelEvent | src/iomanager.cpp:189-218 | likewise cancelEvent, with the slot it hands out |
| IOManager.Manager.CancelAll | src/iomanager.cpp:220-259 | likewise cancelAll |
| IOManager.DispatchInOrder | src/iomanager.cpp:336-390 | after one more event what it hands out comes behind what was handed out before; a skipped one adds nothing; after an abort nothing more happens |
| IOManager.Manager.DispatchEvents | src/iomanager.cpp:336-390 | the loop over reported events does exactly that, in place, and keeps the table valid |
| TimerProofs.CompareIsStrictTotalOrder | src/timer.cpp:8-21 | Compare, null pointers included, is a strict total order |
| TimerProofs.CompareExactly | src/timer.cpp:8-21 | null comes first, then the earlier deadline, then the lower address |
| TimerProofs.WrapsExactly | src/timer.cpp:46-70 | sums and differences of 64-bit times wrap around once |
| TimerProofs.FindHits | src/timer.cpp:30-31 | in a sorted set find hits exactly the elements |
| TimerProofs.InsertSorted | src/timer.cpp:112-116 | insert keeps the set sorted and adds exactly the element |
| TimerProofs.AddTimerKeeps | src/timer.cpp:104-116 | a new timer is in the set with its deadline and nothing else changes |
| TimerProofs.CancelKeeps | src/timer.cpp:24-35 | cancle succeeds exactly if the callback is non-empty, its unchecked erase always has an element, and exactly that timer leaves the set |
| TimerProofs.RefreshKeeps | src/timer.cpp:37-50 | refresh re-arms from now exactly the timers with a callback |
| TimerProofs.ResetKeeps | src/timer.cpp:53-76 | reset gives a live timer its new period from now or from when it was last armed |
| TimerProofs.ExpiredEndExact | src/timer.cpp:170-176 | lower_bound plus the skip over equal deadlines cuts off exactly the due timers, whatever the temporary's address |
| TimerProofs.ExpireHandsOutDue | src/timer.cpp:155-193 | listExpireCB hands out exactly the timers due at now, all on a rollover |
| TimerProofs.HandedOutInOrder | src/timer.cpp:170-184 | by deadline, and by address among equal deadlines |
| TimerProofs.ExpireEffect | src/timer.cpp:180-192 | every due recurring timer gets the deadline now plus its period and stays in the set, every due one-shot loses its callback and leaves it, every other timer is as before |
| TimerProofs.NotAgainBeforeItsPeriod | src/timer.cpp:183-187 | a recurring timer just handed out at now is handed out again at a later time if and only if its period is over |
| TimerProofs.NextTimerIsExact | src/timer.cpp:139-177 | with delay d at time t nothing expires before t+d and the front timer does from t+d on; without timers the delay is ~0 and nothing ever expires |
| TimerProofs.ClampIsSafeExactly | src/iomanager.cpp:307-312 | the wait given to epoll_wait is between 0 and the delay if and only if the delay modulo 2^32 is below 2^31 |
| TimerProofs.EpollTimeoutExactly | src/iomanager.cpp:307-312 | the wait for every delay: its low 32 bits as an int, at most 5000, and 5000 without a timer |
| TimerRuns.RunKeeps | src/timer.cpp:24-193 | every run of add, cancle, refresh, reset and expire keeps the invariant |
| TimerRuns.SetAndCallbacksAgree | src/timer.cpp:24-35 | over every run the set is sorted and a timer given a callback is in it exactly while the callback is non-empty |
| TimerRuns.OneShotHandedOnce | src/timer.cpp:180-192 | over every run a one-shot timer is handed out at most once |
| TimerRuns.NeverEarlyNorAfterCancel | src/timer.cpp:155-193 | without rollover nothing is handed out early, and nothing ever after its successful cancellation |
| TimerRuns.NotBeforeItsDeadline | src/timer.cpp:155-193 | over any run before a timer's deadline, whatever happens to the others, it is not handed out; so a re-armed one not before its next |
| TimerRuns.ExpireIsLogged | src/timer.cpp:182-184 | every hand-out is logged with its time and deadline, and nothing else |
| TimerManager.Manager.AddTimer | src/timer.cpp:104-116 | the in-place addTimer refines the operation |
| TimerManager.Manager.Cancle | src/timer.cpp:24-35 | likewise cancle |
| TimerManager.Manager.Refresh | src/timer.cpp:37-50 | likewise refresh |
| TimerManager.Manager.Reset | src/timer.cpp:53-76 | likewise reset |
| TimerManager.Manager.GetNextTimer | src/timer.cpp:139-153 | the delay is the one NextTimerIsExact speaks of |
| TimerProofs.RolloverExactly | src/timer.cpp:201-208 | a rollover is seen if and only if the clock went back by more than an hour, or went back at all within its first hour |
| TimerManager.Manager.ListExpireCB | src/timer.cpp:155-193 | the loops refine the operation, and the callbacks collected are those the timers handed out had, in order |
| ByteArrays.ByteArray.constructor | src/bytearray.cpp:32-36 | one node, everything at 0, big endian |
| ByteArrays.ByteArray.CursorPlace | src/bytearray.cpp:417-418 | the cursor is block position / baseSize, or null exactly when position equals capacity |
| ByteArrays.ByteArray.AddCapacity | src/bytearray.cpp:579-606 | enough room afterwards if and only if Suffices held before; the old storage is a prefix of the new |
| ByteArrays.ByteArray.Write | src/bytearray.cpp:412-446 | completes if and only if the allocation suffices; the bytes are in place and nothing before or after them has changed |
| ByteArrays.ByteArray.Read | src/bytearray.cpp:448-479 | throws exactly beyond the readable bytes, hits a null cursor exactly for 0 bytes at the end, otherwise returns the flat bytes |
| ByteArrays.ByteArray.SetPosition | src/bytearray.cpp:515-530 | throws exactly beyond the capacity; the walk ends at the block of the position |
| ByteArrays.ByteArray.Clear | src/bytearray.cpp:397-410 | back to one node, position and size 0 |
| ByteArrays.ByteArray.TilesAreStorage | src/bytearray.cpp:642-660 | tiles cut at block boundaries lie inside their nodes and together are exactly the next bytes |
| ByteArrays.ByteArray.TilesDisjoint | src/bytearray.cpp:642-660 | no two of them share storage |
| ByteArrays.ByteArray.GetReadBuffers | src/bytearray.cpp:632-662 | segments of exactly the next min(len, readable) bytes, without overlap or gap; nothing moves |
| ByteArrays.ByteArray.GetWriteBuffers | src/bytearray.cpp:701-732 | after growing, the walk yields segments that tile exactly the next len bytes of storage; it runs off the list exactly if write would |
| ByteArrays.ByteArray.Peek | src/bytearray.cpp:481-513 | the const read at any position: throws exactly beyond the readable bytes, hits null exactly if the cursor is null or the walk runs off the list, otherwise returns the bytes from the position's offset in the cursor's block on |
| ByteArrays.ByteArray.PeekStartExactly | src/bytearray.cpp:485-487 | those are the bytes at the position if and only if it lies in the cursor's block |
| ByteArrays.ByteArray.ToString | src/bytearray.cpp:608-616 | the readable bytes |
| FlatRuns.Step | src/bytearray.cpp:397-530 | each operation does what a flat buffer does, exceptions and null cursors included |
| FlatRuns.Run | src/bytearray.cpp:397-530 | any sequence of operations, with any block size, is step by step a run of the flat buffer, cut short only by a crash |
| Blocks.AddCapacitySufficesExactly | src/bytearray.cpp:583-602 | with c bytes free, asking for n in blocks of b suffices if and only if n <= c or (n-c) mod b is 0 or exceeds c |
| Blocks.NewBlocksExactly | src/bytearray.cpp:583-602 | it appends the fewest blocks that suffice, or one less than those |
| Blocks.AddCapacityCanFallShort | src/bytearray.cpp:588-588 | a request that falls short |
| Blocks.SufficesOften | src/bytearray.cpp:588-588 | it always suffices when nothing is free or blocks have one byte |
| Blocks.AlignedRunSuffices | src/bytearray.cpp:412-446 | a run of appends of one width that divides the block size never falls short |
| Blocks.WalkIsSlice | src/bytearray.cpp:455-478 | walking block by block yields the flat stretch |
| Codec.ByteswapReverses | src/myendian.h:12-31 | byteswap reverses the bytes and is its own inverse |
| Codec.FixedIsInArrayOrder | src/bytearray.cpp:71-123 | on every host the byte that weighs 256^i is written i-th in a little-endian array and at the mirrored place in a big-endian one |
| Codec.FixedRoundTrip | src/bytearray.cpp:250-290 | and read back |
| Codec.SignedRoundTrip | src/bytearray.cpp:262-285 | a negative number is sent as itself plus 256^w, and comes back |
| Codec.VarintFitsScratch | src/bytearray.cpp:156-186 | the encodings fit 5 and 10 bytes |
| Codec.FillScratch | src/bytearray.cpp:158-166 | the encoding loop, in the source's own bit operations, stays inside its scratch array and leaves the encoding in it |
| Codec.VarintIs | src/bytearray.cpp:156-186 | the bytes of an encoding denote the value in groups of seven bits, lowest first, all but the last flagged, and none is superfluous |
| Codec.GetVarintExactly | src/bytearray.cpp:298-340 | on any bytes the read loops stop after the first unflagged byte or at their limit, with the groups read modulo 2^32 |
| Codec.ReadUint64Stops | src/bytearray.cpp:323-338 | readUint64 stops after ten bytes |
| Codec.VarintRoundTrip | src/bytearray.cpp:298-340 | decoding consumes exactly the encoded bytes whatever follows; readUint32 inverts writeUint32; readUint64 returns the value modulo 2^32 |
| Codec.SevenBits | src/bytearray.cpp:160-164 | the encoder's mask is the remainder by 128 and its flag adds 128, on numbers bit by bit |
| Codec.OrAdds | src/bytearray.cpp:301-313 | what has been gathered lies below the next group's bits, so or-ing the shifted group in adds it, at every byte of either loop |
| Codec.DecodeZigzagIs | src/bytearray.cpp:141-144 | the xor with the negated low bit keeps an even value's half and complements an odd one's |
| Bits.DisjointOr | src/bytearray.cpp:306-311 | or-ing numbers without a common bit adds them |
| Codec.ZigzagIs | src/bytearray.cpp:125-131 | 0, -1, 1, -2, .. become 0, 1, 2, 3, .. |
| Codec.Zigzag32RoundTrip | src/bytearray.cpp:125-144 | zigzag decoding inverts encoding on all 32-bit values |
| Codec.Zigzag32Onto | src/bytearray.cpp:125-144 | and encoding inverts decoding |
| Codec.DecodersAgree | src/bytearray.cpp:141-149 | DecodeZigzag64, which readInt64 uses, agrees with DecodeZigzag32 on every 32-bit code |
| Codec.Int64SurvivesExactly | src/bytearray.cpp:169-172 | writeInt64 then readInt64 gives the value truncated to 32 bits, so the value itself if and only if it fits |
| Wire.IntegerFormat | src/bytearray.cpp:62-123 | an integer is one write of its bytes in the array's order, two's complement if signed |
| Wire.VarintFormat | src/bytearray.cpp:151-186 | a varint is one write of flagged groups of seven bits |
| Wire.StringFormat | src/bytearray.cpp:204-221 | a string is one write of its length's bytes and one of its own |
| Wire.DecodeAnyVarint | src/bytearray.cpp:298-315 | what readUint32 makes of any bytes, at most five of them, and when it throws |
| Wire.DecodeEncode | src/bytearray.cpp:62-167 | every typed value that fits is read back from exactly its own bytes whatever follows |
| Wire.PiecesFlatten | src/bytearray.cpp:204-221 | the successive writes of a list concatenate to its encoding |
| TypedIO.WriteAll | src/bytearray.cpp:62-221 | writing a list completes if and only if every allocation suffices, and then its encoding is appended |
| TypedIO.ReadVarint | src/bytearray.cpp:298-340 | the read loops of readUint32 and readUint64, in the source's own bit operations, compute the decoding of the readable bytes and consume what it used |
| TypedIO.ReadString | src/bytearray.cpp:358-385 | a length-prefixed string is read, throws when short, and hits the null cursor in exactly one case |
| TypedIO.ReadValue | src/bytearray.cpp:236-315 | reading one value does what the decoding of the readable bytes says |
| TypedIO.RoundTrip | src/bytearray.cpp:62-385 | writing a list, seeking to 0 and reading back gives the list and leaves nothing, with the exact conditions on allocation and on a final empty string |
| Pool.Pool.PopUsable | src/http/http_connection.cpp:309-327 | the connection taken is open and was made before now, each one set aside before it is closed or from the future, and the others stay in order; if none is taken all were set aside |
| Pool.PopExactly | src/http/http_connection.cpp:306-328 | the same of the step, for connections that exist |
| Pool.LentWasOpen | src/http/http_connection.cpp:314-328 | over every run an idle connection that is lent was open when its client took it from the list |
| Pool.SubtractExactly | src/http/http_connection.cpp:328-333 | exactly what was set aside is deleted and uncounted, and what was taken is lent; with nothing taken the client connects |
| Pool.ConnectExactly | src/http/http_connection.cpp:334-356 | a failed connect changes nothing, a successful one is one connection more, counted and lent |
| Pool.StepKeeps | src/http/http_connection.cpp:304-372 | every step of every client keeps the accounting |
| Pool.PoolAccounting | src/http/http_connection.cpp:304-372 | over every run m_total is exact and never underflows, each connection is idle, in one client's hands or deleted, and none is lent more than maxRequest+1 times |
| Pool.ReleaseExactly | src/http/http_connection.cpp:359-372 | a released connection goes to the back of the idle ones if and only if it is open, has outlived the limit and was not used too often; otherwise it is deleted and m_total lowered; its use is counted and nothing else changes |
| Pool.YoungConnectionIsDeleted | src/http/http_connection.cpp:363-368 | the branch of the reversed test: with a creation time still within the limit an open connection is deleted |
| Pool.IdleConnectionsOutlivedTheirLimit | src/http/http_connection.cpp:363-371 | over every run every idle connection had outlived its limit when it was returned |
| Pool.AgeNeverMatters | src/http/http_connection.cpp:359-372 | with the creation time 0 the source leaves, over every run age decides nothing once the clock has passed the limit: a released connection is kept if and only if it is open and was not used too often |
| Pool.OldConnectionIsLentAgain | src/http/http_connection.cpp:302-372 | for every limit and every age beyond it, a run in which a connection that old, its creation time 0, is kept and lent again |
| Ipv6.Insert | src/address.cpp:432-452 | the printing loop produces the text the rows below speak of |
| Ipv6.AtMostOneGap | src/address.cpp:438-452 | the text has at most one "::" |
| Ipv6.TextLeavesOutFirstRun | src/address.cpp:438-451 | "::" stands for exactly the first run of zero groups, whole; all groups before it and all after it are printed |
| Ipv6.TextWithoutZero | src/address.cpp:438-451 | without a zero group there is no "::" and all groups are printed |
| Ipv6.TextIsPlain | src/address.cpp:448-448 | no field has a leading zero |
| Ipv6.ExpandText | src/address.cpp:432-452 | expanding the text by section 2.2 of RFC 4291 gives back the eight groups |
| Ipv6.TextIsInjective | src/address.cpp:432-452 | different addresses print differently |

## Left out

Assumptions of the wake-up machine:

- Clients call `schedule` only on a fiber that no thread is running and nothing else will wake (`ScheduleParked`), or on themselves before YieldToHold (`ScheduleSelf`); they call YieldToReady only while nothing is going to wake the fiber, and a function ends only where the fiber holds no registration.
- A fiber that has registered itself does nothing more before it yields: no second registration, sleep or hooked call. WakeupYield.GoingOnExactly says when doing so keeps the invariant.
- The lookup and the growth in addEvent are one step although the read lock is dropped between them; the emptiness check and the use of begin() in listExpireCB likewise.
- A fiber's change of its own state and the swap that follows it are one step; nobody else reads that state in between, because nobody holds a wake-up of it.
- A failing TINY_ASSERT in an fd operation ends the program, so it is not a step; FdEventProofs says exactly when it happens.
- In the wake-up machine timers expire at any moment; when they do is the subject of the timer modules. Recurring and client timers are not cancelled by clients there.
- One scheduler that is an IOManager: FdEvent's scheduler pointer is modelled as set or unset; the root fiber, `call` and `back` are not modelled.
- The raw system call is "a result or would-block"; the EINTR loop (`src/hook.cpp:106-109`) and the checks on FdCtx before it are part of that.
- The kernel's own removal of an fd from its interest list on close is not modelled.
- The idle fibers' own states, `m_idleThreadCount`, `m_tickled` and `tickle` are not modelled; the scan's tickle flag is.

Other parts:

- WakeupYield.YieldToReadyWhileRegisteredBreaks: the run is given for states in which the two scanning threads have nothing else to take, because what other queued tasks would do is up to client code.
- Timer addresses are never reused; the address of listExpireCB's temporary timer is arbitrary.
- Encoding the most negative 32-bit zigzag value negates it, which overflows in C++; the model takes it modulo 2^32.
- Freeing of nodes, `toHexString`, `writeToFile`, `readFromFile`, `readDouble`, `readStringVint` and the getReadBuffers overload with a position: file I/O, formatting, or at odds with their own counterparts.
- Memory exhaustion and the 64-bit limit of sizes in ByteArray.
- The brackets and the port around the IPv6 text; the other address classes.
- Address lookup and connecting in getConnection are one step that succeeds or fails; the rest of the HTTP client.
- The Ragel-generated parsers, chunked responses, URI, configuration, logging, environment, daemon, servlets, sockets and servers: generated tables, I/O plumbing or easy members.
