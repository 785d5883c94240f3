# Verification of the SuperTinyKernel scheduler core

This project models the tick engine of the SuperTinyKernel RTOS and the SEGGER tracing code it ships
with, and proves properties of the models over every input and every run.

## What is modelled

**The kernel** (`stk/include/stk.h` with `stk_common.h` and `stk_helper.h`). `KernelTypes` and
`KernelSpec` give the whole kernel state (task slots with their embedded wait objects, the strategy's
runnable and sleeping tasks, wait lists, sync list, state machine, current task, and the context the
CPU is really executing) and what every operation does to it. The class `KernelObject.Kernel` is the
imperative kernel with its loops; each method is proved to do exactly what the specification function
says. An `STK_ASSERT` that would fire sets a `panic` flag, so "no assertion fires" is the statement that
no reachable state has `panic` set. The scheduling strategy is abstract: its answers are an arbitrary
function of the calls it has received, restricted only by the interface contract (`Lawful`). The
round-robin strategy is proved to meet that contract, so the contract is not empty.

`Dispatching` proves who gets the CPU. `Runs` defines runs: ticks of any length, sleeps, waits, signals,
exits, suspends, removals and the four separate steps of `RequestAddTask`, interleaved in any order.
`Enabled` states the calling conditions:

- critical sections, ticks and `ScheduleRemoval` are atomic steps;
- `Resume`, sleep cancellation and scheduled removal are not applied to a task blocked on a sync object,
  and `Resume` not to one that is pending removal;
- a tick finds free slots for the requests it serves, and the requested tasks are new;
- a signal is given while the waiters it releases sleep (`Waiters` proves that this always holds until the
  counter of an infinite wait runs out);
- a task makes calls only while it executes user code: awake, not leaving, and not inside a wait. A task that
  an overrun counter has woken inside its wait makes none.

A run starts in any state that satisfies the invariant; `Runs.InitialInv` shows that the freshly
initialised kernel is one. `Reached` builds runs from the initialised kernel into the states where a
promise fails, `Starvation` does so for the kernel with the round-robin strategy.

**Hard real-time accounting** is a second model (`Hrt`, `HrtRuns`, `HrtKernelObject`), because the
source re-schedules the sleep of every HRT task it switches out: static tasks, one tick at a time.
`HrtDispatch` proves who gets the CPU there.

**The lists.** `LinkedList` has the intrusive doubly linked list on the heap, open and closed, with its
link, unlink, pop, clear and relink operations proved against a sequence. `WaitList` is the timeout walk
over such a list while `Wake` unlinks entries under it.

**The 64-bit tick counter** (`Volatile64`): reader and writer as interleaved 32-bit accesses.

**RTT and SystemView.** `RttRing`, `Rtt` and `RttStream` have the up-buffer: in-place writers and reader
proved against a FIFO, and a byte-by-byte interleaving of target and host. `SysViewCode`,
`SysViewStream` and `SysView` have the packet formats with a reader for each, the run of stored and lost
packets, and the sender working on its buffers and on the RTT ring.

## Where code and documentation differ

- `ISyncObject::Tick` is documented to return false also when only infinite waiters remain
  (`stk/include/stk_common.h:510-518`); the code returns false exactly when the list is empty. The two agree
  if and only if no waiter is an infinite one or a finite wait is left (`WaitList.Tick`); otherwise the object
  stays on the sync list, as in the run of `Reached.InfiniteStaysListed`.
- The tickless interval is described as safe to suppress. `Tickless.TicklessExactly` gives the exact
  condition (the 32-bit counter of no infinite wait runs out inside the interval) and
  `Reached.OverrunExample` a run of a fresh kernel into an interval where it fails.
- An infinite wait is a sleep of INT32_MAX ticks that still counts. `Waiters.InfiniteWaitOverrun` shows
  which tick leaves such a task awake and still queued, `Reached.InfiniteWaitExample` a run that gets there.
- A leaving task sleeps for INT32_MAX ticks too, and its removal waits until it is switched out.
  `Removal.DrainsInTwoTicks` gives the exact condition for two ticks to empty the kernel (a request announced
  meanwhile counts too), and
  `Reached.ExitedTaskWakes` a run in which an exited task wakes up instead.
- The round-robin cursor is documented to preserve the rotation without skipping a task
  (`stk/include/strategy/stk_strategy_rrobin.h:205-216`). `RoundRobin.DepartureKeepsTurns` shows that this
  holds exactly for the departure of the cursor's task or the one after it. `Starvation.SkippedTurnReached` is a
  run of a fresh kernel in which a task is skipped, and `Starvation.RunnableTaskStarves` one in which two tasks
  suspend and resume each other and the third, runnable all the time, is not served for any number of ticks.
- A task added while the round-robin cursor stands on the last task is documented to be the next one
  (`stk/include/strategy/stk_strategy_rrobin.h:68-70`). `RoundRobin.AddKeepsTurns` shows that it is next if and
  only if it is the only runnable task, `RoundRobin.NewTaskNotNext` is a ring of two for which it is not.
- The overwriting writer is documented to overwrite old data when a block does not fit.
  `RttOverwrite.OverwriteExactly` shows that the newest bytes survive, for all blocks of a length, exactly
  when the write offset plus the length stays below twice the buffer size minus one (or the buffer has one byte
  and so holds nothing).
- A task with HRT periodicity P is released P + 1 ticks after its last release when its job took fewer than P
  ticks, and otherwise two ticks after the end of the job (`HrtRuns.ReleasesKeepPace`). The distance is never P
  (`HrtRuns.NeverOnPeriod`).
- The overflow packet is documented to carry the number of dropped packets. Its count leaves out the first
  loss of every gap and takes in masked events that met a full ring, because the overflow packet is tried before
  the mask is looked at. It is right if and only if the two numbers are equal modulo 2^32
  (`SysViewStream.DropCountIsShort`, and `NoticeIsShort` for the packet itself).
  `SysViewStream.FirstLossUncounted` is a run of one event with a wrong count, `MaskedEventCounted` a run of two
  in which the two errors cancel.
- `_EncodeStr` is documented to write at most 1 + Limit bytes (`deps/segger/SEGGER_SYSVIEW.c:493`). That holds if
  and only if fewer than 255 characters are left after the cut, or the limit exceeds their number by two
  (`SysViewCode.TextFitsLimit`); `SysViewCode.TextOverLimit` is a text of 255 characters with limit 255.

## Model

| member | source | states |
|---|---|---|
| Tickless.TicklessExactly | stk/include/stk.h:1691-1716 | after a tick returned the interval R, for every k <= R one tick of length k and k ticks of length 1 reach the same state (clock, wait lists, timeouts, strategy history, state machine, context) if and only if k is 1 or no infinite wait's sleep counter runs out within k ticks |
| Tickless.TicklessRefinesTicked | stk/include/stk.h:1946-2038 | the refinement direction: every suppressed interval up to the returned one equals the ticks it replaces |
| Tickless.OverrunDiffers | stk/include/stk.h:743-743 | a sleep counter of an infinite wait that runs out inside the interval makes the ticked and the tickless kernel differ |
| Reached.OverrunExample | stk/include/stk.h:337-368 | a run of a freshly initialised kernel (add a task, start, infinite wait, ticks) after whose last tick the interval is 1000 although one tick of length 4 already differs from four ticks |
| Reached.EndlessWaitReached | stk/include/stk.h:1808-1848 | unit ticks from a freshly initialised kernel reach every value of an infinite wait's sleep counter |
| Tickless.HintBounds | stk/include/stk.h:337-368 | an interval of two or more is no longer than any sleep or remaining timeout of a bound task |
| Tickless.ReturnsGreatest | stk/include/stk.h:337-368 | the interval a tick returns is at least k if and only if no sleep and no timeout it leaves behind is shorter than k, for every k from 2 up to the maximum, and never below one |
| Tickless.SyncListOfTick | stk/include/stk.h:2043-2058 | after every tick the sync list holds exactly the objects that have waiters |
| Safety.ContextContinuity | stk/include/stk.h:1618-1649 | in every state of every run no assertion has fired, each requested switch saves the context the previous one restored, and the CPU is on the sleep trap exactly while the state machine sleeps, otherwise on the current task's stack |
| Safety.TickHandsOver | stk/include/stk.h:2146-2298 | a tick leaves the CPU alone, or saves exactly the running context and restores the sleep trap or a slot's stack, or stops with no task left, coming from the sleep trap |
| Safety.StrategyAgrees | stk/include/stk.h:1972-1996 | in every reachable state the strategy sleeps exactly the busy tasks with a negative counter and no pending notification, runs all other busy tasks, and its size is the number of busy slots |
| Safety.NotificationsAlternate | stk/include/stk.h:730-745 | between two sleep notifications of a task there is a wake or a new binding, and between two wakes a sleep |
| Safety.RunningStackStaysBound | stk/include/stk.h:1954-1970 | no tick unbinds the slot whose stack the CPU is executing on, and the stack a tick leaves the CPU on belongs to a bound task |
| Dispatching.TickDispatches | stk/include/stk.h:2094-2298 | when a task is awake after a tick, the strategy was asked once, after all reports of the tick, and the CPU and the current task are the one it named, which is awake, from whatever state the kernel came; when all tasks sleep the CPU is on the sleep trap with the strategy's first task as current, and with no task left on the exit trap |
| Dispatching.StartDispatches | stk/include/stk.h:1594-1657 | the same of the start, after the pending sleeps have been reported |
| Dispatching.RunFollows | stk/include/stk.h:2094-2298 | over every run each pick is the strategy's answer to what it had been told by then, and whenever the CPU executes a task it is the one picked last |
| Dispatching.InitialFollows | stk/include/stk.h:957-1017 | what the theorem above starts from holds of the initialised kernel |
| Dispatching.FsmDispatches | stk/include/stk.h:2135-2180 | the state machine alone: where it goes and whom it serves for every combination of awake and bound tasks |
| Removal.DrainsInTwoTicks | stk/include/stk.h:1954-1970 | when every busy task of a running kernel is on its way out, two ticks of any lengths reach EXITING if and only if no announced request is pending, every busy task is asleep, and either the current task's sleep outlasts the first tick, or the kernel sleeps and the current task's slot is the last busy one |
| Removal.AwakeStays | stk/include/stk.h:1948-1970 | an awake task, leaving or not, is not removed by a tick and keeps the kernel from exiting, tick after tick |
| Removal.AddedTick | stk/include/stk.h:2062-2088 | a tick that serves a request leaves an awake task and does not exit |
| Removal.PassRemovesAll | stk/include/stk.h:1959-1969 | a sleeping kernel that meets its current task behind all others loses every task in one pass |
| Removal.PassDrains | stk/include/stk.h:1959-1969 | one pass removes every leaving task but, at most, the current one |
| Reached.ExitedTaskWakes | stk/include/stk.h:588-601 | a run in which the only task exits and a tick of INT32_MAX wakes it, so that two ticks do not reach EXITING |
| Removal.ExitOnlyWhenEmpty | stk/include/stk.h:2111-2122 | EXITING is entered only from SLEEPING and with no busy slot left |
| Removal.RemovedByNextTick | stk/include/stk.h:1113-1134 | a task that is removed while it is not current, whether it sleeps or not, is unbound and unknown to the strategy after one tick of any length |
| Removal.RemovalStarts | stk/include/stk.h:588-601 | a scheduled removal and an exit leave the task asleep for INT32_MAX ticks and on its way out, and change nothing else |
| Removal.LeavingUntilFreed | stk/include/stk.h:1948-1970 | over every run shorter than INT32_MAX ticks a leaving task stays asleep and on its way out until it is freed, and every tick that did not free it found it current |
| Removal.TickFrees | stk/include/stk.h:1959-1969 | a tick frees a leaving task that is not current |
| Removal.RemoveTaskFrees | stk/include/stk.h:1091-1103 | before the start a task is removed at once, and no other slot changes |
| Removal.StopReturns | stk/include/stk.h:1664-1673 | a stopped kernel is back on the caller's stack and takes tasks again |
| Waiters.RunWaitersAsleep | stk/include/stk.h:1815-1830 | in every run that stays within the counters of its infinite waits every waiting task is asleep, so that every signal is permitted |
| Waiters.InfiniteWaitOverrun | stk/include/stk.h:1985-1996 | one tick keeps an infinite waiter queued, and asleep if and only if its counter has not run out |
| Reached.InfiniteStaysListed | stk/include/stk_common.h:510-518 | a run of a freshly initialised kernel whose last tick leaves an object with only an infinite waiter on the sync list |
| Reached.InfiniteWaitExample | stk/include/stk.h:1985-1996 | a run of a freshly initialised kernel whose last tick leaves the waiting task awake and still queued |
| Timing.WaitExpires | stk/include/stk.h:491-507 | an unsignalled wait with timeout T ends at exactly the first tick at which the elapsed time reaches T: its task is then awake, runnable, off every wait list, with the timeout result |
| Timing.WaitRunsDown | stk/include/stk.h:491-507 | until then the task stays asleep and queued with the remaining time counted exactly |
| Timing.WaitArms | stk/include/stk.h:1808-1848 | a wait queues the caller last, registers the object and arms the timeout that the two theorems above speak of, and changes nothing else |
| Timing.WaitsEndOnce | stk/include/stk.h:472-483 | between two ends of waits of one slot the slot was armed again: each wait is ended at most once |
| Outcomes.ResultTellsExpiry | stk/include/stk.h:1808-1848 | over every run, from the end of a wait until the task enters another one, the result it reads is TIMEOUT if and only if a tick ended the wait |
| Outcomes.StepRecords | stk/include/stk.h:472-507 | a step ends waits with a timeout if it is a tick and with success if it is a signal, and no other step ends any |
| Timing.SignalReleasesFirst | stk/include/stk_common.h:534-540 | a signal releases the longest waiter with a success result and it is awake after the next tick of any length; the others keep their order |
| Timing.SignalReleasesAll | stk/include/stk_common.h:548-554 | waking all empties the wait list and ends every wait with success, in FIFO order, and touches no other task or list |
| Timing.WakesAtTimestamp | stk/include/stk.h:1747-1775 | a task sleeping until a timestamp is asleep exactly while the clock is before it, however elapsed time is split into ticks, and runnable in the first state at or after it |
| Timing.SleepUntilCounts | stk/include/stk.h:1985-1996 | clock minus sleep counter stays equal to the timestamp while the task sleeps |
| Timing.SleepUntilStarts | stk/include/stk.h:1760-1769 | the call starts such a sleep if and only if the timestamp is ahead and within INT32_MAX ticks, does nothing if and only if it is not ahead, and sleeps INT32_MAX ticks when it is further away |
| Timing.SleepStarts | stk/include/stk.h:1144-1176 | a sleep, a suspension, a forced yield and the wait for a request put an awake task to sleep for exactly their ticks and change nothing else; a task that sleeps already is left alone |
| Timing.ServedGoesOn | stk/include/stk.h:1474-1478 | a requester whose request has been served already is not put to sleep |
| Timing.ResumeWakes | stk/include/stk.h:1181-1195 | a resumed task is awake after the next tick of any length |
| Timing.TickTime | stk/include/stk.h:935-939 | a tick advances the clock by exactly the elapsed ticks |
| Timing.TickedSlot | stk/include/stk.h:1946-2038 | the timers of every bound slot after a tick, in closed form |
| Requests.RequestsServed | stk/include/stk.h:2062-2088 | one service binds one free slot for each pending request and no other slot, tells the strategy of each new task once, and leaves nothing pending |
| Requests.AddsOnce | stk/include/stk.h:2062-2088 | in a history of additions a task that was not managed is managed afterwards if and only if it was added, and then it was added once |
| Requests.AddTaskBinds | stk/include/stk.h:1379-1440 | before the start a task goes awake into the first free slot and to the strategy once, and no other slot changes |
| Requests.TickRequest | stk/include/stk.h:1691-1716 | a whole tick keeps a request as it is, or clears it and binds the requested task to exactly one slot, which was free, with exactly one addition in the strategy's history |
| Requests.RequestFulfilled | stk/include/stk.h:1463-1481 | over every interleaving a request stays pending, while its requester is in the call, up to the one tick that serves it, and never comes back |
| Requests.RequestCompletes | stk/include/stk.h:1463-1481 | the closing assertion of the call holds whenever the requester reaches it, and exactly one tick between post and finish cleared the request, binding its task to one free slot |
| Runs.InitialInv | stk/include/stk.h:957-1017 | the initialised kernel satisfies the invariant |
| Runs.StepInv | stk/include/stk.h:1691-1848 | every enabled action keeps the kernel invariant |
| Runs.RunInv | stk/include/stk.h:1691-1848 | every state of every run satisfies the kernel invariant |
| TickInvariant.TickInv | stk/include/stk.h:1691-1716 | a tick of any length keeps the invariant, and no assertion fires in it |
| TickInvariant.SlotPass | stk/include/stk.h:1946-2038 | the pass over the slots keeps slots, strategy and lists in step |
| TickInvariant.PickOk | stk/include/stk.h:2094-2108 | the task the strategy offers is bound and awake, so the active-only assertion never fires |
| TickInvariant.TimeoutsCore | stk/include/stk.h:2043-2058 | the timeout phase keeps the invariant and the end-once record |
| TickInvariant.RequestsCore | stk/include/stk.h:2062-2088 | serving the requests keeps the invariant and clears the request flag |
| TickInvariant.RemoveCore | stk/include/stk.h:1569-1582 | removing a task keeps the invariant and takes exactly one task from the strategy |
| TickInvariant.AllocateCore | stk/include/stk.h:1379-1440 | binding a new task to the first free slot keeps the invariant |
| Invariant.WaitInv | stk/include/stk.h:1808-1848 | entering a wait keeps the invariant |
| Invariant.WakeWaiterInv | stk/include/stk.h:472-483 | ending a wait keeps the invariant |
| SyncPass.UpdateSyncObjectsIs | stk/include/stk.h:2043-2058 | the walk over the sync list ages every waiter exactly once, leaves exactly the unexpired ones in order, ends the others with a timeout in list order, and keeps exactly the listed objects that still have waiters |
| SyncPass.TickWaitersIs | stk/include/stk_helper.h:175-205 | the same for the wait list of one object |
| KernelSpec.FirstFree | stk/include/stk.h:1379-1414 | the lowest free slot, all slots before it being busy |
| KernelObject.Kernel.constructor | stk/include/stk.h:957-1017 | a kernel with free slots and empty lists |
| KernelObject.Kernel.AllocateAndAddNewTask | stk/include/stk.h:1379-1440 | the scan finds the first free slot and any collision, binds the slot and tells the strategy |
| KernelObject.Kernel.FindTaskByUserTask | stk/include/stk.h:1487-1502 | the first slot bound to the user task, or none when no slot is |
| KernelObject.Kernel.RemoveTask | stk/include/stk.h:1569-1582 | the strategy drops the task and the slot is free |
| KernelObject.Kernel.Wake | stk/include/stk.h:472-483 | the waiter leaves its list with its result recorded and its task due on this tick |
| KernelObject.Kernel.TickSyncObject | stk/include/stk_helper.h:175-205 | the loop over the waiters is the pass of the specification |
| KernelObject.Kernel.UpdateSyncObjects | stk/include/stk.h:2043-2058 | the loop over the sync list is the pass of the specification |
| KernelObject.Kernel.WakeOne | stk/include/stk_common.h:534-540 | the front waiter is woken, or nothing happens |
| KernelObject.Kernel.WakeAll | stk/include/stk_common.h:548-554 | the loop that wakes the front terminates, wakes every waiter in FIFO order and leaves the list empty |
| KernelObject.Kernel.UpdateTaskRequest | stk/include/stk.h:2062-2088 | the loop serves the posted requests in slot order |
| KernelObject.Kernel.UpdateTaskState | stk/include/stk.h:1946-2038 | the loop over the slots and the running minimum of the sleep times |
| KernelObject.Kernel.UpdateOneTask | stk/include/stk.h:1952-1996 | removal, sleep notification, counting and wake notification of one slot |
| KernelObject.Kernel.FetchNextEvent | stk/include/stk.h:2094-2126 | the strategy's choice and the event it gives rise to |
| KernelObject.Kernel.StateSwitch | stk/include/stk.h:2189-2230 | the switch requested between two tasks, or none when the task stays |
| KernelObject.Kernel.StateWake | stk/include/stk.h:2239-2264 | the switch from the sleep trap |
| KernelObject.Kernel.StateSleep | stk/include/stk.h:2273-2298 | the switch to the sleep trap, the current task becoming the strategy's first |
| KernelObject.Kernel.StateExit | stk/include/stk.h:2308-2332 | no switch; the platform leaves through the exit trap |
| KernelObject.Kernel.UpdateFsmState | stk/include/stk.h:2146-2180 | the transition table and the switch that is carried out when, and only when, one is requested |
| KernelObject.Kernel.OnTick | stk/include/stk.h:1691-1716 | a whole tick: the new state, the interval it returns and the switch it requests |
| KernelObject.Kernel.DeliverInitialSleeps | stk/include/stk.h:1598-1614 | sleep notifications of the tasks that sleep before the start |
| KernelObject.Kernel.OnStart | stk/include/stk.h:1594-1657 | the first context is the first task's stack or the sleep trap |
| KernelObject.Kernel.ScheduleSleep | stk/include/stk.h:730-745 | a notification becomes due only for a task that was awake |
| KernelObject.Kernel.OnTaskSleep | stk/include/stk.h:1723-1745 | the sleep a task asks for |
| KernelObject.Kernel.OnTaskSleepUntil | stk/include/stk.h:1747-1775 | the sleep until a timestamp, cut off at INT32_MAX |
| KernelObject.Kernel.OnTaskWait | stk/include/stk.h:1808-1848 | the caller is queued last, put to sleep and its object registered once |
| KernelObject.Kernel.ScheduleRemoval | stk/include/stk.h:588-605 | the task sleeps for good and is pending removal |
| KernelObject.Kernel.SuspendTask | stk/include/stk.h:1144-1176 | an awake task is put to sleep, a sleeping one is left alone |
| KernelObject.Kernel.ResumeTask | stk/include/stk.h:1181-1195 | a sleeping task is due on the next tick |
| HrtRuns.ReleasesKeepPace | stk/include/stk.h:673-687 | over every run the first release of a task comes after its start delay, and from release to release it is periodicity + 1 ticks for every job of fewer ticks than the periodicity, otherwise two ticks after the job's last; no assertion fires |
| HrtRuns.NeverOnPeriod | stk/include/stk.h:673-687 | two releases of a task are always more than its periodicity apart |
| HrtRuns.DeadlinesAreWatched | stk/include/stk.h:1998-2026 | over every run an awake task has counted exactly the ticks since its release, and the hard fault is raised if and only if some job has been awake for longer than its deadline |
| HrtDispatch.TickDispatches | stk/include/stk.h:2094-2298 | when a job is released after a tick the task the strategy names is current, also when the job of another task is not finished; otherwise the kernel sleeps with the strategy's first task as current |
| HrtDispatch.BootDispatches | stk/include/stk.h:1594-1657 | the same of the start |
| HrtDispatch.RunFollows | stk/include/stk.h:2189-2264 | over every schedule each pick is the strategy's answer and the current task of a kernel that does not sleep is the one picked last |
| HrtRuns.TickKeeps | stk/include/stk.h:1691-1716 | a tick keeps the accounting invariant: every task counts, has just yielded and is selected, or rests until exactly its next release |
| HrtRuns.AdvanceKeeps | stk/include/stk.h:1946-2038 | the step of one task inside the pass keeps it |
| HrtRuns.PickKeeps | stk/include/stk.h:2189-2230 | a switch takes the job that has finished, and no other, out of the schedule |
| HrtRuns.SleepKeeps | stk/include/stk.h:2273-2298 | the switch to the sleep trap only ever switches out a job that has finished |
| HrtRuns.FinishKeeps | stk/include/stk.h:1718-1745 | the yield of a finished job keeps the accounting |
| HrtRuns.BootInv | stk/include/stk.h:1594-1657 | any start with at least one sound task gives the invariant |
| HrtRuns.LeavingOut | stk/include/stk.h:673-687 | a switched-out job rests until exactly its next release |
| HrtKernelObject.HrtKernel.constructor | stk/include/stk.h:1449-1457 | all tasks are bound with their parameters and start delays |
| HrtKernelObject.HrtKernel.OnTaskSwitch | stk/include/stk.h:1718-1745 | the work is done and the task sleeps for the yield |
| HrtKernelObject.HrtKernel.HrtOnSwitchedOut | stk/include/stk.h:673-687 | the task sleeps for the rest of its period and its record is cleared |
| HrtKernelObject.HrtKernel.UpdateOneTask | stk/include/stk.h:1952-2026 | sleepers count up, jobs count their time and are checked against their deadline |
| HrtKernelObject.HrtKernel.UpdateTaskState | stk/include/stk.h:1946-2038 | the loop over all tasks |
| HrtKernelObject.HrtKernel.StateSwitch | stk/include/stk.h:2189-2230 | a task that is switched out is accounted for only if its work is done |
| HrtKernelObject.HrtKernel.StateSleep | stk/include/stk.h:2273-2298 | the current task is always accounted for |
| HrtKernelObject.HrtKernel.DeliverInitialSleeps | stk/include/stk.h:1598-1614 | the start delays reach the strategy |
| HrtKernelObject.HrtKernel.OnStart | stk/include/stk.h:1594-1657 | the first task, or the sleep trap when all tasks start delayed |
| HrtKernelObject.HrtKernel.UpdateFsmState | stk/include/stk.h:2146-2180 | the transition with its HRT branches |
| HrtKernelObject.HrtKernel.OnTick | stk/include/stk.h:1691-1716 | a whole tick, keeping the accounting invariant |
| LinkedList.Entry.Link | stk/include/stk_linked_list.h:162-177 | the entry sits between its neighbours |
| LinkedList.Entry.Unlink | stk/include/stk_linked_list.h:186-201 | the neighbours are bridged and the entry is unlinked |
| LinkedList.ListHead.UpdateEnds | stk/include/stk_linked_list.h:433-448 | a closed list closes its ring, an emptied one resets |
| LinkedList.ListHead.Link | stk/include/stk_linked_list.h:377-420 | the entry is inserted at its place in the sequence; next and prev stay inverse, the ring closed, the count right |
| LinkedList.ListHead.LinkBack | stk/include/stk_linked_list.h:282-287 | append |
| LinkedList.ListHead.LinkFront | stk/include/stk_linked_list.h:294-299 | prepend |
| LinkedList.ListHead.Unlink | stk/include/stk_linked_list.h:330-350 | exactly this entry is removed and belongs to no list |
| LinkedList.ListHead.PopFront | stk/include/stk_linked_list.h:318-323 | the first entry |
| LinkedList.ListHead.PopBack | stk/include/stk_linked_list.h:306-311 | the last entry |
| LinkedList.ListHead.Clear | stk/include/stk_linked_list.h:277-277 | every entry ends up unlinked |
| LinkedList.ListHead.RelinkTo | stk/include/stk_linked_list.h:358-366 | concatenation: all entries move behind those of the other list, in order |
| LinkedList.ListHead.AheadIs | stk/include/stk_linked_list.h:433-448 | walking k steps along next from the first entry reaches entry k, round the ring of a closed list |
| LinkedList.ListHead.Disjoint | stk/include/stk_linked_list.h:377-420 | no entry is on two lists |
| WaitList.Tick | stk/include/stk_helper.h:175-205 | on the heap every waiter is visited exactly once although waking unlinks the current entry, exactly the unexpired stay in FIFO order with their time reduced, the rest are woken with a timeout, the result says whether anyone is left, and it is the documented one if and only if no waiter was an infinite one or a finite wait is left |
| WaitList.SomeSurvives | stk/include/stk_helper.h:190-204 | a waiter survives the walk if and only if one is infinite or a finite wait is left |
| WaitList.Wake | stk/include/stk.h:472-483 | the entry leaves its list and its task is due |
| WaitList.SurvivingIsUnexpired | stk/include/stk_helper.h:190-204 | the heap walk keeps the same waiters as the kernel specification |
| RoundRobin.RoundRobinLawful | stk/include/strategy/stk_strategy_rrobin.h:72-182 | round robin answers every call history as the strategy contract demands |
| RoundRobin.FollowRepresents | stk/include/strategy/stk_strategy_rrobin.h:72-182 | after any history of calls the rings hold exactly the runnable and the sleeping tasks |
| RoundRobin.OneRound | stk/include/strategy/stk_strategy_rrobin.h:119-130 | while the set does not change one round of picks serves every runnable task exactly once |
| RoundRobin.LeavingCursor | stk/include/strategy/stk_strategy_rrobin.h:217-234 | when a runnable task leaves, whether or not it is the current one, its successor is served next |
| RoundRobin.DepartureKeepsTurns | stk/include/strategy/stk_strategy_rrobin.h:205-234 | a departure leaves the turn with the task that would have been next without it if and only if the cursor's own task leaves or the one after it |
| RoundRobin.AddKeepsTurns | stk/include/strategy/stk_strategy_rrobin.h:65-88 | an addition leaves the next task alone, moves the cursor only from the tail and then onto the new task, and the new task is next if and only if it is alone |
| RoundRobin.NewTaskNotNext | stk/include/strategy/stk_strategy_rrobin.h:65-88 | a ring of two with the cursor on the last task: the first is next after an addition |
| RoundRobin.WakeKeepsTurns | stk/include/strategy/stk_strategy_rrobin.h:185-206 | a task that wakes is next if and only if the cursor stands on the last task or nobody is runnable, otherwise the turn stays |
| RoundRobin.SleeperLeaves | stk/include/strategy/stk_strategy_rrobin.h:91-114 | the removal of a sleeping task leaves the turn alone |
| RoundRobin.ListsInOrder | stk/include/strategy/stk_strategy_rrobin.h:72-206 | both lists stand in the order in which their tasks came to them |
| RoundRobin.FirstIsLongest | stk/include/strategy/stk_strategy_rrobin.h:132-147 | the first task is the one that has been runnable longest, or asleep longest when none is runnable |
| RoundRobin.SkippedTurn | stk/include/strategy/stk_strategy_rrobin.h:205-234 | a history in which another task's departure serves the current task twice before the next one |
| Starvation.SkippedTurnReached | stk/include/strategy/stk_strategy_rrobin.h:205-234 | a run of a freshly initialised kernel with round robin in which a suspended task costs the next task its turn |
| Starvation.RunnableTaskStarves | stk/include/strategy/stk_strategy_rrobin.h:205-234 | a run of a freshly initialised kernel into a state from which, for any number of ticks, two tasks suspend and resume each other and a third is runnable in every state and never runs |
| Starvation.RoundStep | stk/include/stk.h:1691-1716 | one resume, suspend and tick from such a state lead to one with the two tasks exchanged |
| Volatile64.ReadIsLinearizable | stk/include/stk_arch.h:223-264 | a read returns the counter's value at the moment its low half was read if and only if that moment does not fall between the two half-writes of a write that changes the high half |
| Volatile64.TickAtomicReads | stk/include/stk_arch.h:223-264 | with tick-atomic writes every read is such a value |
| Volatile64.TornRead | stk/include/stk_arch.h:288-318 | an interleaving whose read returns a value the counter never had |
| Volatile64.RunInv | stk/include/stk_arch.h:223-318 | every interleaved run keeps the writer's and reader's halves consistent |
| Volatile64.ReadVolatile64 | stk/include/stk_arch.h:246-260 | the retry loop beside a writer that moves before every access ends, and the words it joins are the counter at the moment of its low read if and only if that read does not fall into a carry |
| Volatile64.MovesInv | stk/include/stk_arch.h:288-318 | whatever the writer does between two accesses keeps the protocol invariant |
| RttStream.StreamIsFaithful | deps/segger/SEGGER_RTT.c:359-474 | over every interleaving of target and host accesses the bytes received are a prefix of the bytes written, and the rest is still buffered, in flight or to be posted |
| RttStream.StreamIsComplete | deps/segger/SEGGER_RTT.c:558-631 | when the writer is done and the host has emptied the buffer it has received everything |
| RttStream.StoreSparesUnread | deps/segger/SEGGER_RTT.c:359-474 | storing a byte of a block overwrites no unread byte |
| RttStream.BlockFits | deps/segger/SEGGER_RTT.c:368-376 | the block a turn chooses fits the free space, and is empty only when there is nothing to post or no room |
| RttStream.BlockIsLongest | deps/segger/SEGGER_RTT.c:368-376 | it is the longest block that fits and does not reach past the end of the buffer |
| RttStream.RunInv | deps/segger/SEGGER_RTT.c:359-474 | every interleaved run keeps the block in flight inside the free space and the host's copy equal to the oldest unread bytes |
| RttRing.WriteAppends | deps/segger/SEGGER_RTT.c:421-474 | storing a block that fits appends it to the unread bytes, across the wrap-around |
| RttRing.ReadTakes | deps/segger/SEGGER_RTT.c:558-631 | moving the read offset takes bytes off the front |
| RttRing.WrittenSplit | deps/segger/SEGGER_RTT.c:359-401 | storing a block in two pieces is storing it whole |
| Rtt.Ring.GetAvailWriteSpace | deps/segger/SEGGER_RTT.c:511-527 | capacity minus one minus the unread bytes |
| Rtt.Ring.WriteNoCheck | deps/segger/SEGGER_RTT.c:421-474 | the block is appended; no other byte of memory changes |
| Rtt.Ring.WriteSkip | deps/segger/SEGGER_RTT.c:919-978 | accepts if and only if the data fits, and then leaves the same memory and offset as the unchecked writer; otherwise nothing changes |
| Rtt.Ring.WriteBlocking | deps/segger/SEGGER_RTT.c:359-401 | beside a host that keeps reading, however rarely, the loop posts everything: what the host received plus what is unread is what was there plus the data |
| Rtt.Ring.Write | deps/segger/SEGGER_RTT.c:1084-1133 | what each buffer mode stores: all or nothing, as much as fits, everything, or nothing |
| Rtt.Ring.Read | deps/segger/SEGGER_RTT.c:558-631 | the oldest bytes in order, as many as asked for or there are |
| Rtt.Ring.WriteWithOverwrite | deps/segger/SEGGER_RTT.c:818-889 | for every buffer and data on which the loop ends (all but two or more bytes into a buffer of one) the memory and both offsets are those of the loop on values, and exactly the newest bytes of old contents and data remain as long as the writer does not go round a second time |
| Rtt.Ring.StoreRounds | deps/segger/SEGGER_RTT.c:847-888 | the storing loop with its wrap-arounds |
| RttOverwrite.OverwriteExactly | deps/segger/SEGGER_RTT.c:818-889 | the newest bytes survive for every block of a length if and only if write offset + length + 1 is below twice the buffer size, or the buffer has one byte |
| RttOverwrite.SecondRoundLoses | deps/segger/SEGGER_RTT.c:886-886 | a block that fills a second round leaves a byte of the first one behind |
| SysViewStream.StreamReadsBack | deps/segger/SEGGER_SYSVIEW.c:738-828 | over every run the stored bytes read back as the stored packets in order, the host's sums of the decoded deltas are the send times modulo 2^32 whatever was lost in between, and any part received so far reads as the first of them |
| SysViewStream.GapsAreAnnounced | deps/segger/SEGGER_SYSVIEW.c:633-663 | the packet stored after a loss is an overflow packet with the count at that moment, and the count is dropped plus masked lost events minus gaps, modulo 2^32 |
| SysViewStream.DropCountIsShort | deps/segger/SEGGER_SYSVIEW.c:818-828 | the drop count equals the number of dropped packets if and only if the number of gaps equals that of lost masked events, modulo 2^32 |
| SysViewStream.NoticeIsShort | deps/segger/SEGGER_SYSVIEW.c:633-663 | the same of the number every overflow packet carries |
| SysViewStream.MaskedEventCounted | deps/segger/SEGGER_SYSVIEW.c:759-778 | an event and a masked event on a full ring give a count of one with one packet dropped |
| SysViewStream.OnlyEighteen | deps/segger/SEGGER_SYSVIEW.c:773-781 | 0x40000 masks event 18 and not event 17, so that such a run exists |
| SysViewStream.SyncIsNops | deps/segger/SEGGER_SYSVIEW.c:1777-1790 | the ten zero bytes of a start read back as five dummy events without a time difference |
| SysViewStream.FirstLossUncounted | deps/segger/SEGGER_SYSVIEW.c:818-828 | one event that finds the ring full is a loss with a drop count of zero |
| SysViewStream.RunKeeps | deps/segger/SEGGER_SYSVIEW.c:738-828 | the invariant of every run: times, losses and gaps agree with the sender's fields |
| SysViewStream.ReadPrefix | deps/segger/SEGGER_SYSVIEW.c:738-828 | more bytes never change the packets already read |
| SysViewStream.SendExactly | deps/segger/SEGGER_SYSVIEW.c:738-828 | what one event adds to the stored packets: a masked one nothing but an overflow packet that was due, any other its own packet if and only if there is room; it is dropped otherwise |
| SysViewStream.EventsAreConserved | deps/segger/SEGGER_SYSVIEW.c:738-828 | over every run the events raised while recording was on and not masked are the stored ones plus the dropped ones |
| SysViewStream.MaskedStayOut | deps/segger/SEGGER_SYSVIEW.c:773-781 | the recording of a run holds no packet whose id was masked all the time |
| SysViewStream.MaskedAfter | deps/segger/SEGGER_SYSVIEW.c:3017-3033 | enabling unmasks exactly the ids of its mask and disabling masks exactly those |
| SysViewStream.BeginExactly | deps/segger/SEGGER_SYSVIEW.c:1777-1790 | a start turns recording on and stores five dummy events, which are ten zero bytes, if and only if there is room |
| SysViewStream.StopExactly | deps/segger/SEGGER_SYSVIEW.c:1832-1841 | a stop raises its event like any other, and afterwards nothing is recorded |
| SysViewCode.U32RoundTrip | deps/segger/SEGGER_SYSVIEW.c:407-418 | a number reads back, whatever follows it |
| SysViewCode.U32Length | deps/segger/SEGGER_SYSVIEW.c:407-418 | a number takes at most k bytes if and only if it is below 128^k |
| SysViewCode.WordLength | deps/segger/SEGGER_SYSVIEW.c:407-418 | a 32-bit number takes at most five bytes |
| SysViewCode.TextRoundTrip | deps/segger/SEGGER_SYSVIEW.c:495-529 | a string reads back if and only if its length is below 65536 |
| SysViewCode.TextFitsLimit | deps/segger/SEGGER_SYSVIEW.c:495-529 | a string cut off at Limit takes at most 1 + Limit bytes if and only if fewer than 255 characters are left or Limit leaves room for the longer length |
| SysViewCode.TextOverLimit | deps/segger/SEGGER_SYSVIEW.c:495-529 | 255 characters and Limit 255 give 258 bytes |
| SysViewCode.ShortRoundTrip | deps/segger/SEGGER_SYSVIEW.c:784-800 | an id or a length in a header reads back if and only if it is below 16384 |
| SysViewCode.ValuesRoundTrip | deps/segger/SEGGER_SYSVIEW.c:1427-1460 | the payload of a predefined event reads back by the shape of its id |
| SysViewCode.PacketRoundTrip | deps/segger/SEGGER_SYSVIEW.c:784-809 | a packet reads back, whatever follows it |
| SysViewCode.DecodeExtends | deps/segger/SEGGER_SYSVIEW.c:784-809 | a packet that has been read stays the same when more bytes arrive |
| SysView.EncodeNumber | deps/segger/SEGGER_SYSVIEW.c:407-418 | the loop through the moving pointer puts down the encoding and touches nothing else |
| SysView.EncodeString | deps/segger/SEGGER_SYSVIEW.c:495-529 | length scan, cut-off, prefix and copy put down the encoding of the cut-off text |
| SysView.PutShort | deps/segger/SEGGER_SYSVIEW.c:784-800 | one header number in front of the packet |
| SysView.Prepend | deps/segger/SEGGER_SYSVIEW.c:784-801 | the header in front of the payload |
| SysView.Finish | deps/segger/SEGGER_SYSVIEW.c:784-809 | header, payload and time difference are the encoding of the packet |
| SysView.MakeOverflow | deps/segger/SEGGER_SYSVIEW.c:633-649 | the eleven-byte buffer holds the encoding of the overflow packet |
| SysView.Recorder.constructor | deps/segger/SEGGER_SYSVIEW.c:1372-1378 | recording is off, nothing is lost, the clock starts now |
| SysView.Recorder.Start | deps/segger/SEGGER_SYSVIEW.c:1777-1790 | recording is on, and the sync packet is stored if and only if there is room; with restart switched off a started recorder stays as it is |
| SysView.Recorder.StoreSync | deps/segger/SEGGER_SYSVIEW.c:1788-1790 | the sync packet enters the ring whole or not at all |
| SysView.Recorder.EnableEvents | deps/segger/SEGGER_SYSVIEW.c:3017-3019 | the bits are cleared, and the run invariant stays |
| SysView.Recorder.DisableEvents | deps/segger/SEGGER_SYSVIEW.c:3031-3033 | the bits are set, and the run invariant stays |
| SysView.Recorder.TrySendOverflow | deps/segger/SEGGER_SYSVIEW.c:633-663 | the notice is stored and recording is on again, or the loss is counted |
| SysView.Recorder.SendPacket | deps/segger/SEGGER_SYSVIEW.c:738-828 | the whole call on buffers and ring, beside a reading host, does what the run model says and keeps the run invariant; the host's bytes only grow |
| SysView.Recorder.Stop | deps/segger/SEGGER_SYSVIEW.c:1832-1841 | the last event is sent and recording is off, keeping the run invariant |
| SysView.Recorder.HostReads | deps/segger/SEGGER_RTT.c:558-631 | a host that reads changes nothing but its own bytes |
| SysView.Recorder.HostSeesTheRun | deps/segger/SEGGER_SYSVIEW.c:738-828 | in every valid state the bytes the host has read are the first packets of the run with their send times, and every gap so far is announced, as long as every event had a payload that suits its id |

## Left out

- Architecture ports, context-switch assembly, interrupt masking and spin locks: critical sections and ticks are atomic steps.
- The other strategies (fixed priority, monotonic, EDF, weighted round robin), weights, priority inheritance and `FindWeightHigherThan`.
- `stk::sync` primitives, memory pools and timer host: the kernel model has the base behaviour of `ISyncObject` only.
- KERNEL_HRT together with KERNEL_SYNC or KERNEL_DYNAMIC, HRT with suppressed ticks, and overrun recovery by a strategy (`OnTaskDeadlineMissed`).
- Static kernels without HRT: the kernel model is the dynamic one.
- Strategies without sleep events; the model notifies the strategy as `SLEEP_EVENT_API` prescribes.
- Stack memory checks, stack initialisation, TrustZone, TLS, MPU, tracing hooks, user callbacks and the kernel's life-cycle flag (`m_kstate`).
- 64-bit wrap-around of the tick counter and overflow of a 32-bit counter by ticks longer than INT32_MAX.
- The mutex that `Wait` releases and takes again, and the spinning of a caller until it is switched out.
- `Suspend` and `Resume` of the whole scheduler beyond the forced yield.
- KernelObject.Kernel.AllocateAndAddNewTask: the second assertion of the scan, that no two tasks share a stack, is not modelled; user tasks have an identity and no stack memory.
- KernelObject.Kernel.OnTick: works on wait lists as sequences; the pointer form of lists and of the timeout walk is in `LinkedList` and `WaitList`.
- RoundRobin.RoundRobinLawful: the strategy is modelled on values, so the cursor is a task and not a pointer into the ring.
- Rtt.Ring.WriteWithOverwrite: excludes two bytes or more into a buffer of one byte, where the source's loop does not end.
- Rtt.Ring.WriteBlocking: the host reads between turns here, any access may fall between any two in `RttStream`; with a host that stops reading, or a buffer of one byte, the source loops for ever.
- SysView.Recorder.Start: the events that the source sends after the sync packet (start, init, system description, time, task list, modules) are ordinary sends of the run and not produced by this member.
- SysViewStream.StreamReadsBack: assumes that events below 24 carry the payload their id announces and that framed ids and lengths are below 16384, beyond which `SysViewCode.ShortRoundTrip` shows that they do not read back; timestamps have 32 bits.
- Post-mortem mode, commands from the host, printf, terminal output, `SEGGER_RTT_GetBytesInBuffer` and down-buffers.
- C bindings, unit conversions, stack watermarks and configuration macros: only easy members.
