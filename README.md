# NachOS process scheduler — a Dafny model

This project models the scheduler of a NachOS teaching kernel (the
`ProcessScheduler` of `threads/scheduler.cc`): the ready list, the policy
selector `type`, the current thread, the deferred-destruction slot
`threadToBeDestroyed`, and the per-thread tables the scheduler shares with the
rest of the kernel (`threadArray`, `threadStatusPid`, `exitThreadArray`,
`priorityValue`, bounded by `thread_index`). It proves what each operation does
to that state, and what the selection policies and the dispatch protocol
guarantee.

Modules, one file each:

- `ThreadTable` (`thread_table.dfy`): thread ids (a PID is also the thread's
  slot in the shared arrays), the run status, and the fields of a thread object
  that the scheduler touches (`Entry_Time_Ready_Queue`, `Thread_Start_Time`,
  `Start_Sleep`, `Total_Sleep`, `Estimated_CPU_Burst`, status, PID).
- `Bookkeeping` (`bookkeeping.dfy`): `MarkReady`, the record after a ready
  transition, with the start-time stamp, the sleep accounting and the
  entry-time stamp; lemmas on single transitions and on runs of block/ready
  cycles.
- `ReadyPolicy` (`ready_policy.dfy`): the FIFO pop (`PopHead`) and the linear
  scan as a pure function of what it reads (`ScanTo`, one `ScanStep` per loop
  iteration), with an independent reference definition of the result (`IsBest`:
  least eligible thread by metric, then entry time, then PID) and the lemmas
  tying the two together.
- `Dispatching` (`dispatching.dfy`): the dispatch state (current thread, slot,
  and a ghost trace of `Switched`/`Destroyed` events), `SwitchTo` (the part of
  `ScheduleThread` up to and including `_SWITCH`), `Reap` (the part after it,
  which is also all of `Tail`) and the ordering invariant "a thread is
  destroyed only right after the switch away from it".
- `Scheduling` (`scheduler.dfy`): the class `ProcessScheduler`, whose methods
  do what the C++ methods do, step by step, on the class fields and arrays, and
  whose postconditions tie the new state to the functions above.

Decisions worth knowing:

- The status mirror. The scans read `threadStatusPid`, but no code in
  `threads/scheduler.cc` or `userprog/progtest.cc` writes it; the scheduler
  changes a thread's status only through the thread's `setStatus`, which is
  declared in the thread class and is not part of this model. The model
  assumes that `setStatus` writes both the thread's own status and
  `threadStatusPid` at the thread's PID; `SetStatus` does exactly that and
  `Valid()` states that the two agree for every created thread.
- The sentinel read. Both scans start from a minimum of `1<<16` and a selected
  index of -1. An eligible thread whose metric is exactly 2^16, met before any
  thread with a smaller metric, takes the "equal" branch and compares its entry
  time with that of `threadArray[-1]`, an out-of-bounds read. The model does
  not fix this: it returns `SentinelFault` for that case, and `PickMeaning`
  states precisely when it happens. Threads whose metric is above 2^16 are
  never chosen.
- The scan branches do not have the side effect promised in the header
  comment of `SelectNextReadyThread` (threads/scheduler.cc:80-81, the chosen
  thread "is removed from the ready list"), and the model follows the code:
  they do not remove the chosen thread from anything (it
  stays on the ready list and READY until `ScheduleThread` marks it RUNNING,
  after which no scan picks it — `NotReadyNeverPicked`), and since
  `MoveThreadToReadyQueue` appends under every policy, the ready list only
  grows under them. A tie on metric and entry time goes to the lower PID.
- Entry time 0 is the "never been ready" marker. A thread other than PID 0
  first made ready at tick 0 gets its start time stamped again on its next
  ready transition (`StartTimeRestampedAfterTickZero`).
- `stats->totalTicks` is the parameter `now`. The thread table is passed to the
  constructor, which otherwise does what the source's does (empty ready list,
  `type = 1`). The constructor shown does not touch `threadToBeDestroyed`, a
  global initialised by code that is not part of this model; the model assumes
  it holds no thread when the scheduler is created.

## Model

| member | source | states |
|---|---|---|
| `Scheduling.ProcessScheduler.constructor` | threads/scheduler.cc:30-34 | a new scheduler has an empty ready list, policy type 1 (FIFO), an empty slot, and the given thread table |
| `Scheduling.ProcessScheduler.SetStatus` | threads/scheduler.cc:72 | setting a thread's status sets its record's status and its `threadStatusPid` entry and changes no other thread |
| `Scheduling.ProcessScheduler.MoveThreadToReadyQueue` | threads/scheduler.cc:55-74 | the thread's record becomes `MarkReady(old record, now)`, it is READY in the status table, it is appended at the tail of the ready list, and no other thread's record or status changes |
| `Bookkeeping.MarkReady` | threads/scheduler.cc:59-72 | the record after a ready transition at `now`: READY, entry time `now`, PID and burst kept, and total sleep does not shrink unless a BLOCKED thread's sleep start lies after `now` |
| `Bookkeeping.MarkReadyEffect` | threads/scheduler.cc:59-72 | a ready transition makes the thread READY with entry time `now`; it changes the start time only on the first transition of a non-zero PID, and then to `now`; it adds `now - Start_Sleep` to the total sleep exactly when the thread was BLOCKED; PID, sleep start and burst are kept |
| `Bookkeeping.StartTimeStampedOnce` | threads/scheduler.cc:61-68 | once a thread has been made ready at a non-zero tick, a later ready transition keeps its start time |
| `Bookkeeping.StartTimeRestampedAfterTickZero` | threads/scheduler.cc:61-68 | a thread of non-zero PID first made ready at tick 0 has its start time set again by its next ready transition |
| `Bookkeeping.SleepAccumulates` | threads/scheduler.cc:69-70 | after any run of block/ready cycles the total sleep has grown by exactly the sum of the blocked intervals, and the thread is READY with the last wake-up tick as entry time |
| `Bookkeeping.SleepScenario` | threads/scheduler.cc:69-70 | blocked at tick 10 and made ready at tick 25 adds 15 ticks of sleep |
| `Scheduling.ProcessScheduler.SelectNextReadyThread` | threads/scheduler.cc:85-227 | type 2 returns the burst scan's result and type 7..10 the priority scan's, both leaving the ready list (and, by its frame, all tables) unchanged, and a chosen thread being the least eligible one by metric, entry time and PID; any other type removes and returns the head of the ready list, or no thread when it is empty |
| `Scheduling.ProcessScheduler.ScanReadyThreads` | threads/scheduler.cc:88-119 | the scan loop (the burst loop here, the priority loop at lines 168-198 with `priorityValue`) changes nothing and returns `Verdict(ScanTo(...))`; a chosen thread is the least eligible one by metric, entry time and PID, and is READY and not exited; the fault is returned exactly when some slot faults |
| `ReadyPolicy.ScanStep` | threads/scheduler.cc:98-113 | one loop iteration: a fault stays a fault; it faults only on an eligible slot whose metric equals the running minimum while nothing is selected; a changed selection is the current slot, eligible, with its metric as new minimum; the minimum never grows |
| `ReadyPolicy.Verdict` | threads/scheduler.cc:116-119 | the fault exactly for a loop that read `threadArray[-1]`, NULL exactly when the selected index is still -1, otherwise the selected thread |
| `ReadyPolicy.ScanTo` | threads/scheduler.cc:94-114 | the loop's selected index is always -1 or a slot already visited |
| `ReadyPolicy.ScanToMeaning` | threads/scheduler.cc:96-114 | after n slots the loop has faulted exactly when some slot faulted; with no selection, no slot was a candidate and the minimum is still 2^16; otherwise the selection is the least candidate so far and the minimum its metric |
| `ReadyPolicy.FaultPersists` | threads/scheduler.cc:105-107 | once the loop has compared against `threadArray[-1]`, the scan's outcome is that fault |
| `ReadyPolicy.BestIsUnique` | threads/scheduler.cc:100-111 | the least candidate by metric, entry time and PID is unique |
| `ReadyPolicy.PickMeaning` | threads/scheduler.cc:116-119 | a scan returns the fault exactly when some slot faults, no thread exactly when there is no fault and no eligible thread with metric below 2^16, and thread i exactly when there is no fault and i is the least candidate |
| `ReadyPolicy.NoFaultBelowSentinel` | threads/scheduler.cc:173-198 | when every metric is below 2^16 the scan never faults and returns no thread exactly when no slot is eligible |
| `ReadyPolicy.NotReadyNeverPicked` | threads/scheduler.cc:177 | a thread that is exited or not READY in the status table is never chosen |
| `ReadyPolicy.BurstScenario` | threads/scheduler.cc:88-119 | bursts 5, 3, 3 made ready at ticks 0, 1, 2 are chosen in the order B, C, A, each chosen thread being RUNNING (then B blocked) when the next scan runs |
| `ReadyPolicy.PopHead` | threads/scheduler.cc:226 | `List::Remove`: no thread exactly on an empty list, otherwise the head, with the returned thread followed by the remaining list giving back the old list |
| `ReadyPolicy.AppendAllIsConcat` | threads/scheduler.cc:73 | successive appends leave the ready list ending with the appended threads in arrival order |
| `ReadyPolicy.PopManyTakesPrefix` | threads/scheduler.cc:226 | k FIFO selections return the first k threads of the list in order and leave the rest |
| `ReadyPolicy.FifoInsertionOrder` | threads/scheduler.cc:226 | N threads appended to an empty list come back from N FIFO selections in insertion order, then the list is empty and the next selection finds no thread |
| `ReadyPolicy.PopRemovesChosen` | threads/scheduler.cc:226 | a FIFO selection finds no thread exactly on an empty list; otherwise the returned thread was the head and is no longer on a duplicate-free list |
| `Scheduling.FifoScenario` | threads/scheduler.cc:54-227 | under type 1, three threads made ready one after another are selected in that order, and a fourth selection finds no thread |
| `Scheduling.ProcessScheduler.ScheduleThread` | threads/scheduler.cc:244-288 | the dispatch state becomes `Reap(SwitchTo(old, next))`: next is current, the switch from the old thread is recorded, and only after it is a pending thread destroyed and the slot emptied; next is RUNNING in its record and the status table, no other thread changes |
| `Scheduling.ProcessScheduler.Tail` | threads/scheduler.cc:297-314 | the dispatch state becomes `Reap(old)`, the same function ScheduleThread applies after the switch |
| `Dispatching.SwitchTo` | threads/scheduler.cc:246-269 | `next` becomes current, the slot is untouched, and exactly one event, the switch from the old current thread to `next`, is added to the history |
| `Dispatching.Reap` | threads/scheduler.cc:277-280 | the slot is empty afterwards and the current thread unchanged; the history is extended only when a thread was pending, and then ends with that thread's destruction (the same code is at lines 303-306 in `Tail`) |
| `Dispatching.SwitchReachesPostSwitch` | threads/scheduler.cc:258-269 | from a settled state, switching to a thread other than the pending one leaves the pending thread as the one switched away from, no longer current |
| `Dispatching.ReapSettles` | threads/scheduler.cc:273-280 | right after a switch, the post-switch code empties the slot, destroys only the thread just switched away from (never the current one) and keeps destruction ordered after switches |
| `Dispatching.ScheduleSettles` | threads/scheduler.cc:246-280 | a whole dispatch from a settled state makes next current with an empty slot, and records the switch followed, never preceded, by the pending thread's destruction |
| `Dispatching.ReapIdempotent` | threads/scheduler.cc:303-306 | running the post-switch code again changes nothing and the slot is empty |
| `Scheduling.FinishScenario` | threads/scheduler.cc:273-280 | a finishing thread that records itself and dispatches another is destroyed right after the switch away from it, and the dispatched thread cannot be chosen again by a scan |

## Left out

- `userprog/progtest.cc` is not part of this model: it is file-system and console I/O, address-space loading and start-up of user programs. The policy selector and the priority values it seeds are inputs here (the `schedType` field and the `priorityValue` array).
- The destructor `~ProcessScheduler` (threads/scheduler.cc:41-44): it only frees the list; there is no memory model.
- `_SWITCH` (threads/scheduler.cc:269) is the machine-dependent context transfer; it is an abstract step that records a `Switched` event.
- `delete threadToBeDestroyed` is recorded as a `Destroyed` event; the memory itself is not modelled.
- `CheckOverflow`, `SaveUserState`/`RestoreUserState` and the address space's `SaveContextOnSwitch`/`RestoreContextOnSwitch` (threads/scheduler.cc:249-255, 283-286, 309-312): hardware and address-space collaborators whose code is not part of this model.
- Scheduling.ProcessScheduler.ScheduleThread: does not model the fatal stack-overflow check on the outgoing thread, since its code is not part of this model.
- `DEBUG` output and `Print` (threads/scheduler.cc:57, 261, 271, 322-326): diagnostic output only.
- The commented-out list scans (threads/scheduler.cc:121-165, 199-222): dead code.
- Interrupt disabling and mutual exclusion: every operation runs to completion on a uniprocessor, so the methods are plain sequential methods.
- `setStatus` is taken to update `threadStatusPid` at the thread's PID (see above); the thread class and the code that creates threads, sets `exitThreadArray` and advances `thread_index` are not part of this model.
- Scheduling.ProcessScheduler.MoveThreadToReadyQueue: integers are unbounded, so the 32-bit C `int` overflow of `Total_Sleep + currenttime - Start_Sleep` is not modelled.
- The run-status enumeration is declared in the thread class; the model uses NachOS's four values.
