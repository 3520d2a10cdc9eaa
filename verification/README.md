# Verified models of the cooperative runtimes

The repository holds small cooperative runtimes for microcontrollers: a loop that
runs queued tasks and timers, an interrupt-safe ring queue, an object pool, a
mailbox between main loop and interrupt handlers with a DMX512 receiver on top, a
prioritized task service with re-entrant yield, a phase-driven state machine, and a
table-driven CRC-8. This project models them in Dafny and proves what they are for.

Code that changes state in place is modelled by classes and arrays (`Ring`,
`ObjectPool`, `TaskRunner`, `TimerRunner`, `SetRun`, `Target`, `ReturnQueue`,
`DmxReceiver`, `Service`, `Machine`, `Crc`). Each of their methods is proved to
compute a function of the old state, and the theorems are proved about those
functions, or about the history of events that the methods may add to.

How the parts hang together:

- `GenQ`, `LinkNode`, `GenPool`: ring, linked stack and pool. An object pointer is a
  cell number; byte addresses remain only where `getPoolId` divides them.
- `RingSteps`: the ring again, as atomic accesses to its two indices and single bytes
  of its slots, under every interleaving of one producer and one consumer. It refines
  a bounded FIFO.
- `TaskModel`, `TimerModel`: what the task half and the timer half of the main loop do
  to their pools, queues and lists. Every submission and every timer has a serial
  number, and a log records every call. The invariants `TaskInv` and `TimerInv` say
  that each live holder is in one place only, that it is aimed at the tick at which it
  is due, and that the log so far is the one promised.
- `LoopModel`, `LoopTheorems`, `LoopMoments`, `LoopTrace`: passes of `User_Loop` for an
  arbitrary user program. An `Oracle` says, for each invocation of user code, which public
  calls it makes and what it answers; the theorems hold for all oracles and all numbers of
  passes, so also long after the 32-bit tick has wrapped. `LoopTrace` records every
  invocation with the answers to its calls, and says what became of each call.
- `TaskRunner`, `TimerRunner`, `SetRun`: the same in place, with rings, chained nodes
  and the pool. `SetRun.Valid` includes that both internal error counters are zero, and
  every asserted `taskQ_put` is shown to succeed.
- `IsrComm`, `IsrReturn`: the mailbox with its two rings, and the general return queue.
  `MailboxSteps` has the mailbox again with interrupts between any two accesses to its
  rings.
- `Dmx`, `DmxReceiver`: the receiver, block by block as coded. `DmxTurns` says from any
  state which slots each device takes, and `DmxTheorems` compares that with an
  independent account (`Entitled`) of which bytes of a stream belong to which device.
  `DmxTraffic`, `DmxFrames` and `DmxLate` let the user work on the mailboxes between the
  chunks: conservation, delivery, and buffers that come too late.
- `TaskService`: calls, returns, signals and yields form a history; `Legal` says what
  may come next, the call stack is read off the history, and so is what each task did at
  its own depth (`Did`).
- `PhaseMachine`: INIT, RUN, TIMEOUT and EXIT calls form a history in the same way; the
  machine's fields keep a summary of it. `True` says that a history is true of the world:
  each call answers, and then acts, as user code does next, and each time is the next
  reading of the time base.
- `Crc8`: bit-by-bit polynomial division, its algebra, that it is the remainder of a
  division of polynomials, and the table that replaces it.

## Where the code differs from what is said of it

- A one-shot delay of 2^31 or more fires at once instead of after the delay.
  `LoopTheorems.OneShotFiresOnce` (by `TimerModel.FiredOnce`) has the exact condition.
- A pool of 2^18 bytes or more loses track of its later objects.
  `GenPool.IdRecovered` is an if-and-only-if.
- The signal counter of a task is 16 bits wide and the "saturating" increment wraps.
  `TaskService.NoLostWakeup` is an if-and-only-if, and `TaskService.WakeupLostAtWrap` a
  run in which the scheduler returns although a signalled task was never called.
- An even CRC generator misses a one-byte error. `Crc8.BurstsSeenIffOdd` is an
  if-and-only-if.
- A DMX device that gets its buffer only in the middle of its window fills it with the
  slots from there on, and goes on to do so beyond its window's end within a chunk. So it
  may hand back slots that are not its own, and take the slots of devices behind it,
  depending on how the stream is cut. `DmxLate.HarmlessIffNotStraddled` and
  `DmxLate.CalmExact` are if-and-only-ifs: all is well unless a chunk straddles the end
  of such a device's window. `DmxLate.WrongHandBack` is a run in which it is not.
- Pushing a node that is already on a stack closes a loop; `LinkNode.PushEndsIffNew` is an
  if-and-only-if. The main loop never does it.
- The phase machine reports SM_ERR for a pass whose switch failed even if the error was
  processed successfully, when switches come first; and arrival at the target state hides
  an SM_ERR from INIT altogether. Both are in the contracts.

## Model

| member | source | states |
|---|---|---|
| LoopTheorems.HoldersAreConserved | src/set_run_isr.c:36-64 | for every user program and number of passes, the collecting queue holds each live task holder exactly once, the two timer lists together hold each live timer node exactly once, and neither population exceeds its pool |
| LoopMoments.HoldersAreAlwaysConserved | src/set_run_isr.c:36-243 | also in the midst of a pass: whenever user code gets control, and whatever calls it has made then, each live task holder is in one queue or the one running, and each live node on one list or the one in hand, exactly once |
| LoopTheorems.TimersFireOnTime | src/set_run_isr.c:151-243 | the k-th timer ever set has fired at exactly its promised ticks that have passed, with its own callback, across the wrap of time_tick, and it owns a node exactly while it is not over |
| LoopTheorems.OneShotFiresOnce | src/set_run_isr.c:151-217 | a one-shot timer on record as set at tick t with delay d fires exactly once, with its callback; at t+d+1 if and only if d < 2^31, or d is 2^31 and this tick's walk had begun; LoopTrace.TimersFireAsAsked has it from the call |
| LoopTheorems.PeriodicKeepsPace | src/set_run_isr.c:171-196 | the i-th firing is at t+i(p+1) for interval p > 0 and at t+ip+1 for interval -p; no beat is skipped and the first Status_Interrupt is the last firing |
| LoopTheorems.TasksRunEveryTick | src/set_run_isr.c:67-149 | the k-th task submitted has run once in every drain since, until its first answer other than OK, and owns a holder exactly until then |
| LoopTheorems.OnceRunsOnce | src/set_run_isr.c:90-110 | a submission on record as once runs exactly once, in the drain that follows it; LoopTrace.TasksRunAsAsked has it from the call |
| LoopTheorems.DrainRunsWhatWaited | src/set_run_isr.c:112-149 | Run_Tasks runs exactly the tasks waiting at entry, once each and in FIFO order; survivors queue up again in that order, and tasks submitted meanwhile are not run |
| LoopTrace.EveryInvocationOnRecord | src/set_run_isr.c:36-47 | for every user program and number of passes: user code is invoked as number 0, 1, 2 and so on; each pass begins with ProcessUser, once at each tick, then come the release callbacks, the timers and the tasks; each invocation makes all its calls in order and answers as the program says; each call had its exact effect one by one from a sound state with the record so far; and the submissions and timers that exist are just those whose call was answered OK |
| LoopTrace.RunsUntilStopped | src/set_run_isr.c:36-47 | the loop ends before its bound only if some invocation called for it, and every such call was in the last pass |
| LoopTrace.TasksRunAsAsked | src/set_run_isr.c:67-149 | a callback handed to Run_Task by any invocation and answered OK is called in every drain from the next on until its first answer other than OK; one handed to Run_Task_Once is called once, in the next drain |
| LoopTrace.TimersFireAsAsked | src/set_run_isr.c:151-243 | Run_Later(cb, d) called at tick t by any invocation and answered OK has cb called at t+d+1 and at no other tick, for d < 2^31; beyond that at the next walk, unless d is 2^31 and this tick's walk had begun; Run_Periodically(cb, p) has it called at t+i(p+1), or t+ip+1 for interval -p, for every i up to its first Status_Interrupt |
| LoopTrace.NobodyElseIsCalled | src/set_run_isr.c:112-243 | every callback ever called is one that was submitted or armed, under its own number |
| LoopTrace.CallExact | src/set_run_isr.c:67-175 | what each public call answers and changes, from every state |
| TaskModel.SubmitKeeps | src/set_run_isr.c:67-110 | a submission keeps the invariant and disturbs no other holder; it answers Param, FULL or OK exactly when the callback is null, the pool is exhausted, or neither |
| TaskModel.SubmitExact | src/set_run_isr.c:67-110 | on OK exactly one submission is added, with the caller's callback, once as asked, of this tick and moment, and a free holder carries it at the end of the collecting queue, with requeue_task exactly if it is to repeat; on Param or FULL nothing changes |
| TaskModel.RoomInQueues | src/set_run_isr.c:54-57 | pigeonhole: both queues and the running holder together are as many as the live holders, hence never more than a queue's capacity |
| TaskModel.SubmitHasRoom | src/set_run_isr.c:75-98 | whenever a holder can be allocated the collecting queue has room for it, so neither asserted put can fail |
| TaskModel.FinishKeeps | src/set_run_isr.c:123-148 | after any callback the finished holder is requeued if it answered OK and was not submitted once, else freed; the invariant holds and the rest of the draining queue is as it was |
| TaskModel.CallsKeep | src/set_run_isr.c:67-110 | any sequence of calls from user code keeps the invariant |
| TimerModel.SteadyExpiry | src/set_run_isr.c:217 | the wrapped 32-bit comparison says "expired" exactly at the due tick, for every deadline that the loop has not yet passed |
| TimerModel.ExpiredIffDue | src/set_run_isr.c:213-237 | hence a node met on the walk is called exactly when it is due |
| TimerModel.ArmAims | src/set_run_isr.c:151-163 | a timer armed before or during the walk is aimed at its first promised tick |
| TimerModel.RetriggerAims | src/set_run_isr.c:179-196 | a repeating timer fired on time gets a wrapped deadline that expires exactly at its next promised tick |
| TimerModel.ArmKeeps | src/set_run_isr.c:151-163 | arming keeps the invariant and disturbs no other timer; FULL exactly when no node is free |
| TimerModel.ArmExact | src/set_run_isr.c:151-163 | on OK exactly one timer is added, with the caller's callback, delay and interval, of this tick and moment, and a free node carries it in front of the new arrivals, its deadline delay plus tick in 32 bits; on FULL nothing changes |
| TimerModel.FinishKeeps | src/set_run_isr.c:219-231 | after any callback the fired node is re-armed or freed, the invariant holds and the rest of the walk is as it was |
| TimerModel.RoomInLists | src/set_run_isr.c:24-25 | all lists together hold as many nodes as are live |
| LoopModel.TimerTurnKeeps | src/set_run_isr.c:213-238 | every turn of the walk shortens timeQ by one whatever the callback arms, so Do_Later terminates |
| LoopModel.TaskTurnFacts | src/set_run_isr.c:118-131 | every turn of the drain shortens the draining queue by one whatever the task submits, so Run_Tasks terminates |
| TaskRunner.TaskRunner.RunTask | src/set_run_isr.c:67-88 | in place as the model says, and outright: Param, FULL or one submission with this callback, to be repeated, in a free holder at the end of the collecting queue |
| TaskRunner.TaskRunner.RunTaskOnce | src/set_run_isr.c:90-110 | the same with one submission that is to run once, without requeue callback |
| TaskRunner.TaskRunner.RequeueTask | src/set_run_isr.c:136-149 | a holder joins the collecting queue and its release is cancelled, or if the queue is full it is counted as dropped; a null context changes nothing |
| TaskRunner.TaskRunner.GiveBack | src/set_run_isr.c:130 | release with re-queueing inside the release callback does what the model says and never counts an error |
| TimerRunner.TimerRunner.SetFutureCb | src/set_run_isr.c:151-163 | in place as the model says, and outright: FULL, or one timer with this callback, delay and interval in a free node with the wrapped deadline, pushed on addedTimeQ |
| TimerRunner.TimerRunner.Splice | src/set_run_isr.c:205-211 | the new arrivals end up on the main stack, reversed, with no node lost or shared |
| TimerRunner.TimerRunner.RetriggerTimer | src/set_run_isr.c:179-196 | next deadline from now for a positive, from the last deadline for a negative interval; Interrupt exactly for repeating timers |
| TimerRunner.TimerRunner.GiveBack | src/set_run_isr.c:230 | release with re-arming inside the release callback does what the model says and never counts an error |
| SetRun.SetRun.DoLater | src/set_run_isr.c:199-243 | the whole timer walk in place equals the model's |
| SetRun.SetRun.RunTasks | src/set_run_isr.c:112-132 | the whole drain in place equals the model's |
| SetRun.SetRun.UserLoop | src/set_run_isr.c:36-47 | the loop in place equals the model's run, whose invocations, calls and answers LoopTrace accounts for; both internal error counters are zero |
| LinkNode.StackPop | src/linkNode.c:13-21 | takes the first node of a chain, null from an empty one |
| LinkNode.StackPush | src/linkNode.c:23-35 | links any node in front of any head; of a chain that does not hold it yet, this makes the longer chain |
| LinkNode.PushEndsIffNew | src/linkNode.c:23-35 | after a push the links still end in null if and only if the node was not on the chain before |
| LinkNode.ChainAcyclic | src/linkNode.c:13-35 | a chain never meets a node twice |
| LinkNode.ChainFrame | src/linkNode.c:23-35 | relinking a node outside a chain leaves the chain intact |
| GenPool.ScanMeaning | src/genPool.c:91-112 | the wrapping scan stops at the first free cell from the hint on, and fails only if it has seen every cell taken |
| GenPool.PickFindsFree | src/genPool.c:89-123 | allocation succeeds if and only if some cell is free, and delivers a free one |
| GenPool.IdRecovered | src/genPool.c:46-63 | pool and index are recovered from the stored 16-bit words if and only if the cell starts below 2^18 bytes |
| GenPool.ApplyKeeps | src/genPool.c:27-182 | every operation keeps the pool well formed and moves the number of live objects by just what it answered |
| GenPool.ApplyAllKeeps | src/genPool.c:27-182 | so does every sequence of operations: the live count is the sum of the single moves, and never more than the pool |
| GenPool.DoubleRelease | src/genPool.c:126-156 | the second of two releases of one object, with any operations but allocations between, answers Unexpected and changes nothing, unless the first was cancelled |
| GenPool.ObjectPool.IsObject | src/genPool.c:46-63 | on the pool's own cells the address arithmetic answers exactly for live objects |
| GenPool.ObjectPool.AllocateWithCallback | src/genPool.c:89-123 | the scanning loop terminates; the first free cell round from the hint becomes live with this callback and nothing else changes, or none exactly if all are live |
| GenPool.ObjectPool.Return | src/genPool.c:126-156 | on a free cell changes nothing and answers Unexpected; a live object whose callback answers Interrupt stays with its hook and OK is answered; any other is freed alone, the hint moves to it, and the answer is its callback's, or OK without one |
| GenPool.ObjectPool.ExtractCallback | src/genPool.c:159-169 | hands out and disables the callback of a live object, and nothing else |
| GenPool.ObjectPool.SetReturnCallback | src/genPool.c:172-182 | replaces the callback of a live object by the one given, or disables it, and nothing else; on a free cell Unexpected and nothing changes |
| GenPool.ObjectPool.Reset | src/genPool.c:27-42 | everything is free again and the search starts at the first cell |
| GenPool.ObjectPool.CheckStatus | src/genPool.c:187-226 | a pool used only through its operations is reported OK, with total minus live objects available |
| GenQ.Ring.Init | src/genQ.c:25-34 | refuses fewer than two slots; otherwise an empty ring of one slot less |
| GenQ.Ring.Put | src/genQ.c:43-51 | appends, or answers FULL exactly at capacity |
| GenQ.Ring.Get | src/genQ.c:54-61 | takes the oldest, or answers EMPTY exactly when there is none |
| GenQ.Ring.Reset | src/genQ.c:36-39 | empties the ring |
| GenQ.Ring.HasData | src/genQ.c:63-66 | true exactly when the ring is not empty |
| GenQ.Ring.HasSpace | src/genQ.c:68-71 | true exactly below capacity |
| RingSteps.SlotsApart | src/genQ.c:41-61 | the slot being written is neither the one being read nor any that still holds an object |
| RingSteps.StepRefinesFifo | src/genQ.c:43-61 | every single access is a step of a bounded FIFO of N-1 places; FULL and EMPTY are answered exactly when the FIFO is so at that moment |
| RingSteps.EverySchedule | src/genQ.c:43-61 | under every interleaving the consumed sequence is a prefix of the produced one, at most N-1 objects are held, and the two sides are never at one slot |
| RingSteps.SidesKeepTheirIndex | src/genQ.c:29-30 | the source never changes last, the consumer never changes next or a slot |
| RingSteps.PutCompletes | src/genQ.c:43-51 | wherever the consumer stands still, a Put by itself finishes and enqueues exactly if there is room |
| RingSteps.GetCompletes | src/genQ.c:54-61 | wherever the producer stands still, a Get by itself finishes and takes the oldest object |
| IsrComm.RoomForHeld | src/isr_comm.c:28-38 | pigeonhole: while somebody holds an object both rings have room |
| IsrComm.SendKeeps | src/isr_comm.c:110-117 | sending an object one holds always succeeds and conserves objects |
| IsrComm.DequeueKeeps | src/isr_comm.c:54-61 | dequeueing in the handler conserves objects |
| IsrComm.ReceiveKeeps | src/isr_comm.c:119-126 | receiving in the main loop conserves objects |
| IsrComm.PoolReturnKeeps | src/isr_comm_generators.h:82-83 | releasing an object one holds conserves objects and answers what its callback says, or OK without one or if it keeps the object |
| IsrComm.Target.AllocateObject | src/isr_comm_generators.h:72-73 | in place: the user gets a free object, or none exactly if all are live |
| IsrComm.Target.SendToIsr | src/isr_comm.c:103-117 | in place: an object in the user's hands always finds room in toIsrQ |
| IsrComm.Target.DequeueInIsr | src/isr_comm.c:54-61 | in place: the handler gets the oldest object sent, or EMPTY |
| IsrComm.Target.ReceiveFromIsr | src/isr_comm.c:119-126 | in place: the user gets the oldest object handed back, or EMPTY |
| IsrComm.Target.PoolReturnObject | src/isr_comm_generators.h:82-83 | in place: the object is released as its callback says |
| IsrComm.Target.Reset | src/isr_comm.c:68-84 | in place, with a return queue: both rings empty, nothing live |
| MailboxSteps.NeverFull | src/isr_comm.c:28-117 | at the very access that compares the indices, whoever puts an object into toIsrQ or fromIsrQ finds room, whatever the other side is in the midst of |
| MailboxSteps.ConservedAtEveryAccess | src/isr_comm.c:28-126 | under every interleaving of single accesses to both rings each live object is on one ring or in one hand, exactly once, and no put ever finds a ring full |
| MailboxSteps.PutArrives | src/isr_comm.c:28-117 | wherever the other side stands, a whole send or hand-over moves the object from the hand to the end of its ring, and nothing else |
| MailboxSteps.GetArrives | src/isr_comm.c:54-126 | likewise a whole dequeue or receive moves the oldest object of its ring into the hand |
| IsrComm.Target.ReturnPoolObjectToProcess | src/isr_comm.c:12-38 | into fromIsrQ, else counted and into isrRetQ, else counted and back into the pool with its callback disabled |
| IsrComm.Target.ReturnToUserProcess | src/isr_comm.c:41-52 | a held object goes onto fromIsrQ, and droppedFrom does not move |
| IsrReturn.HandBackKeeps | src/isr_comm.c:12-23 | an object handed back is queued or, if the queue is full, free again; either way none is lost |
| IsrReturn.ReleaseAllFrees | src/isr_comm.c:87-100 | one pass frees exactly the queued objects that their own callbacks do not keep, touches no other, and counts just the callbacks that complain |
| IsrReturn.NothingLeaks | src/isr_comm.c:87-100 | if nobody holds anything and no callback keeps anything, all pools are empty after one pass |
| IsrReturn.ReturnQueue.ReturnPoolObject | src/isr_comm.c:12-23 | the hand-over in place, with the drop counter |
| IsrReturn.ReturnQueue.ProcessReturnPoolObjects | src/isr_comm.c:87-100 | the draining loop in place, with the error counter |
| DmxTurns.FeedIsTurns | src/rs485_dmx.c:85-114 | from any state of the devices, the device loop gives each device exactly one turn or none, beginning at the slot up to which those before it have taken the bytes, or at its window, and advances the slot counter by the length of the chunk |
| DmxTurns.FeedServes | src/rs485_dmx.c:85-114 | hence devices that are in step get exactly what their windows entitle them to, whatever buffers the others have |
| Dmx.EntitledComposes | src/rs485_dmx.c:15-46 | what one device gets from two chunks in turn is what it gets from both together, whether it holds a buffer, waits for one or goes without |
| DmxTheorems.UseServes | src/rs485_dmx.c:59-120 | DMX_use_raw_data gives every device what it is entitled to, whatever buffers the others have; a wrong start code changes no device |
| DmxTheorems.ChunksCompose | src/rs485_dmx.c:59-120 | feeding a, then b, equals feeding a+b: devices, buffers, returned sequence and slot counter |
| DmxTheorems.AnyChunking | src/rs485_dmx.c:59-120 | however a stream is cut into chunks, the outcome is that of the stream |
| DmxTheorems.FrameDelivered | src/rs485_dmx.c:59-141 | after a break, for every chunking: each device with a buffer returns exactly its slots of the frame, once, if and only if the frame is long enough, and otherwise keeps the buffer; a wrong start code delivers nothing |
| DmxFrames.FrameDeliveredAmidCalls | src/rs485_dmx.c:15-141 | the same with any mailbox calls between the chunks, also such as bring a device its buffer too late: a device that had a buffer when its first slot came, and was given that slot, hands back one buffer with exactly its slots once the frame is long enough and not before; any other hands back nothing, or once other slots if it has taken one past its window |
| DmxLate.LateExact | src/rs485_dmx.c:32-45 | what becomes of a late buffer over the rest of the frame: a slot past the window is taken if and only if some chunk straddles the window's end; the buffer is handed back if and only if some chunk that begins in the window reaches as many slots after the buffer's first as fill it, and it holds those |
| DmxLate.HarmlessIffNotStraddled | src/rs485_dmx.c:32-45 | a device with a late buffer hands nothing back and takes no slot past its window if and only if no later chunk straddles the window's end |
| DmxLate.NeighbourShifted | src/rs485_dmx.c:85-114 | the device behind a late one loses its first slot if and only if that slot comes before the chunk's end and before the late buffer is full |
| DmxLate.CalmExact | src/rs485_dmx.c:15-141 | from a break on, no device takes a slot past its window if and only if no chunk straddles the end of a late device's window; then every device punctual with its buffer hands back exactly its window and every other nothing |
| DmxLate.WrongHandBack | src/rs485_dmx.c:15-141 | a run from a break, with one buffer sent in mid-window, that ends with slots 2 and 3 handed back for 1 and 2, and with a punctual device left with its buffer |
| DmxTraffic.WrongStartIgnored | src/rs485_dmx.c:75-80 | from a wrong start code until the next break no bytes fetch, fill or hand back a buffer, whatever the user does meanwhile |
| DmxTraffic.BuffersAreConserved | src/rs485_dmx.c:15-141 | over every sequence of chunks, breaks, resets and mailbox calls each live buffer is in exactly one place, and a held one always finds room in fromIsrQ |
| DmxTraffic.CallExact | src/isr_comm_generators.h:72-83 | what each mailbox call between the chunks does to its device, and that it touches nothing else |
| DmxReceiver.DmxReceiver.AddToDevice | src/rs485_dmx.c:15-46 | byte by byte in place: fetches, fills and returns the buffer as specified, and reports how many bytes were used |
| DmxReceiver.DmxReceiver.UseRawData | src/rs485_dmx.c:59-120 | in place, with int16 slot counter, equals the specification for every input |
| DmxReceiver.DmxReceiver.ProcessBreak | src/rs485_dmx.c:128-141 | slot counter zero, every device rewound and given a buffer if one waits |
| DmxReceiver.DmxReceiver.Reset | src/rs485_dmx.c:143-151 | device by device: no buffer is held, both queues are empty, and no buffer is live in anybody's hands |
| TaskService.LegalIsNested | src/taskServiceClass.c:145-167 | in every legal history task numbers strictly decrease inward on the call stack and all but the innermost task are yielding |
| TaskService.NestingBounded | src/taskServiceClass.c:120-133 | hence no task is re-entered and the nesting is at most the number of tasks |
| TaskService.EveryBeginIsPriority | src/taskServiceClass.c:154-165 | every task called anywhere is the lowest-numbered waiting one and lies below every task on the stack |
| TaskService.OwedCounts | src/taskServiceClass.c:86-117 | a task's counter stands for the signals since it last began or tested itself |
| TaskService.NoLostWakeup | src/taskServiceClass.c:145-167 | when nothing below the ceiling waits, every signal of a task below it has since been seen - the task has begun or tested itself - if and only if fewer than 2^16 of its signals had piled up |
| TaskService.WakeupLostAtWrap | src/taskServiceClass.c:90 | that many can pile up: a legal history of 2^16 signals after which the scheduler finds nothing to do and the task was never called |
| TaskService.Service.AddTask | src/taskServiceClass.c:60-71 | the next table entry, unscheduled, or TableFull |
| TaskService.Service.SignalTask | src/taskServiceClass.c:86-92 | adds a signal to the history for a known task, else TaskNotDefined |
| TaskService.Service.Test | src/taskServiceClass.c:111-117 | IllegalCall before the scheduler has run; by a task, the number of signals not yet seen, modulo 2^16, which are acknowledged |
| TaskService.Service.Yield | src/taskServiceClass.c:120-133 | on return nothing below the yielding task waits, and stack, running task and ceiling are exactly as before; from outside any task it is a pass of the scheduler, and for task 0 or before the first pass nothing |
| TaskService.Service.DoTasks | src/taskServiceClass.c:145-167 | terminates for finite task bodies, extends the history legally, does nothing at its own depth but to call tasks, and leaves nothing waiting below the ceiling |
| TaskService.Service.FindAndRun | src/taskServiceClass.c:154-165 | calls the lowest waiting task, or finds that none below the ceiling waits |
| TaskService.Service.Dispatch | src/taskServiceClass.c:158-164 | from its Begin to its Finish, the task does at its own depth of the call stack just what its body says, in order, and the scheduler does nothing at the depth it calls from |
| PhaseMachine.CallsGoToInited | src/state.c:93-109 | RUN and TIMEOUT go only to the state last given INIT, which came right after entering it |
| PhaseMachine.EveryEntryIsExcused | src/state.c:18-90 | a state is entered only at the start, after EXIT of the current one, from the off state, or after an error |
| PhaseMachine.EveryEntryIsWanted | src/state.c:18-90 | the state entered is the one last asked for, unless it is the first of all or the fallback from an error |
| PhaseMachine.EveryFailureHasCause | src/state.c:112-177 | an error is processed only after an INIT, RUN or TIMEOUT call since the state was entered answered SM_ERR |
| PhaseMachine.TimeoutsAreOwn | src/state.c:97-106 | a timeout that expires was armed in the state it expires in, which has lasted at least that long in wrapped ticks |
| PhaseMachine.EntriesCounted | src/state.c:10-95 | the entry count is the number of RUN and TIMEOUT calls since the state was entered, and one more from the start of a run to its call |
| PhaseMachine.ClockReadInOrder | src/state.c:10-22 | the times in a history - of entering a state, and of looking whether its timeout has expired - are the readings of the time base one after another, none skipped and none repeated |
| PhaseMachine.AnswersInOrder | src/state.c:18-109 | the k-th call of user code in a history answers as user code's k-th invocation does |
| PhaseMachine.ActsInOrder | src/state.c:211-231 | the states asked for and timeouts set in a history are those of the invocations in it, in order, none left out and none added |
| PhaseMachine.Machine.BetweenPasses | src/state.c:211-231 | the application, too, may ask for another state and set timeouts between two passes, and the machine is left as it asked |
| PhaseMachine.Machine.SetNextState | src/state.c:211-224 | by number from the list, 0 as off without a list, else SM_BAD_PARAMETER and nothing changed |
| PhaseMachine.Machine.ProcessSwitch | src/state.c:57-90 | EXIT unless off, then the state asked for after EXIT is entered and given INIT unless off, then the target's callback is called exactly if that is the target and has one; what is reported |
| PhaseMachine.Machine.ProcessError | src/state.c:33-53 | the error is counted, its trigger's callback called if it has one, and the fallback state entered; what is reported |
| PhaseMachine.Machine.ProcessRun | src/state.c:93-109 | counted first; with a timeout armed the clock is read exactly once, else not at all; then TIMEOUT if and only if that reading minus the entry time is, in 32 bits, at least the timeout (after its own callback if it has one) and RUN otherwise; what user code asked for meanwhile is what is asked for afterwards |
| PhaseMachine.Machine.ProcessAfter | src/state.c:143-177 | the pass in full: run, RUN or TIMEOUT by the next clock reading; switch exactly if the run did not fail and asked for another state; error handling exactly if one of them failed; where the machine ends and what it reports |
| PhaseMachine.Machine.ProcessBefore | src/state.c:112-140 | the pass in full: switch exactly if another state was asked for, error handling exactly if it failed, run unless that failed, RUN or TIMEOUT by the next clock reading and the timeout then armed, error handling again; where the machine ends and what it reports |
| PhaseMachine.Machine.Process | src/state.c:179-183 | one full pass of the kind that doBefore selects, with its answer |
| Crc8.DivideLinear | src/crc8.c:39-46 | the CRC is xor-linear in start value and message together |
| Crc8.DivideComposes | src/crc8.c:39-46 | the CRC of a concatenation is that of the second part started from that of the first |
| Crc8.CheckByteCancels | src/crc8.c:39-46 | a message followed by its CRC byte gives 0 |
| Crc8.RemainderExact | src/crc8.c:5-46 | for every generator and message, the CRC from start value 0 is the one byte r such that message times x^8 plus r is a multiple of x^8 + gen over GF(2) |
| Crc8.StartIsAdded | src/crc8.c:39-46 | another start value has the effect of adding it to the first byte |
| Crc8.DivideInjective | src/crc8.c:5-46 | for a generator with its low bit set, different start values give different CRCs over any message |
| Crc8.BurstDetected | src/crc8.c:5-46 | for such a generator and every non-empty message an error within 8 consecutive bits, also across a byte boundary, always changes the CRC |
| Crc8.BurstsSeenIffOdd | src/crc8.c:5-46 | all such errors, on messages of every length, are seen if and only if the generator's low bit is set |
| Crc8.Crc.CalculateTable | src/crc8.c:5-35 | entry i is what dividing the byte i leaves |
| Crc8.Crc.CalcCrc8 | src/crc8.c:39-46 | the table loop equals bit-by-bit division |

## Left out

The main loop:

- User code is an oracle: what each invocation calls and answers. What it does to anything but the loop's own interface is not modelled, nor are calls into the loop from interrupts or threads.
- `User_Loop` is given a bound on the number of passes, which is arbitrary; a loop that never ends is covered pass by pass.
- A second `User_Setup` (src/set_run_isr.c:27-31), which would drop the timers on `timeQ`, is not modelled.
- `Run_Periodically` with INT32_MIN, where `abs` is undefined, is excluded by the type of calls.
- The generated get wrapper lacks its `return` (src/genQGenerators.h:67); it is modelled as returning the status of `GenQ_Get`, which the loop of `Run_Tasks` needs. The asserted puts are executed in the model, as in a build with assertions on.
- All release callbacks run by one `ProcessReturnPoolObjects` appear as one invocation of user code (`Releases`), and there is one in every pass, which may do nothing. A timer with a null callback fires without an invocation, and LoopTrace.TimersFireAsAsked is about the others.
- `SetRun` keeps the loop's globals in two objects, one for tasks and one for timers, and the local `newQ` of `Do_Later` in a field.

Ring and pool:

- `RingSteps` takes memory accesses to be sequentially consistent and indices to be read and written at once; `GenQ_Reset`, which writes the consumer's index, is left out there.
- `MailboxSteps` is about the two rings and the hands; a chunk of DMX bytes is one step in `DmxTraffic`.
- Null queue pointers are not modelled. Pools are used by one thread of control, and calls from interrupts are not modelled.
- GenPool.ObjectPool.Return: a release callback appears as its answer, so one that itself uses the pool is not covered; the two that re-queue their object are, in TaskRunner and TimerRunner.
- GenPool.ObjectPool.IsObject: pointers that are not to a cell of this pool are not covered; GenPool.GetPoolId has them.
- Raw pointer layout is reduced to a header length and a cell size, both symbolic multiples of 4.

Mailbox and receiver:

- The classes `DmxReceiver` and `ReturnQueue` hold mailboxes and pools as values; `IsrComm.Target` and `GenPool.ObjectPool` are the in-place versions of those.
- DmxTheorems.ChunksCompose: compares all but what does depend on how the stream is cut: the debugging counter `missed`, and whether a device whose window is still ahead has already taken a buffer that waits for it. Devices that hold a buffer, or for which none waits, are compared in full.
- DmxFrames.FrameDeliveredAmidCalls: devices must be in the order of disjoint windows past the start code, and frames within the range of the int16 slot counter.
- DmxTurns.FeedServes: is about devices in step; FeedIsTurns has the others.
- DmxTheorems.AnyChunking: frames beyond the range of the int16 slot counter are modelled in the code but not in the theorem; the same holds for DmxTheorems.UseServes and ChunksCompose.
- IsrComm.Target.ReturnToUserProcess: covers a target with a return queue; one without goes straight to ReturnPoolObject, modelled as IsrReturn.ReturnQueue.ReturnPoolObject.
- `Ipt_Reset` of a mailbox without its own return queue, and the single interrupt queues built on the general queue, are not modelled beyond `IsrReturn`. `IsrReturn.ReleaseAll` does not cover a release callback, or an interrupt, that adds to the return queue while it is drained.

Task service:

- Task bodies are finite scripts of signals, tests and yields. A task calling `TSC_DoTasks` itself, tasks added while others are running, the queues of `TSC_Put` and `TSC_Get`, and `TSC_Test` called outside a task after a pass of the scheduler, which reads the entry past the last task, are not modelled.
- Signals from interrupts are not modelled: one that falls between two reads of the table, for a task already passed over, is only seen by the next call of `TSC_DoTasks`.

Phase machine:

- The state functions, the callbacks, the application and the clock are oracles. Re-initialising a machine in use is not modelled, nor is a state function that calls `SmProcess`.

Elsewhere:

- The compiled-in CRC tables and the Hamming tables (src/crc8.c:55-199), `tasker.c`, `swbgtimers.c`, `generalQueue.c`, `optable.c`, `eventlog.c`, `fastswitch.c`, and all hardware, thread and demonstration code are not modelled.
