# A Dafny model of Tang's channel, scheduler, select and timers

Tang is a Go-style coroutine runtime in C++20. This project models its four stateful pieces in Dafny and proves
what they keep over whole runs. `dafny verify dfyconfig.toml` checks everything.

## How the model is built

* **Channel.** `ChannelSpec.dfy` gives each critical section of `channel<T>` as a function on a channel value and
  says which receivers were written to, which were failed, which senders were let go, and which handles were passed
  to `runtime::schedule`. `Channel.dfy` is the channel as a mutable object; every method is proved against its
  function, down to the awaiters it writes to. `ChannelRun.dfy` interleaves any number of coroutines: the two halves
  of an await and the two halves of `close` are separate steps, and a run is any list of steps (a step that is not
  enabled changes nothing). `ChannelSafety.dfy` holds what every interleaving keeps, `ChannelLogs.dfy` that the
  records it speaks of are those of the steps, `ChannelWake.dfy` in which order waiters are woken. `ChannelFifo.dfy`
  says exactly when the channel is first in, first out, `ChannelAwait.dfy` treats awaits that nothing interrupts, and
  `ChannelObserve.dfy` says what a departure from first in, first out can be seen to do. `ChannelPutBack.dfy` adds
  that the scheduler's loop may resume a coroutine that still waits in a channel, with what that means for the end of
  the stream in `ChannelFinal.dfy` and for senders in `ChannelWindow.dfy`.
* **Scheduler.** `SchedulerRun.dfy` interleaves workers, main loop and callers, one atomic access or locked section
  at a time. `SchedulerSpec.dfy` and `Scheduler.dfy` are the scheduler run by one thread: functions, and an object
  whose main loop is proved to terminate and to do what the functions say. There, coroutines are finite programs.
* **select.** `SelectSpec.dfy` has readiness, success and the choice among shuffled cases; `Select.dfy` is `select` on
  channel objects, with the shuffles as parameters and nobody else at work; `SelectRun.dfy` interleaves a select, read
  by read, with any other users of its channels.
* **Timers.** `TimerSpec.dfy` has one pass over the timers, the timeout, and whole runs; `EventLoop.dfy` is the object
  that erases from its table while it scans it, with clock and iteration order as parameters.

The two overloads of `try_send` differ in copying or moving the value and are one function here. The mutex, each
atomic access and each locked section count as one step.

## What the code does not do

Each of these is proved, with the exact condition and mostly with a concrete run:

* With a buffer and interrupted awaits the channel is not first in, first out: `register_recv_waiter` does not look
  at the buffer again, and `register_send_waiter` does not look for room again (`OvertakingExample`). Call a
  registration stale if the channel could by then have served it. The channel matches the reference channel, a list
  of sends and a list of receives, at every point of a run exactly as long as no registration is stale
  (`FifoExactly`). Deliveries may still come in order for a while after a stale one; but then, from some point of the
  run, there is a way of going on without any further stale step that delivers out of order, and only then
  (`FifoObservable`). With capacity 0, and with uninterrupted awaits, it always matches.
* A sender that finds a waiting receiver while registering hands its value over and is never scheduled by the channel
  (`StrandedExample`, `StrandedExactly`, `StrandedForever`). It goes on only because the scheduler's loop puts every
  coroutine that is not done after `resume` back into its queue (src/runtime.cpp:112-119, 210-219).
* That same put-back resumes receivers that still wait. On an open channel a receive that suspended ends with false
  exactly when the channel has not scheduled its coroutine, its waiter being still in the list (`FalseExactly`); a
  message handed to such a waiter later is lost, although its sender is let go (`LostExactly`, `LostExample`).
* So does it resume senders that still wait: their send ends although its value is neither received nor buffered,
  already on an unbuffered channel that nobody receives from (`EarlySendExample`). A suspended send can end before the
  channel lets it go exactly when it waits or was forgotten (`SendReturnsExactly`). At most `capacity` senders have
  gone on ahead of the values received, now and in every continuation in which no more of them leave early, exactly as
  long as no send has ended while its sender waited in the open channel (`WindowObservable`); at any one point, exactly
  when those who left early are no more than the room in the buffer and the senders still owed a return together
  (`WindowExactly`).
* A receive can be told false although values are left or still to come: when it registers after the close
  (`FalseEndExample`), and when it is resumed while it waits (`FalseNotFinalExample`, where no await is interrupted).
  Once a receive has been told false nothing is ever received again exactly when no receive fails or is resumed
  unanswered while the channel holds values, and none is resumed unanswered while it is open (`FalseIsFinalExactly`).
  `EndOfStreamExactly` is the part of that which is the channel's own doing.
* `active_tasks_` counts a coroutine again each time the loop puts it back, although a comment there says that it is
  still counted. When the loop is over the counter is zero if and only if nothing that can come to run ever suspends,
  and no start was counted twice (`ReturnsToZeroExactly`); with one coroutine that suspends once it stays at one and
  the main loop ends by its guard against missing progress (`LeftBehindExample`, `GivesUp`).
* `task::run` signals a completion for a coroutine that is done at once, although nothing was counted for it. In every
  interleaving the counter is the work, plus the starts counted twice and the put-backs, less those completions
  (`CounterExactly`); it covers the work as long as no more of them have been signalled than increments have leaked, and
  no longer (`CoverageExactly`). Beyond that it can become zero while a coroutine is queued, or
  negative (`FalseZeroExample`, `UnderflowExample`). It is never negative exactly when no decrement, after its check,
  meets an exhausted counter (`NeverNegativeExactly`), and beyond that its zero can be believed exactly when no
  decrement takes away the last increment while work is left (`DetectionExactly`).
* `select` treats its default case as one more ready case, so that it can be picked while channels are ready, unlike
  in Go; and it returns without running a callback when it picks a send on a closed channel or a receive on a closed
  and empty one (`ChoicesExactly`, `ChosenButFailsExactly`). Those are the only two when nobody else is at work. With
  others at work it runs nothing, too, when another receive, or another send, comes between its question and its try
  (`StolenExample`), and for no third reason (`FailsOnlyIf`). An unbuffered channel never looks ready to it
  (`RendezvousNeverReady`).

The repository's README speaks of work stealing; the code has a single shared queue, and so has the model.

## Model

| member | source | states |
|---|---|---|
| Channels.Channel.constructor | include/tang/channel.h:249-250 | a new channel is open and holds and has scheduled nothing |
| Channels.Channel.ResumeFirstReceiver | include/tang/channel.h:84-103 | the longest waiting receiver leaves the list, gets the value and result true, and is scheduled; nobody else is touched |
| Channels.Channel.TrySend | include/tang/channel.h:264-346 | result, new channel, handles scheduled and awaiters written are those of the specification: refused when closed or full, else to the first waiting receiver or to the end of the buffer |
| Channels.Channel.TryRecv | include/tang/channel.h:372-440 | likewise: the front of the buffer, refilled from the first waiting sender, or that sender's value directly; refused when there is nothing, or when closed with an empty buffer |
| Channels.Channel.RegisterSendWaiter | include/tang/channel.h:465-493 | likewise: scheduled at once on a closed channel, value handed over to a waiting receiver without scheduling the sender, else appended to the waiting senders |
| Channels.Channel.RegisterRecvWaiter | include/tang/channel.h:496-527 | likewise: failed and scheduled on a closed channel, answered by the first waiting sender, both scheduled, else appended to the waiting receivers |
| Channels.Channel.ExchangeClosed | include/tang/channel.h:534-538 | sets the flag, tells whether it was set, and changes nothing else |
| Channels.Channel.WakeAllWaiters | include/tang/channel.h:540-558 | schedules every waiting sender and then every waiting receiver once, in order, gives the receivers result false, and empties both lists |
| Channels.Channel.Close | include/tang/channel.h:530-559 | an open channel is closed and drained; a closed one is left alone |
| Channels.Channel.Send | include/tang/channel.h:148-158 | an uninterrupted send is try_send and, if that said no, registration |
| Channels.Channel.Recv | include/tang/channel.h:182-196 | an uninterrupted receive is try_recv and, if that said no, registration; a value found at once is in the awaiter with result true |
| Channels.Channel.IsFull | include/tang/channel.h:571-577 | a channel without capacity always counts as full |
| ChannelSafety.SectionsKeepShape | include/tang/channel.h:264-559 | every critical section keeps the buffer within the capacity, never has waiting senders and waiting receivers at once, and keeps a drained channel drained |
| ChannelSafety.ShapeAlways | include/tang/channel.h:264-559 | the same after any interleaved run, and a closed channel stays closed |
| ChannelSafety.DrainedForever | include/tang/channel.h:534-557 | once a close has drained the lists, both stay empty in every continuation |
| ChannelSafety.TrySendAccounts | include/tang/channel.h:264-346 | a value accepted by try_send is inside the channel or was given to a receiver, which is scheduled once |
| ChannelSafety.TryRecvAccounts | include/tang/channel.h:372-440 | try_recv takes out one value, and a sender that leaves the list leaves its value inside or is the one received from |
| ChannelSafety.RegisterSendAccounts | include/tang/channel.h:465-493 | registration keeps, hands over or drops the value, never two of these |
| ChannelSafety.RegisterRecvAccounts | include/tang/channel.h:496-527 | registration parks, answers or fails the receiver, never two of these |
| ChannelSafety.CloseDrainAccounts | include/tang/channel.h:540-558 | the drain drops exactly the waiting senders' values and resumes exactly the waiters, once each |
| ChannelSafety.Conservation | include/tang/channel.h:264-559 | in every interleaving the messages committed are, as multisets, those received, buffered, waiting with their sender and dropped; every receive got a value, waits or failed; drops and failures happen only on a closed channel |
| ChannelSafety.ReceivedOnce | include/tang/channel.h:264-559 | in every interleaving no message is received twice and no receive gets two messages |
| ChannelSafety.ReceivedWasSent | include/tang/channel.h:264-559 | in every interleaving every message received was sent, and every receive that got one had asked |
| ChannelSafety.ScheduledOnce | include/tang/channel.h:278-557 | in every interleaving a suspended coroutine is scheduled exactly once, waits in exactly one list, or is stranded; others are never scheduled by the channel |
| ChannelSafety.ReceiversFate | include/tang/channel.h:84-124 | for each receive the channel has written a value and result true, has written result false, or still lists it, exactly one of these; and it writes false only when closed |
| ChannelSafety.WindowBound | include/tang/channel.h:278-305 | in every interleaving on an open channel, the senders that the channel lets go exceed values received by at most the capacity |
| ChannelSafety.ArrivalOrder | include/tang/channel.h:278-523 | waiters leave their list in the order in which they registered |
| ChannelWake.WokenInTurn | include/tang/channel.h:278-557 | in every interleaving the receivers that came to wait and do not any more have been scheduled, in the order in which they came, and so have the senders, whichever section woke them |
| ChannelWake.AnsweredThenSender | include/tang/channel.h:510-518 | a receiver answered while registering is scheduled, and right after it the sender |
| ChannelLogs.LogsAreSteps | include/tang/channel.h:264-527 | messages committed, receives asked for, coroutines suspended and waiters are, in order, those of the steps; on an open channel the reference channel is made of just these |
| ChannelLogs.MessagesKept | include/tang/channel.h:264-527 | every message committed, waiting to be sent or received has the body that its sender began with |
| ChannelSafety.StrandedExactly | include/tang/channel.h:478-487 | a coroutine is suspended, never scheduled by the channel and in neither list exactly when it registered as a sender on an open channel with a waiting receiver |
| ChannelSafety.StrandedForever | include/tang/channel.h:478-487 | such a sender is never scheduled by the channel and never listed there again, in any continuation |
| ChannelSafety.StrandedExample | include/tang/channel.h:478-487 | one sender and one receiver on an unbuffered channel suffice to leave a sender unscheduled by the channel |
| ChannelFifo.TrySendInOrder | include/tang/channel.h:264-346 | on the reference channel for sends A and receives R, try_send succeeds exactly when fewer than R plus capacity sends were accepted, and then gives the reference channel for one send more |
| ChannelFifo.TryRecvInOrder | include/tang/channel.h:372-440 | try_recv gives message number R, and the reference channel for one receive more |
| ChannelFifo.RegisterSendInOrder | include/tang/channel.h:478-492 | registering a sender keeps to the reference channel exactly when there is no room left |
| ChannelFifo.RegisterRecvInOrder | include/tang/channel.h:510-526 | registering a receiver keeps to the reference channel exactly when nothing is buffered |
| ChannelFifo.DrainInOrder | include/tang/channel.h:546-557 | the drain gives the reference channel without the sends and receives that were waiting |
| ChannelFifo.FifoExactly | include/tang/channel.h:465-527 | a run matches the reference channel at every point if and only if no step registers a coroutine that the channel could by then have served |
| ChannelFifo.RendezvousInOrder | include/tang/channel.h:478-523 | an unbuffered channel is first in, first out, k-th send to k-th receive, in every interleaving |
| ChannelFifo.OvertakingExample | include/tang/channel.h:510-526 | with capacity 1 a late registration lets a later message overtake a buffered one |
| ChannelObserve.StaleShows | include/tang/channel.h:465-527 | from an in-order state, a step leaves every calm continuation delivering the k-th message to the k-th receive if and only if it is not stale |
| ChannelObserve.FifoObservable | include/tang/channel.h:465-527 | over whole runs: from every point, every continuation without stale steps delivers in order, if and only if the run has no stale step |
| ChannelAwait.SendUseReflects | include/tang/channel.h:148-158 | what the object's uninterrupted Send does is what a send does to a run |
| ChannelAwait.RecvUseReflects | include/tang/channel.h:182-196 | what the object's uninterrupted Recv does is what a receive does to a run |
| ChannelAwait.AwaitsInOrder | include/tang/channel.h:264-557 | with uninterrupted awaits, for every capacity and with closing in two steps, the channel is the reference channel, nobody is stranded, and a failed receive means that nothing is left |
| ChannelAwait.KthToKth | include/tang/channel.h:264-527 | receive k got message k; buffer, waiting senders and waiting receivers hold the next messages and receives at their exact places |
| ChannelAwait.ReleasedExactly | include/tang/channel.h:386-412 | the channel lets send k go exactly when k is below the accepted receives plus the capacity |
| ChannelAwait.DryForever | include/tang/channel.h:272-275 | a closed channel with an empty buffer never delivers again, in any interleaving |
| ChannelAwait.OverExactly | include/tang/channel.h:380-389 | on a closed channel, receiving is over for good exactly when the buffer is empty |
| ChannelAwait.EndOfStream | include/tang/channel.h:502-508 | with uninterrupted awaits, after the channel has failed a receive it answers none any more |
| ChannelAwait.EndOfStreamExactly | include/tang/channel.h:502-508 | in any interleaving, a receive failed by the channel always means the end exactly when none is failed while values are buffered |
| ChannelAwait.RemainderInOrder | include/tang/channel.h:386-415 | receives hand out the buffered values in order, on an open channel, after a close, and between the close and its drain |
| ChannelAwait.FalseEndExample | include/tang/channel.h:502-508 | a receive that registers after the close fails while the next one gets a value |
| ChannelPutBack.PlayRuns | src/runtime.cpp:112-119 | resuming a coroutine that waits changes nothing in the channel, so every law of its runs stays |
| ChannelPutBack.OnlyPutBackExactly | src/runtime.cpp:112-119 | a suspended coroutine has not been scheduled by the channel exactly when it waits in a list or handed its value over while registering |
| ChannelPutBack.FalseExactly | include/tang/channel.h:182-221 | a receive that suspended returns false exactly when it failed or still waits; on an open channel, exactly when the channel has not scheduled it |
| ChannelPutBack.LostExactly | include/tang/channel.h:84-124 | a message that was handed over is lost exactly when its receiver had been resumed while it still waited |
| ChannelPutBack.LostExample | include/tang/channel.h:278-297 | one receiver resumed while it waits on an open channel gets false, and the next send, which succeeds, is lost |
| ChannelFinal.FalseIsFinalExactly | include/tang/channel.h:182-221 | with the put-back: once a receive is told false nothing is received again, at every point and in every continuation, if and only if none is told so by the put-back on an open channel or by either while values are buffered |
| ChannelFinal.FalseNotFinalExample | src/runtime.cpp:112-119 | for every capacity from 1, without any interruption or close, a receive is told false and a later one gets a value |
| ChannelWindow.SendReturnsExactly | include/tang/channel.h:155-162 | a suspended send can end before the channel lets it go exactly when it waits or handed its value over while registering |
| ChannelWindow.GoneExactly | include/tang/channel.h:264-527 | in every run, senders that have gone on and those owed it are as many as the values received, buffered and dropped and the senders that went on early |
| ChannelWindow.WindowExactly | include/tang/channel.h:278-305 | on an open channel the senders that have gone on exceed the values received by at most the capacity exactly when those gone early are no more than free room and senders owed it |
| ChannelWindow.WindowObservable | src/runtime.cpp:112-119 | from every point of a run the capacity bounds the senders in every continuation without early leavers, if and only if no send of the run ends while its sender waits in the open channel |
| ChannelWindow.EarlySendExample | tests/simple_test.cpp:59 | on an unbuffered channel without any receive a send comes to its end |
| SchedulerRun.CounterExactly | src/runtime.cpp:406-446 | in every interleaving the counter is queue plus work in flight, plus the steps that count a start twice or put a coroutine back, minus the completions signalled for uncounted tasks but for those that found nothing; all counted from the list of steps |
| SchedulerRun.DetectionIsSafe | src/runtime.cpp:420-446 | without unpaired completions the counter never underflows, its check never fails, and zero means nothing queued and nobody at work |
| SchedulerRun.CoverageExactly | src/runtime.cpp:436-447 | the counter is at every point at least the work queued and in flight, if and only if no uncounted completion is signalled while it has nothing to spare, if and only if there are never more such completions than leaked increments |
| SchedulerRun.NeverNegativeExactly | src/runtime.cpp:445-447 | the counter is never negative if and only if no decrement, after its check, meets an exhausted counter |
| SchedulerRun.DetectionExactly | src/runtime.cpp:425-427 | at every point of a run the counter is not negative and a zero means that nothing is queued, pushed, held, resumed or just resumed, if and only if no decrement takes the last increment while work is left or meets an exhausted counter |
| SchedulerRun.CoveredIsSound | src/runtime.cpp:425-427 | a run that stays covered detects termination correctly throughout, and at rest its counter is the number of double starts and put-backs less that of completions signalled |
| SchedulerRun.BackToZero | src/runtime.cpp:113-115 | if no resumption ends suspended, no start is counted twice and no uncounted completion is signalled, the counter is the work there is and zero at rest |
| SchedulerRun.DoneExactly | src/runtime.cpp:100-115 | a coroutine is done exactly when some resumption of it has ended for good |
| SchedulerRun.DoneDecides | src/runtime.cpp:85-119 | schedule, the look before resuming and the look after it each go one way exactly when the coroutine is done |
| SchedulerRun.OnlyUndone | src/runtime.cpp:85-101 | an actor comes to resume, or to count and push, only a coroutine that is not done |
| SchedulerRun.FalseZeroExample | include/tang/task.h:113-116 | a completion signalled for a coroutine that was never queued makes the counter zero while another is queued |
| SchedulerRun.UnderflowExample | src/runtime.cpp:445-447 | two completions of uncounted tasks that both read one take the counter to minus one, with a coroutine queued |
| SchedulerRun.NoTaskLost | src/runtime.cpp:54-122 | in every interleaving a coroutine for which schedule was called is done (an exception that ends it counts as that), queued or in some thread's hands |
| SchedulerRun.QueueInOrder | src/runtime.cpp:67-72 | in every interleaving the handles pushed are, in order, those that threads have popped to hold and then the queue |
| Schedulers.Scheduler.Schedule | src/runtime.cpp:390-418 | a coroutine that is done is turned away; any other is counted and appended to the queue |
| Schedulers.Scheduler.TaskCompleted | src/runtime.cpp:442-447 | decrements the counter unless it is zero |
| Schedulers.Scheduler.Resume | src/runtime.cpp:197-208 | one burst of the coroutine runs and what it schedules is queued, in order |
| Schedulers.Scheduler.TakeTurn | src/runtime.cpp:171-219 | one turn: pop, skip what is done, resume, then complete or put back |
| Schedulers.Scheduler.Run | src/runtime.cpp:147-236 | the main loop terminates with an empty queue, does what turn after turn does, and ends by its guard exactly when the counter is not zero |
| SchedulerSpec.TurnDecreases | src/runtime.cpp:154-220 | each turn uses up a burst or shortens the queue |
| SchedulerSpec.ScheduledInOrder | src/runtime.cpp:406-417 | scheduling one coroutine after another queues and counts those not done, in that order |
| SchedulerSpec.TurnInOrder | src/runtime.cpp:171-219 | after a turn the queue is what stood behind, then what the burst scheduled, then the coroutine itself if it suspended |
| SchedulerSpec.CompletionsStopAtZero | src/runtime.cpp:445-447 | k completions take k from the counter, or as much as there is |
| SchedulerSpec.EverythingDone | src/runtime.cpp:154-236 | when the loop is over, everything ever scheduled is done |
| SchedulerSpec.ResumedExactly | src/runtime.cpp:171-219 | a scheduled coroutine that does not fail is resumed exactly as often as it has bursts |
| SchedulerSpec.CounterLeftBehind | src/runtime.cpp:214-219 | the counter left behind is the number of times the loop put a coroutine back, plus the extra increments |
| SchedulerSpec.ReturnsToZeroExactly | src/runtime.cpp:154-219 | the counter is zero when the loop is over if and only if no start was counted twice and what is queued, what that schedules, and so on, all ends in its first burst |
| SchedulerSpec.LeftBehindExample | src/runtime.cpp:210-219 | one coroutine that suspends once is done at the end, and the counter is one |
| Schedulers.GivesUp | src/runtime.cpp:225-231 | on the object: with that one coroutine the main loop ends by its guard, the counter at one |
| SelectSpec.RecvReadyExactly | include/tang/select.h:98-101 | when readiness of a receive tells whether it would succeed, for every channel state |
| SelectSpec.SendReadyExactly | include/tang/select.h:138-141 | when readiness of a send tells whether it would succeed, for every channel state |
| SelectSpec.ChosenButFailsExactly | include/tang/select.h:273-278 | without interference a chosen case runs nothing exactly when it is a send on a closed channel or a receive on a closed and empty one |
| SelectSpec.ReadyIsExact | include/tang/select.h:98-141 | on open channels with capacity, in every state that uninterrupted awaits reach, ready means would succeed |
| SelectSpec.RendezvousNeverReady | include/tang/channel.h:566-577 | an open unbuffered channel is never ready, in any interleaving, although a waiting partner would make the operation succeed |
| SelectSpec.FirstReadyIsPicked | include/tang/select.h:273-278 | the scan stops at the first ready case, which is the one whose choice is described for all shuffles |
| SelectSpec.WaitEndsExactly | include/tang/select.h:288-302 | with channels changing between rounds, the busy wait ends in the first round in which some case is ready, whatever the shuffles |
| Selects.OneCallback | include/tang/select.h:273-278 | a select that chooses runs its case's callback, once and no other, unless the case is one of the two that fail when chosen |
| Selects.ExecutedIsOne | include/tang/select.h:82-136 | executing a case puts one value in or takes one out, to the right place, or changes nothing |
| SelectSpec.ChoicesExactly | include/tang/select.h:267-278 | over all shuffles the cases that can be chosen are exactly the ready ones, the default included |
| SelectSpec.PickedAtOnce | include/tang/select.h:280-286 | whether the first pass chooses does not depend on the shuffle, and with a default it always does |
| Selects.Select.TryReady | include/tang/select.h:98-141 | readiness of each kind of case, from the channel's status functions |
| Selects.Select.TryExecute | include/tang/select.h:82-136 | exactly one value put in or taken out by the case's own channel under exactly the stated condition, the front of the buffer or else the first waiting sender's value received, the callback exactly on success; every other channel, and every awaiter but the receiver served, as before |
| Selects.Select.Shuffle | include/tang/select.h:267-270 | shuffling in place rearranges the cases by the given permutation |
| Selects.Select.Scan | include/tang/select.h:272-278 | exactly one operation of the case that Pick gives, and nothing else; if there is none, nothing happens |
| Selects.Select.BusyWait | include/tang/select.h:288-302 | without interference no later pass finds anything, and nothing changes |
| Selects.Select.Run | include/tang/select.h:256-303 | one operation of the case that Pick gives for the first shuffle and nothing else, with exactly its callback run unless it fails when chosen; with none ready the wait never ends; the search for a default case never finds one |
| SelectRun.SelectIsOneTry | include/tang/select.h:256-303 | in every interleaving a select executes one case at most, by one try that its channel sees as one more step of a run, and runs that case's callback exactly if the try succeeded |
| SelectRun.ChosenWasReady | include/tang/select.h:98-141 | in every interleaving the case executed was ready at some earlier point |
| SelectRun.PassedOver | include/tang/select.h:98-141 | in every interleaving select goes past a case only after finding nothing to receive, or no room, and then the channel open; never past a default |
| SelectRun.QuietSelect | include/tang/select.h:256-303 | undisturbed from the start of a pass, select executes the case that Pick gives and is over, or, with none ready, changes nothing and begins another pass |
| SelectRun.TryTells | include/tang/select.h:82-136 | executing a chosen case ends the select, with success exactly if its value has come or gone |
| SelectRun.CasesAlways | include/tang/select.h:267-291 | the shuffles neither lose nor repeat a case |
| SelectRun.DefaultDecidesAlways | include/tang/select.h:280-286 | in every interleaving a select with a default decides in its first pass, and the loop that looks for a default finds none |
| SelectRun.FailsOnlyIf | include/tang/select.h:82-136 | with others at work a chosen case fails only if its channel is closed (and, for a receive, empty), or another try of the same kind came in since it was ready |
| SelectRun.StolenExample | include/tang/select.h:82-101 | on an open channel another receive takes the value between readiness and execution, and select returns having run nothing |
| TimerSpec.DueOnce | src/event_loop.cpp:95-102 | in any iteration order each timer whose deadline has come fires once, and no other |
| TimerSpec.OrderIsIrrelevant | src/event_loop.cpp:91-113 | two iteration orders fire the same timers and return the same timeout |
| TimerSpec.TimeoutBound | src/event_loop.cpp:93-112 | now plus timeout is at most the earliest deadline and less than a millisecond before it; the timeout is the maximum exactly when no timer is left |
| TimerSpec.TimerLife | src/event_loop.cpp:73-110 | over whole runs every returned handle is fresh and is pending, fired or cancelled, one of these and once, and never fires early |
| TimerSpec.DelayIsKept | src/event_loop.cpp:73-81 | a timer added at any point is pending then, has the deadline that moment plus its delay as long as it is pending, and never fires before that |
| TimerSpec.NoneOverdue | src/event_loop.cpp:95-102 | a pass fires a pending timer exactly when its deadline has come, and keeps exactly the others |
| EventLoops.EventLoop.AddTimer | src/event_loop.cpp:73-81 | the next handle is returned and gets the deadline now plus delay; as in a whole run |
| EventLoops.EventLoop.CancelTimer | src/event_loop.cpp:83-85 | true exactly when the timer was pending, which it no longer is; the others stay; as in a whole run |
| EventLoops.EventLoop.HandleTimers | src/event_loop.cpp:91-113 | the pass that erases while scanning leaves exactly the timers not due, fires the due ones, and returns the smallest truncated difference; as in a whole run |

## Left out

- Channel operators `<<` and `>>`: one non-blocking try wrapped in a coroutine.
- Copying against moving a value, and what a moved-from value holds.
- `task<T>` results, continuations and frame lifetime; in particular what a write through the awaiter of a receive that has already ended does, beyond that its message is lost.
- Nested calls: what a coroutine calls while it is resumed is, in the interleaved scheduler, the step of another actor; in the one-thread scheduler a burst schedules its list after it has been taken off the program.
- `stop` and everything after it: joining, clearing the queue, resetting the counter.
- The extended wait of 100 rounds and the one-second wait after the main loop, sleeping, and condition-variable timing: wall-clock behaviour; waits are steps that change nothing.
- `co_select` and `select_awaiter`: their registration functions are not connected to the channel's lists.
- Selects.Select.BusyWait: on the object, takes as many rounds as it is given shuffles, without interference; `WaitEndsExactly` has channels that change between rounds, and SelectRun, on values, any interleaving.
- Selects.Select.Scan: on the object, without interference; so is Selects.Select.Run.
- Channels.Channel.RegisterRecvWaiter: asks for an awaiter object that is not in the list, as each co_await makes its own; its coroutine handle may be in the list already.
- ChannelPutBack: which coroutine issues which operation, and in which order, is open; a second resumption, by the channel, of a coroutine that the loop has resumed already only allows a later return at any point.
- EventLoops.EventLoop.HandleTimers: callbacks that add or cancel timers during the pass (adding can rehash the table under the scan, and a timer that cancels itself invalidates the scan's place in it); the iteration order must list each timer once.
- EventLoops.EventLoop.AddTimer: a delay whose deadline does not fit the clock's 64 bits, which is an overflow in the source; differences of clock readings are exact.
- Timer numbers and `active_tasks_` are unbounded integers.
- Event sources, pollers, logging, `defer`, `RuntimeScope`.
- The C++ memory model: every atomic access and every locked section is one step, and unlocked reads of the queue are reads of its current value.
