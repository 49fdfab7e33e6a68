# Ruvia verification

A Dafny model of the hard parts of Ruvia, a C++ library for worker event loops and HTTP, and
proofs of what they keep.

- **Timers of a worker** (`TimerHeap`, `TimerState`, `TimerSteps`, `TimerRounds`, `WorkerTimers`):
  a lazily pruned deadline heap over reusable slots, with one armed wait, firing rounds over a
  snapshot, reentrant completions and cancellation from any thread. User code is a parameter, a
  finite tree of queue operations; so is what other threads do around each load of a slot's
  activity word.
- **Task dispatcher of a worker** (`DispatcherSteps`, `WorkerDispatcher`): the node slab, batches,
  failure and abandonment. `DispatcherSteps` is the state machine over all interleavings of its
  critical sections; the class keeps the linked nodes and does what the steps do.
- **Stopping** (`WorkerNotification`, `WorkerStopChain`, `LoopRetirement`, `AttachedLoop`,
  `StopSteps`, `StopState`): wake-ups that are not lost, the stop control chain, the retirement
  gate of a loop run jointly with its dispatcher, an attached loop with dispatcher and chain as
  one machine, and stop callbacks that are unlinked while they run.
- **Pools** (`PoolLeaseSteps`, `PoolLeaseScheduler`, `BlockingPoolSteps`, `BlockingPool`,
  `LocalRingQueue`): slot leases with an intrusive queue of waiting coroutines, and the bounded
  pool of blocking threads.
- **Decoders** (`QuicVarint`, `CapsuleProtocol`, `CapsuleDecoder`, `ChunkedCoding`,
  `Http1ChunkedBodyDecoder`): resumable decoding against a parse of the whole input.
- **Text** (`FieldValueScan`, `DotSegments`, `CivilCalendar`, `HttpText`, `HttpDate`, `SetCookie`,
  `SetCookieParser`, `CookieRoundTrip`, `CookieDates`, `CookieMeaning`): the word-at-a-time field scan, dot segments and redirect
  targets, dates, the Set-Cookie round trip, and what the parser makes of foreign cookies.

Concurrent components have two files: one with a state machine whose steps are single critical
sections or atomic operations and whose runs are arbitrary sequences of enabled steps, and one
with a class over the real fields, each method proved to do what one step does.
`dafny verify dfyconfig.toml` verifies the whole project.

## Findings

- **A silent cancellation from another thread can lose a race it has won.** `unregister(false)`
  off the worker takes a successful exchange of the activity word for proof that the completion
  will not run (ruvia-core/src/worker_timers.cpp:46-51). `take_timer`, `stop_timers` and
  `fire_timers` load that word before `release_timer_slot` stores zero (:282-284, :314-316,
  :384-385), so an exchange between load and store succeeds too late.
  `WorkerTimers.CancellationCanLoseTheRace` and `WorkerTimers.SilencedTimerCanExpire` run into it
  from an empty queue. `WorkerTimers.TimerQueue.EveryTimerHasOneFate` is the exact condition: a
  silenced timer is delivered if and only if it was silenced in that window.
- **A Path that does not start with a slash is not recovered.** The writer accepts it
  (ruvia-http/src/cookie/cookie_validation.h:97-101), the parser reads it as no path
  (ruvia-http/src/cookie/http_set_cookie.cpp:216-220).
  `CookieRoundTrip.RelativePathIsLost` is such a cookie, and
  `CookieRoundTrip.PathIsRecoveredIffAbsolute` is the exact condition; the rest of such a cookie
  is recovered.
- **The stop chain leaves itself alone after finalize_ only if its callers do.** Its own controls
  and callbacks are gone by then, but a `request_stop`, `finalize`, `post_control` or `abandon`
  that was entered and has not taken the mutex reads the chain afterwards
  (ruvia-core/src/worker_stop_chain.cpp:20-73, :105-115).
  `WorkerStopChain.CallerCanTouchTheChainAfterFinalize` is such a run, and
  `WorkerStopChain.OnlyCallersTouchTheChainAfterFinalize` says exactly when.
- **A two-digit RFC 850 year is never read as one of the next century.** The year is completed in
  the current century or the one before (ruvia-http/src/field/http_date.cpp:93-104), so in 2099 a
  date of the year 2100 is read as one of 2000 (`HttpDate.NextCenturyIsReadAsLast`).
  `HttpDate.ShortYearIsResolvedIff` says exactly which years two digits tell.

## Model

| member | source | states |
|---|---|---|
| WorkerTimers.TimerQueue.FireTimers | ruvia-core/src/worker_timers.cpp:362-407 | since the round began only timers that were then queued, due at the snapshot and not flagged expire, each once, by deadline and then by registration; unless a completion threw, each of them expired or was withdrawn before its turn; afterwards an armed wait covers every live deadline or the queue is stopped |
| WorkerTimers.TimerQueue.FireFront | ruvia-core/src/worker_timers.cpp:373-389 | one iteration keeps the order of the round so far and takes one entry of the round away, whatever the completion does to the queue |
| WorkerTimers.TimerQueue.WaitCompleted | ruvia-core/src/worker_timers.cpp:351-357 | a wait of an older generation changes nothing; the current one runs a firing round with the guarantees of `FireTimers` |
| WorkerTimers.TimerQueue.ScheduleTimer | ruvia-core/src/worker_timers.cpp:117-184 | success leaves an active, unflagged timer whose effective deadline is not before the running round's snapshot; a failed push or arm leaves the completion destroyed and the older timers still covered by a wait, or a stopped queue |
| WorkerTimers.TimerQueue.Register | ruvia-core/src/worker_timers.cpp:128-165 | a completion whose move stops the queue reentrantly, or whose push fails, is not published and leaves no slot reserved, whatever its destruction runs |
| WorkerTimers.TimerQueue.RollBack | ruvia-core/src/worker_timers.cpp:158-162 | a failed push gives the slot back and destroys the completion, with heap, stale count and wait as before |
| WorkerTimers.TimerQueue.UndoSchedule | ruvia-core/src/worker_timers.cpp:170-182 | a failed arm destroys the new timer and covers the older ones again, or stops the queue |
| WorkerTimers.TimerQueue.RequestCancellation | ruvia-core/src/worker_timers.cpp:187-236 | on the worker: a silent cancellation destroys the completion at once; a notified one flags the slot, queues the one handler that delivers it and leaves the completion alone, and does nothing the second time; a handle whose timer is gone changes nothing |
| WorkerTimers.TimerQueue.FlagCancellation | ruvia-core/src/worker_timers.cpp:220-235 | the flagged timer's entry is stale at once and one handler is queued to deliver it |
| WorkerTimers.TimerQueue.UnregisterTimer | ruvia-core/src/worker_timers.cpp:38-54 | on the worker: a registration that is not active changes nothing; an active one silently withdrawn has its completion destroyed, and notified its slot flagged and the handler queued |
| WorkerTimers.TimerQueue.ForeignDeactivate | ruvia-core/src/worker_timers.cpp:46-51 | a foreign claim succeeds iff the activity word still holds the generation, and then only silences that timer |
| WorkerTimers.TimerQueue.ForeignPost | ruvia-core/src/worker_timers.cpp:189-211 | a foreign cancellation queues its handler unless the queue has stopped |
| WorkerTimers.TimerQueue.RunPosted | ruvia-core/src/worker_timers.cpp:201-206 | the handler withdraws the timer it names, delivered as cancelled if it was to be notified and nobody silenced it in time, destroyed otherwise; if the slot has another occupant nothing changes; a claim inside the race window is lost; of the handlers queued before only this one leaves the queue |
| WorkerTimers.TimerQueue.TakeTimer | ruvia-core/src/worker_timers.cpp:277-289 | afterwards the handle is dead; its timer got the cancelled outcome exactly if notified and not silenced in time |
| WorkerTimers.TimerQueue.StopTimers | ruvia-core/src/worker_timers.cpp:291-325 | no timer is pending afterwards and none expires; every timer that was pending is delivered as cancelled unless it was silenced or the user code of the sweep withdrew it silently |
| WorkerTimers.TimerQueue.ArmTimer | ruvia-core/src/worker_timers.cpp:327-360 | afterwards the front is live, and one fresh wait ends exactly at its deadline unless nothing is pending, the queue stopped or starting the wait failed |
| WorkerTimers.TimerQueue.NoteStaleTimer | ruvia-core/src/worker_timers.cpp:238-266 | counts one dead entry and leaves a live or no front, with fewer than 64 dead entries or fewer than half |
| WorkerTimers.TimerQueue.ReleaseTimerSlot | ruvia-core/src/worker_timers.cpp:430-440 | the slot is free, first on the chain and inactive, and its occupant has exactly one fate more |
| WorkerTimers.TimerQueue.Run | ruvia-core/src/worker_timers.cpp:187-407 | over every sequence of handlers, reentrant turns and foreign races: the queue is settled between handlers, no fate ever changes, and a slot and generation whose timer is gone never denote a timer again |
| WorkerTimers.TimerQueue.EveryTimerHasOneFate | ruvia-core/src/worker_timers.cpp:277-440 | a pending timer has no fate and any other exactly one; it expired only if nothing withdrew it outside the race window; a silenced one was delivered iff the silencing lost that race |
| WorkerTimers.TimerQueue.HeapIsExact | ruvia-core/src/worker_timers.cpp:238-266 | wherever user code can run while the queue runs, each pending unflagged slot has exactly one heap entry and the stale count is the number of dead ones |
| WorkerTimers.TimerQueue.NothingIsForgotten | ruvia-core/src/worker_timers.cpp:327-360 | between handlers an armed, outstanding wait ends no later than any live deadline |
| WorkerTimers.TimerQueue.NotifiedIsHeard | ruvia-core/src/worker_timers.cpp:213-236 | over every run: a timer withdrawn by notified cancellations alone, which nobody silenced or withdrew silently, is never destroyed; between handlers it was delivered as cancelled or its handler is queued |
| WorkerTimers.CancellationCanLoseTheRace | ruvia-core/src/worker_timers.cpp:282-288 | from an empty queue, handler by handler: a foreign silent cancellation succeeds and the completion runs as cancelled all the same |
| WorkerTimers.SilencedTimerCanExpire | ruvia-core/src/worker_timers.cpp:384-388 | from an empty queue, handler by handler: a foreign silent cancellation succeeds and the completion runs as expired all the same |
| TimerHeap.FrontPrecedesAll | ruvia-core/src/worker_dispatcher_impl.h:64-70 | the front of a heap in this order comes before every other entry, by deadline and then by registration |
| DispatcherSteps.EachTaskHasOneFate | ruvia-core/src/worker_dispatcher.cpp:116-191 | over every interleaving each task moved into a node is run once, destroyed once or held by one node |
| DispatcherSteps.RunsFollowPublication | ruvia-core/src/worker_dispatcher.cpp:554-655 | runs follow publication order, and a task published while a batch runs never runs in that batch |
| DispatcherSteps.IdleMeansIdle | ruvia-core/src/worker_dispatcher.cpp:277-305 | whenever any step of any run calls an idle callback, all nodes are free and every task that was moved in has run or was destroyed; each callback is called or refused at most once |
| DispatcherSteps.NothingIsLeftBehind | ruvia-core/src/worker_dispatcher.cpp:554-655 | when nothing can go on any more every task ran or was destroyed and no idle callback waits; without failure or detachment every task whose publication returned ran |
| DispatcherSteps.AdmissionFindsNode | ruvia-core/src/worker_dispatcher.cpp:102-114 | an accepted reservation finds a free node, although a failed batch can push the pending count past the capacity |
| DispatcherSteps.AdmissionIff | ruvia-core/src/worker_dispatcher.cpp:102-114 | in every reachable state a reservation is accepted iff the worker is attached and accepting and fewer nodes are pending than the capacity, stopping iff it is not both, full otherwise |
| DispatcherSteps.FreshWorkerAdmitsCapacity | ruvia-core/src/worker_dispatcher.cpp:102-114 | from the start as many reservations as the capacity are accepted, and the next one is refused as full |
| DispatcherSteps.OpenUntilStopped | ruvia-core/src/worker_dispatcher.cpp:448-464 | a worker that nobody stops or detaches stays open, whatever its steps |
| DispatcherSteps.StopCloses | ruvia-core/src/worker_dispatcher.cpp:448-464 | a stop closes admission, and the first one opens the notification batch |
| DispatcherSteps.WhenIdleAnswer | ruvia-core/src/worker_dispatcher.cpp:277-298 | in every reachable state when_idle is refused iff detached, called at once iff no node holds anything, queued otherwise |
| DispatcherSteps.WaitersOfBatchAreTold | ruvia-core/src/worker_dispatcher.cpp:260-275 | over every run each callback that waits for the notification batch is called once, and none waits without an open batch |
| DispatcherSteps.FailureIsRaised | ruvia-core/src/worker_dispatcher.cpp:599-650 | a worker fails exactly by a task that throws or a drain that cannot be posted |
| DispatcherSteps.ReservationsAreAwaited | ruvia-core/src/worker_dispatcher.cpp:439-442 | wait_for_reservations is through exactly when no node is pending |
| DispatcherSteps.CloseAloneAbandonsNothing | ruvia-core/src/worker_dispatcher.cpp:448-464 | runs with neither a failure nor a detachment never abandon queued work, close() or not |
| WorkerDispatcher.Dispatcher.constructor | ruvia-core/src/worker_dispatcher.cpp:51-71 | twice the capacity of nodes, chained and free |
| WorkerDispatcher.Dispatcher.Reserve | ruvia-core/src/worker_dispatcher.cpp:102-114 | the linked node slab does what the reservation step does: accepted iff attached, accepting and fewer pending than the capacity |
| WorkerDispatcher.Dispatcher.MoveIn | ruvia-core/src/worker_dispatcher.cpp:128-129 | the reserved node holds the next task, and every list of the slab is as it was |
| WorkerDispatcher.Dispatcher.Publish | ruvia-core/src/worker_dispatcher.cpp:155-170 | queued exactly if draining is not abandoned, the context is attached and posting the drain succeeds; otherwise the task is its caller's to release |
| WorkerDispatcher.Dispatcher.GiveUp | ruvia-core/src/worker_dispatcher.cpp:141-150 | a factory that threw leaves its node to be released |
| WorkerDispatcher.Dispatcher.PushReadyLocked | ruvia-core/src/worker_dispatcher.cpp:91-100 | the node is the last of the ready list |
| WorkerDispatcher.Dispatcher.ReleaseEmpty | ruvia-core/src/worker_dispatcher.cpp:172-191 | a node without a task returns to the free list and the idle callbacks due are called |
| WorkerDispatcher.Dispatcher.ReleaseNext | ruvia-core/src/worker_dispatcher.cpp:531-535 | the next node of an abandoned chain returns to the free list, its task destroyed and the idle callbacks due called |
| WorkerDispatcher.Dispatcher.SpliceReady | ruvia-core/src/worker_dispatcher.cpp:521-528 | the whole ready list becomes an abandoned chain, still pending |
| WorkerDispatcher.Dispatcher.BeginDrain | ruvia-core/src/worker_dispatcher.cpp:563-580 | the ready list becomes the batch, in order, or is left to be abandoned |
| WorkerDispatcher.Dispatcher.StartTask | ruvia-core/src/worker_dispatcher.cpp:594-598 | the next task of the batch starts, and what follows it was read first |
| WorkerDispatcher.Dispatcher.DropTask | ruvia-core/src/worker_dispatcher.cpp:630-633 | the task that ran leaves its node and the cursor moves on |
| WorkerDispatcher.Dispatcher.FailTask | ruvia-core/src/worker_dispatcher.cpp:599-614 | the batch through the failed node is free, the rest is a pending chain, and admission closes in the same section |
| WorkerDispatcher.Dispatcher.EndBatch | ruvia-core/src/worker_dispatcher.cpp:636-650 | the batch is free again; what was published meanwhile has a drain of its own, unless posting it failed |
| WorkerDispatcher.Dispatcher.TakeIdle | ruvia-core/src/worker_dispatcher.cpp:622-627 | the failure path calls the idle callbacks that are due |
| WorkerDispatcher.Dispatcher.BeginStopping | ruvia-core/src/worker_dispatcher.cpp:448-464 | closes admission; true exactly for the first caller, which opens the one notification batch |
| WorkerDispatcher.Dispatcher.FinishNotifying | ruvia-core/src/worker_dispatcher.cpp:509-518 | ends the batch and calls exactly the callbacks that waited for it |
| WorkerDispatcher.Dispatcher.DetachContext | ruvia-core/src/worker_dispatcher.cpp:389-402 | detaches once, closing admission and leaving the ready list to be abandoned |
| WorkerDispatcher.Dispatcher.WhenIdle | ruvia-core/src/worker_dispatcher.cpp:277-298 | queued while work is pending or active, refused once detached, called at once otherwise |
| WorkerDispatcher.Dispatcher.WhenNotified | ruvia-core/src/worker_dispatcher.cpp:260-275 | queued while the batch is under way, called at once otherwise |
| WorkerNotification.NoLostWakeup | ruvia-core/src/worker_notification.cpp:92-188 | over every interleaving of any number of producers: while open, a parked consumer with the latch set or a call unanswered has a token to wake it or a producer about to send one |
| WorkerNotification.EveryCallIsAnswered | ruvia-core/src/worker_notification.cpp:92-345 | once every producer returned and the consumer can only sleep, each accepted call, coalesced ones included, was answered by a notified wait that ended after it |
| WorkerNotification.ClosedStaysClosed | ruvia-core/src/worker_notification.cpp:202-243 | every call that begins after close is refused, and close is for good |
| WorkerNotification.NotifiedMeansSent | ruvia-core/src/worker_notification.cpp:92-125 | over every interleaving notify() answers notified exactly to the calls that added a token, and every token was added by one call |
| WorkerNotification.FirstCallSignals | ruvia-core/src/worker_notification.cpp:92-125 | an undisturbed call that finds the latch clear sets it and adds a token unless the channel is full |
| WorkerNotification.LaterCallCoalesces | ruvia-core/src/worker_notification.cpp:92-125 | one that finds it set leaves the channel alone and answers coalesced |
| WorkerNotification.ReadyWaitReturns | ruvia-core/src/worker_notification.cpp:125-149 | a wait that finds the latch or a token returns, having taken the latch and answered everybody who waited |
| WorkerNotification.TokenWakes | ruvia-core/src/worker_notification.cpp:314-345 | a parked consumer is woken by a token and takes it and the latch |
| WorkerNotification.NotificationState.EnterProducer | ruvia-core/src/worker_notification.cpp:229-243 | enters exactly if open |
| WorkerNotification.NotificationState.SetLatch | ruvia-core/src/worker_notification.cpp:103-105 | the exchange of the latch is the producer's exchange step |
| WorkerNotification.NotificationState.SignalNative | ruvia-core/src/worker_notification_posix.cpp:81-105 | a token is added unless the channel is full |
| WorkerNotification.NotificationState.LeaveProducer | ruvia-core/src/worker_notification.cpp:245-250 | the producer count is exact |
| WorkerNotification.NotificationState.DrainReceiver | ruvia-core/src/worker_notification_posix.cpp:111-145 | a successful read takes what the channel held |
| WorkerNotification.NotificationState.TakeLatch | ruvia-core/src/worker_notification.cpp:141-147 | ready unless neither a token, an error nor the latch was there; the latch is clear afterwards |
| WorkerNotification.NotificationState.BeginWait | ruvia-core/src/worker_notification.cpp:151-188 | suspends exactly if open, without a second look at the latch |
| WorkerNotification.NotificationState.NativeWaitEnded | ruvia-core/src/worker_notification.cpp:314-345 | a closed notification reports closed, an open one goes on to consume tokens and latch |
| WorkerNotification.NotificationState.Close | ruvia-core/src/worker_notification.cpp:202-227 | closed for good |
| WorkerStopChain.EachHappensOnce | ruvia-core/src/worker_stop_chain.cpp:20-115 | over every interleaving at most one control is queued, admission is stopped, finalize_ called and the guard released at most once each, the release right after finalize_ unless the chain was abandoned |
| WorkerStopChain.OnlyCallersTouchTheChainAfterFinalize | ruvia-core/src/worker_stop_chain.cpp:79-115 | after finalize_ no queued or running control and no batch callback is left; the chain is touched exactly by calls from outside that were entered and have not reached their section |
| WorkerStopChain.ChainIsLeftAlone | ruvia-core/src/worker_stop_chain.cpp:79-115 | after finalize_ with no such call in flight and none started later, nothing ever touches the chain |
| WorkerStopChain.ReleaseIsOwed | ruvia-core/src/worker_stop_chain.cpp:42-115 | once finalize() was called the release is owed by exactly one of a closing request, the notification batch, a queued or a running control, and that one can go on |
| WorkerStopChain.ControlFollowsBatch | ruvia-core/src/worker_stop_chain.cpp:20-40 | over every interleaving no control is queued or has run before the notification batch has ended |
| WorkerStopChain.FinalizeIsNotLost | ruvia-core/src/worker_stop_chain.cpp:42-53 | a call of finalize() is still on its way, and can go on, or the finalization is requested, unless the chain was abandoned |
| WorkerStopChain.FirstControlActs | ruvia-core/src/worker_stop_chain.cpp:79-92 | over every run the first control stops admission if the owner has that hook and finalizes if it has none |
| WorkerStopChain.CallerCanTouchTheChainAfterFinalize | ruvia-core/src/worker_stop_chain.cpp:55-115 | a run, step by step: finalize_ has run, and a post_control that was entered before takes the mutex next |
| WorkerStopChain.StopChain.RequestStop | ruvia-core/src/worker_stop_chain.cpp:20-28 | only the first caller goes on to close the dispatcher |
| WorkerStopChain.StopChain.NotificationsComplete | ruvia-core/src/worker_stop_chain.cpp:33-36 | the end of the batch queues the one control |
| WorkerStopChain.StopChain.Finalize | ruvia-core/src/worker_stop_chain.cpp:42-53 | a control that ran already is queued again, one that has not will see the request |
| WorkerStopChain.StopChain.BeginControl | ruvia-core/src/worker_stop_chain.cpp:79-92 | admission is stopped by the first control only |
| WorkerStopChain.StopChain.Decide | ruvia-core/src/worker_stop_chain.cpp:96-104 | the control takes the guard exactly if finalization was requested and the guard is still there |
| WorkerStopChain.StopChain.PostControl | ruvia-core/src/worker_stop_chain.cpp:55-62 | accepted exactly while the work guard is held |
| WorkerStopChain.StopChain.Abandon | ruvia-core/src/worker_stop_chain.cpp:64-73 | takes the guard at most once |
| LoopRetirement.RetiresOnce | ruvia-core/src/event_loop.cpp:323-377 | over every joint run of loop and dispatcher the finalize callback is taken at most once, with the gate sealed and drained and the notification batch complete, and after a moment since that completion when the dispatcher had no work at all |
| LoopRetirement.NoRootAfterClose | ruvia-core/src/event_loop_state.h:63-104 | from the moment stop() closes root admission the number of root leases never grows |
| LoopRetirement.CleanupDelaysRetirement | ruvia-core/src/event_loop_state.h:48-55 | cleanup is admitted until the claim, sealed gate or not, and while any is pending nothing is claimed |
| LoopRetirement.ListenersFindGateOpen | ruvia-core/src/event_loop.cpp:168-180 | a listener that is told of the stop finds the gate open, so its begin() never terminates the process |
| LoopRetirement.EveryListenerIsTold | ruvia-core/src/event_loop.cpp:168-180 | once the notification batch is complete, on a context that is not shut down, every listener was told or had been cancelled, and one that was told holds the gate until its callback has ended |
| LoopRetirement.RetirementIsNotLost | ruvia-core/src/event_loop.cpp:323-377 | whatever stop() waits for can still happen, and once the gate is sealed and every holder done the callback has been taken |
| AttachedLoop.FinalizesWhenRetired | ruvia-core/src/event_loop.cpp:261-276 | over every run of loop, dispatcher and stop chain as one machine: finalize_ runs at most once, only for a loop that has retired and whose context is not shut down; the work guard is released at most once |
| AttachedLoop.StoppedLoopEnds | ruvia-core/src/event_loop.cpp:323-397 | a stopped loop whose leases, cleanups and stop callbacks are done ends: when nothing is under way any more, finalize_ ran once, the work guard was released once right after it, and the worker is detached |
| LoopRetirement.Retirement.TryBegin | ruvia-core/src/event_loop_state.h:39-46 | counts one more exactly if neither sealed nor finalized |
| LoopRetirement.Retirement.TryBeginCleanup | ruvia-core/src/event_loop_state.h:48-55 | counts one more exactly if not finalized |
| LoopRetirement.Retirement.TryAcquire | ruvia-core/src/event_loop_state.h:63-70 | a root lease is counted exactly while the gate is open to roots |
| LoopRetirement.Retirement.FinishOne | ruvia-core/src/event_loop_state.h:81-94 | claims exactly if it takes a sealed, unfinalized gate to zero |
| LoopRetirement.Retirement.SealGate | ruvia-core/src/event_loop_state.h:117-127 | claims exactly if the count is zero and nobody claimed before |
| StopSteps.CallbackRunsOnce | ruvia-core/src/stop_token.cpp:22-49 | over every interleaving a callback runs at most once, inline when the stop came first or because its node was popped |
| StopSteps.PoppedNodeIsAlive | ruvia-core/src/stop_token.cpp:29-41 | the requester never enters the callback of a node whose unlink returned |
| StopSteps.UnlinkIsFinal | ruvia-core/src/stop_token.cpp:73-104 | after an unlink returned the node is off the list for good and its callback never starts; it can only still be running if it destroyed its own node |
| StopSteps.PopOrUnlink | ruvia-core/src/stop_token.cpp:73-86 | an unlink that comes before the pop keeps the callback from ever running |
| StopSteps.StopReachesEverybody | ruvia-core/src/stop_token.cpp:22-49 | once the request is through, every callback still registered was invoked |
| StopSteps.EveryCallbackRuns | ruvia-core/include/ruvia/core/stop_token.h:270-297 | over every run: when the request is through, a callback that was registered and never reset has run exactly once, whether its registration came after the stop, was overtaken by it or came before it |
| StopSteps.PendingResetWins | ruvia-core/include/ruvia/core/stop_token.h:241-245 | a reset that finds the registration under way keeps its callback from ever running |
| StopSteps.NobodyRunsBeforeStop | ruvia-core/src/stop_token.cpp:22-49 | no callback runs before a stop is requested |
| StopSteps.RegistrationAnswers | ruvia-core/include/ruvia/core/stop_token.h:270-285 | a registration after the stop has run its callback when it returns, one before it is still to be linked |
| StopSteps.LinkIffFirst | ruvia-core/src/stop_token.cpp:51-71 | a registration is linked, in front, exactly if both the stop and a reset are still to come |
| StopSteps.ResetTakesHold | ruvia-core/include/ruvia/core/stop_token.h:234-255 | a reset of a registration under way or linked always takes hold, and of any other does nothing |
| StopSteps.UnlinkWaitsForOthers | ruvia-core/src/stop_token.cpp:87-104 | an unlink waits exactly while the callback runs on another thread |
| StopSteps.BlockedUnlinkIsAwaited | ruvia-core/src/stop_token.cpp:96-104 | a blocked unlink waits for a running callback that knows it is awaited, or can go on |
| StopSteps.ReturnWakesEverybody | ruvia-core/src/stop_token.cpp:42-47 | the return of the callback lets every blocked unlink of it go, whoever runs next |
| StopState.StopState.Emplace | ruvia-core/include/ruvia/core/stop_token.h:270-285 | a stop that was requested runs the callback at once; otherwise a registering node exists |
| StopState.StopState.Link | ruvia-core/src/stop_token.cpp:51-71 | linked at the front exactly if no stop was requested and the registration was not reset meanwhile |
| StopState.StopState.Reset | ruvia-core/include/ruvia/core/stop_token.h:234-255 | claimed exactly if registered |
| StopState.StopState.Withdraw | ruvia-core/include/ruvia/core/stop_token.h:286-296 | a refused registration runs its callback exactly if the stop, not a reset, refused it |
| StopState.StopState.Unlink | ruvia-core/src/stop_token.cpp:73-104 | the doubly linked list loses the node, or the caller waits on the epoch it read, or the node is gone |
| StopState.StopState.Wake | ruvia-core/src/stop_token.cpp:97-103 | a woken unlink is through unless its callback still runs |
| StopState.StopState.Request | ruvia-core/src/stop_token.cpp:22-40 | the first request pops the front node, later ones do nothing |
| StopState.StopState.Return | ruvia-core/src/stop_token.cpp:41-48 | waiters are let go and the next node is popped |
| PoolLeaseSteps.LeasesAreExclusive | ruvia-core/src/pool_lease_scheduler.cpp:69-118 | in every reachable state a slot is listed as free exactly once, or out on exactly one lease |
| PoolLeaseSteps.NobodyIsForgotten | ruvia-core/src/pool_lease_scheduler.cpp:208-260 | a suspended coroutine waits with every slot out, or is owed exactly one resumption with a result |
| PoolLeaseSteps.CommittedHandoffStands | ruvia-core/src/pool_waiter_queue.h:50-64 | a slot handed over on release stays with the oldest waiter, whatever cancels, expires or closes later |
| PoolLeaseSteps.FirstComeFirstServed | ruvia-core/src/pool_waiter_queue.h:19-64 | nobody behind a waiter is handed a slot while that waiter is still queued |
| PoolLeaseSteps.NobodyIsOvertaken | ruvia-core/src/pool_lease_scheduler.cpp:69-86 | a slot is taken without waiting only when nobody is queued |
| PoolLeaseSteps.ClosedForGood | ruvia-core/src/pool_lease_scheduler.cpp:111-118 | closing answers everybody queued with closed for good, and nobody is queued afterwards |
| PoolLeaseSteps.WaiterIdsAreUnique | ruvia-core/src/pool_lease_scheduler.cpp:88-94 | two queued acquires never have the same waiter id |
| PoolLeaseSteps.PostedCancelsItsOwner | ruvia-core/src/pool_lease_scheduler.cpp:59-65 | a posted cancellation settles the queued acquire with its id and no other |
| PoolLeaseSteps.AwaitIsAnswered | ruvia-core/src/pool_lease_scheduler.cpp:69-86 | an await is answered closed once the scheduler is closing, else cancelled if its stop was requested, else with a free slot, else with its elapsed deadline or its stop; otherwise it is the last in the queue, with its registrations |
| PoolLeaseSteps.WaiterIsAnswered | ruvia-core/src/pool_waiter_queue.h:50-121 | a queued waiter is answered by its own handoff, deadline and stop and by the close, by nothing else, and then owed a resumption |
| PoolLeaseSteps.LatestReleaseIsLeased | ruvia-core/src/pool_lease_scheduler.cpp:96-109 | the slot released last is the next one leased |
| PoolLeaseSteps.StopElsewhereCancels | ruvia-core/src/pool_lease_scheduler.cpp:50-66 | a stop on another thread has cancelled its waiter once the worker ran what was posted |
| PoolLeaseScheduler.PoolWaiterQueue.Enqueue | ruvia-core/src/pool_waiter_queue.h:19-29 | the links spell the queue with the waiter at its end |
| PoolLeaseScheduler.PoolWaiterQueue.Remove | ruvia-core/src/pool_waiter_queue.h:31-48 | the links spell the queue without the waiter, which may not have been there |
| PoolLeaseScheduler.PoolWaiterQueue.CommitHandoff | ruvia-core/src/pool_waiter_queue.h:50-64 | the oldest waiter has the slot, is off the queue and disarmed |
| PoolLeaseScheduler.PoolWaiterQueue.CommitCancellation | ruvia-core/src/pool_waiter_queue.h:82-95 | a queued waiter is answered with cancelled and its deadline withdrawn |
| PoolLeaseScheduler.PoolWaiterQueue.Expire | ruvia-core/src/pool_waiter_queue.h:97-106 | a queued waiter is answered with timed out and disarmed |
| PoolLeaseScheduler.PoolWaiterQueue.CloseEveryone | ruvia-core/src/pool_waiter_queue.h:108-121 | every queued waiter is answered with closed, in order |
| PoolLeaseScheduler.PoolLeaseScheduler.Await | ruvia-core/src/pool_lease_scheduler.cpp:197-252 | from await_ready to the return of await_suspend: leased at once, answered at once, suspended, or refused the second time |
| PoolLeaseScheduler.PoolLeaseScheduler.Release | ruvia-core/src/pool_lease_scheduler.cpp:96-109 | the slot goes to the oldest waiter or back to the free list |
| PoolLeaseScheduler.PoolLeaseScheduler.CloseScheduler | ruvia-core/src/pool_lease_scheduler.cpp:111-118 | true exactly the first time |
| PoolLeaseScheduler.PoolLeaseScheduler.RequestCancellation | ruvia-core/src/pool_lease_scheduler.cpp:50-66 | on the worker the waiter is answered and its resumption deferred, elsewhere the id is posted |
| PoolLeaseScheduler.PoolLeaseScheduler.RunPostedCancellation | ruvia-core/src/pool_lease_scheduler.cpp:62-65 | the queue is searched by id, and a waiter found is answered and resumed |
| PoolLeaseScheduler.PoolLeaseScheduler.AwaitResume | ruvia-core/src/pool_lease_scheduler.cpp:254-260 | the coroutine receives the one result recorded |
| PoolLeaseScheduler.PoolLeaseScheduler.DestroyAcquire | ruvia-core/src/pool_lease_scheduler.cpp:161-174 | the destroyed acquire leaves queue, deadline and stop registration |
| BlockingPoolSteps.EachIsCountedOnce | ruvia-core/src/blocking_pool.cpp:322-374 | over every interleaving each submission is exactly one of reserved, queued, running, completed, rejected or discarded, and the counters are those numbers |
| BlockingPoolSteps.StorageSuffices | ruvia-core/src/blocking_pool.cpp:322-357 | an admitted submission finds a node, the ring takes its task, and whoever takes one finds one: the three terminating branches are dead |
| BlockingPoolSteps.NothingStartsAfterStop | ruvia-core/src/blocking_pool.cpp:126-133 | once stop is published no task starts and none is published |
| BlockingPoolSteps.StartedInOrder | ruvia-core/src/blocking_pool.cpp:126-160 | tasks start in the order of publication |
| BlockingPoolSteps.JoinReturnsLast | ruvia-core/src/blocking_pool.cpp:218-254 | when join() has returned, and ever after, every thread has left, nothing runs, no submission holds a node and nobody else drains |
| BlockingPoolSteps.NobodySleepsOnWork | ruvia-core/src/blocking_pool.cpp:126-133 | sleeping threads and joiners are covered by wake-ups under way, whatever spurious ones occur |
| BlockingPoolSteps.SubmissionIsAnswered | ruvia-core/src/blocking_pool.cpp:329-342 | a submission is discarded iff the pool has stopped, else rejected iff queue and reservations fill the capacity, else reserved |
| BlockingPoolSteps.FreshPoolAdmitsCapacity | ruvia-core/src/blocking_pool.cpp:329-342 | a fresh pool reserves for as many submissions as its capacity and rejects the next |
| BlockingPoolSteps.StopTakesTheQueue | ruvia-core/src/blocking_pool.cpp:163-180 | the first stop discards exactly what is queued |
| BlockingPoolSteps.NothingDiscardedUnlessStopped | ruvia-core/src/blocking_pool.cpp:329-374 | without a stop nothing is ever discarded |
| BlockingPool.Pool.constructor | ruvia-core/src/blocking_pool.cpp:79-92 | capacity plus threads nodes, chained and free |
| BlockingPool.Pool.Reserve | ruvia-core/src/blocking_pool.cpp:329-342 | the first section of submit(): stopped, full or a node |
| BlockingPool.Pool.Publish | ruvia-core/src/blocking_pool.cpp:344-357 | the second: into the ring unless the pool stopped since |
| BlockingPool.Pool.Withdraw | ruvia-core/src/blocking_pool.cpp:358-371 | the third: the node returns, and the last reservation notifies everybody |
| BlockingPool.Pool.TakeWork | ruvia-core/src/blocking_pool.cpp:126-139 | leave, sleep or take the oldest task |
| BlockingPool.Pool.FinishWork | ruvia-core/src/blocking_pool.cpp:155-159 | the node is free and the completion counted |
| BlockingPool.Pool.BeginStop | ruvia-core/src/blocking_pool.cpp:163-180 | the first stop discards and counts what is queued and owns its destruction |
| BlockingPool.Pool.Drain | ruvia-core/src/blocking_pool.cpp:186-202 | every dropped node returns to the free list, and no counter changes |
| BlockingPool.Pool.BeginJoin | ruvia-core/src/blocking_pool.cpp:224-236 | one joiner at a time joins the threads |
| BlockingPool.Pool.EndJoin | ruvia-core/src/blocking_pool.cpp:249-253 | returns exactly if nothing is reserved and nobody else drains |
| LocalRingQueue.RingQueue.TryPush | ruvia-core/include/ruvia/core/local_ring_queue.h:149-167 | appends, or fails exactly when full |
| LocalRingQueue.RingQueue.TryPop | ruvia-core/include/ruvia/core/local_ring_queue.h:102-110 | takes the first, or fails exactly when empty |
| QuicVarint.DecodeVarint | ruvia-http/src/util/quic_varint.h:27-42 | the value of the tagged big-endian digits, or incomplete |
| QuicVarint.EncodeVarint | ruvia-http/src/util/quic_varint.h:44-62 | writes exactly the encoding at the offset and nothing else, or reports what does not fit |
| QuicVarint.RoundTrip | ruvia-http/src/util/quic_varint.h:21-62 | decoding undoes encoding, whatever follows, and no proper prefix decodes |
| QuicVarint.EncodingIsShortest | ruvia-http/src/util/quic_varint.h:44-62 | no encoding of a value is shorter than the one written |
| QuicVarint.ExamplesOfTheStandard | ruvia-http/src/util/quic_varint.h:21-42 | the examples of appendix A.1 of RFC 9000, in every length |
| CapsuleProtocol.MachineIsParse | ruvia-http/src/http_datagram.cpp:84-208 | for every input the byte machine delivers what a parse of the whole input says, and ends with its status |
| CapsuleProtocol.PiecesDoNotMatter | ruvia-http/src/http_datagram.cpp:84-208 | however the input is cut, the deliveries and the state are those of the uncut input |
| CapsuleProtocol.CapsuleRoundTrip | ruvia-http/src/http_datagram.cpp:59-71 | an encoded header and its payload, if kept, are parsed back, and the rest as if alone |
| CapsuleProtocol.WantedAreDelivered | ruvia-http/src/http_datagram.cpp:84-208 | of any list of capsules exactly those the retention promises are delivered, whole and in order: all, those of type 0, or those of type 0 with Context ID 0 or none; what is not wanted may be of any length |
| CapsuleProtocol.MachineDelivers | ruvia-http/src/http_datagram.cpp:84-208 | the byte machine delivers exactly these, and ends at the end of the stream |
| CapsuleProtocol.TooLongIsRefused | ruvia-http/src/http_datagram.cpp:127-150 | a wanted capsule over the limit ends the stream with what came before it |
| CapsuleProtocol.CutIsTruncated | ruvia-http/src/http_datagram.cpp:84-208 | a capsule cut short anywhere is reported as truncated |
| CapsuleProtocol.TypeComesFirst | ruvia-http/src/http_datagram.cpp:59-71 | on the wire the type comes before the length |
| CapsuleDecoder.Decoder.HeaderByte | ruvia-http/src/http_datagram.cpp:109-150 | one header octet in the two fixed buffers is one step of the machine; the header buffer never overflows |
| CapsuleDecoder.Decoder.ContextIdByte | ruvia-http/src/http_datagram.cpp:156-182 | one octet of a Context ID is one step of the machine |
| CapsuleDecoder.Decoder.FeedImpl | ruvia-http/src/http_datagram.cpp:84-208 | what was consumed is the machine's run over it; with one set, it stops exactly after a capsule ends |
| CapsuleDecoder.Decoder.FeedInput | ruvia-http/src/http_datagram.cpp:78-80 | consumes everything, unless the limit was hit |
| CapsuleDecoder.Decoder.PullAll | ruvia-http/src/http_datagram.cpp:81-83 | feed_one called until nothing is left delivers what feed delivers |
| CapsuleDecoder.DecodeStream | ruvia-http/src/http_datagram.cpp:78-208 | for every cut of every input the deliveries and the status are those of the parse of the whole |
| CapsuleDecoder.EncodeCapsuleHeader | ruvia-http/src/http_datagram.cpp:59-71 | writes exactly the two variable-length integers, or reports what does not fit |
| CapsuleDecoder.PlanDatagramCapsule | ruvia-http/src/http_datagram.cpp:16-32 | the prefix is the header of prefix and payload together, then the prefix |
| CapsuleDecoder.PlanParsesBack | ruvia-http/src/http_datagram.cpp:16-32 | sent before its payload, a plan is parsed back by every receiver that keeps it |
| ChunkedCoding.CallAgrees | ruvia-http/src/http1/http1_chunked_body_decoder.cpp:45-162 | whatever arrives later, one call is a step of the parse of the whole message |
| ChunkedCoding.AcceptedIffWellFormed | ruvia-http/src/http1/http1_chunked_body_decoder.cpp:45-162 | a message completes iff it is chunks, a last line and a trailer section by the grammar within the limits |
| ChunkedCoding.WellFormedIsAccepted | ruvia-http/src/http1/http1_chunked_body_decoder.cpp:45-162 | such a message gives its chunks' data and its trailers, and what follows is left alone |
| ChunkedCoding.AcceptedIsWellFormed | ruvia-http/src/http1/http1_chunked_body_decoder.cpp:45-162 | what was accepted is such a message, spelled exactly by the bytes consumed |
| ChunkedCoding.BodyWithinLimit | ruvia-http/src/http1/http1_chunked_body_decoder.cpp:90-95 | the body never exceeds the limit |
| ChunkedCoding.CallKeepsBudget | ruvia-http/src/http1/http1_chunked_body_decoder.cpp:79-95 | announced data stays within the body limit and framing overhead within its budget; a fragment is not empty and fits the quota |
| ChunkedCoding.NeedIsReal | ruvia-http/src/http1/http1_chunked_body_decoder.cpp:62-69 | a call that needs more bytes is right: with no more the message is incomplete |
| ChunkedCoding.RejectedIff | ruvia-http/src/http1/http1_chunked_body_decoder.cpp:45-162 | a message is rejected with an error iff after well-formed chunks it has a fault of that kind: a line without LF or with more overhead than the budget, a bare LF, no size line, a size over the body limit, a missing CRLF, trailers too long, invalid or with a bare LF |
| ChunkedCoding.CallIsGreedy | ruvia-http/src/http1/http1_chunked_body_decoder.cpp:97-130 | a fragment stops only for the quota, the end of its chunk or the bytes at hand, and the end of the chunk is read along if it is there |
| ChunkedCoding.ResumeTrailers | ruvia-http/src/http1/http1_chunked_body_decoder.cpp:131-149 | resuming the trailer search at a saved offset finds what searching from the start finds |
| Http1ChunkedBodyDecoder.Decoder.DecodeAvailable | ruvia-http/src/http1/http1_chunked_body_decoder.cpp:45-162 | the loop with its saved offsets does what a call that rescans from the start does |
| Http1ChunkedBodyDecoder.DecodeMessage | ruvia-http/src/http1/http1_chunked_body_decoder.cpp:45-162 | for every cut and every quotas the message ends as the whole parses, with the same body, trailers, rest or error |
| FieldValueScan.MaskFindsFirstInvalid | ruvia-http/src/field/field_value_scan.h:27-45 | for every eight bytes the mask is zero iff all are valid, and its lowest bit is in the first invalid one |
| FieldValueScan.PrefixSize | ruvia-http/src/field/field_value_scan.h:47-60 | the longest prefix of valid bytes |
| DotSegments.Normalize | ruvia-http/src/client/http_client_redirect.cpp:33-69 | fast path and loop have the segment-stack meaning of section 5.2.4 of RFC 3986, with empty segments kept |
| DotSegments.RemoveDotsByLoop | ruvia-http/src/client/http_client_redirect.cpp:41-68 | the loop that moves one segment at a time resolves the stack of all segments |
| DotSegments.DotsAreGone | ruvia-http/src/client/http_client_redirect.cpp:33-69 | the result starts with a slash, has no dot segment and is left alone by a second pass |
| DotSegments.UnchangedIffNoDots | ruvia-http/src/client/http_client_redirect.cpp:37-40 | a path is left alone iff it has no dot segment |
| DotSegments.DoubleDotGoesUp | ruvia-http/src/client/http_client_redirect.cpp:41-68 | ".." takes the segment before it away, wherever it stands; at the end of the path it leaves an empty segment |
| DotSegments.LeadingDoubleDotIsDropped | ruvia-http/src/client/http_client_redirect.cpp:41-68 | at the front of a path there is nothing to take away |
| DotSegments.DotStays | ruvia-http/src/client/http_client_redirect.cpp:41-68 | "." changes nothing, and leaves an empty segment at the end of the path |
| DotSegments.MergeReplacesLast | ruvia-http/src/client/http_client_redirect.cpp:122-135 | a one-segment reference replaces the last segment of the base |
| DotSegments.TargetPath | ruvia-http/src/client/http_client_redirect.cpp:97-147 | the path of the target in segments: the reference's own, the base's, or the reference's in the place of the base's last one |
| DotSegments.TargetQuery | ruvia-http/src/client/http_client_redirect.cpp:97-147 | the query of the target is the reference's, unless the reference is empty |
| DotSegments.TargetIsClean | ruvia-http/src/client/http_client_redirect.cpp:97-147 | every resolved path is absolute and, unless the base path is copied, without dot segments; the empty reference changes nothing |
| DotSegments.ResolvePathAndQuery | ruvia-http/src/client/http_client_redirect.cpp:76-153 | selection of path and query by sections 5.2.2 and 5.2.3 of RFC 3986, refusals included |
| CivilCalendar.DateOfDayNumber | ruvia-http/src/field/http_date.h:29-36 | day numbers and valid dates of the proleptic Gregorian calendar correspond |
| CivilCalendar.TimeOfUtc | ruvia-http/src/field/http_date.h:22-66 | the calendar fields of a time are in range and give the time back |
| CivilCalendar.UtcOfTime | ruvia-http/src/field/http_date.h:47-66 | valid fields without a leap second come back from their time |
| CivilCalendar.WeekdaysFollow | ruvia-http/src/field/http_date.h:22-46 | the epoch is a Thursday and the weekdays follow each other |
| CivilCalendar.MonthOffset | ruvia-http/src/field/http_date.h:29-36 | the days before a month are those of the closed formula of the civil calendar |
| HttpDate.FormatHttpDate | ruvia-http/src/field/http_date.cpp:151-195 | written exactly for the years 0 to 9999, each field at its fixed place |
| HttpDate.DateRoundTrip | ruvia-http/src/field/http_date.cpp:53-69 | for every such time reading the written date gives it back |
| HttpDate.AsctimeRoundTrip | ruvia-http/src/field/http_date.cpp:71-91 | the asctime spelling of every time reads back as the time |
| HttpDate.Rfc850RoundTrip | ruvia-http/src/field/http_date.cpp:106-144 | the RFC 850 spelling reads back as the time when two digits tell its year |
| HttpDate.ShortYearIsResolvedIff | ruvia-http/src/field/http_date.cpp:93-143 | two digits tell a year iff it is of the current century or the one before and the date neither lies more than fifty years ahead nor would, a century later, lie within them |
| HttpDate.NextCenturyIsReadAsLast | ruvia-http/src/field/http_date.cpp:93-104 | in 2099 the year 00 is read as 2000 |
| HttpDate.OnlyFixdatesAreRead | ruvia-http/src/field/http_date.cpp:53-69 | what is read as an IMF-fixdate is what would be written for its time, but for weekday and leap second |
| HttpDate.OnlyAsctimesAreRead | ruvia-http/src/field/http_date.cpp:71-91 | the same of an asctime-date, whose day may be padded with a zero |
| HttpDate.OnlyRfc850AreRead | ruvia-http/src/field/http_date.cpp:106-144 | the same of an rfc850-date and the last two digits of its year |
| HttpDate.ExampleOfTheStandard | ruvia-http/src/field/http_date.cpp:151-195 | the example of section 5.6.7 of RFC 9110 is written and read as that time |
| HttpDate.BlanksAroundADate | ruvia-http/src/field/http_date.cpp:197-206 | whitespace around a date makes no difference |
| HttpDate.ShortYearIsNotFarAhead | ruvia-http/src/field/http_date.cpp:93-143 | a two-digit year keeps its digits and never denotes a date more than fifty years ahead, nor a year a century back |
| HttpDate.ParseFixedDigits | ruvia-http/src/field/http_date.cpp:39-51 | the number spelled by digits only |
| SetCookie.SetCookiePlan.Build | ruvia-http/src/cookie/cookies.cpp:22-108 | a plan exists exactly for the validated cookies whose Expires can be written |
| SetCookie.SetCookiePlan.Measure | ruvia-http/src/cookie/cookies.cpp:58-105 | the accumulated size is the length of the text that will be written |
| SetCookie.SetCookiePlan.Write | ruvia-http/src/cookie/cookies.cpp:144-190 | fills exactly size characters with the name, value and attributes |
| SetCookieParser.ParseSetCookie | ruvia-http/src/cookie/http_set_cookie.cpp:185-275 | the loop over offsets is a fold over the parts between semicolons |
| SetCookieParser.ParseCookieDate | ruvia-http/src/cookie/http_set_cookie.cpp:124-181 | the loop over tokens is a fold that gives each token to the first part missing that it can be |
| SetCookieParser.ParseMaxAge | ruvia-http/src/cookie/http_set_cookie.cpp:25-50 | an optional minus and digits only, capped at 400 days, saturating below |
| SetCookieParser.ConsumeDigits | ruvia-http/src/cookie/http_set_cookie.cpp:69-85 | the number accumulated digit by digit is the one spelled, and nothing is taken on failure |
| SetCookieParser.ApplyBySize | ruvia-http/src/cookie/http_set_cookie.cpp:213-268 | dispatching on the length of the attribute name decides as comparing the names does |
| CookieRoundTrip.MaxAgeIsRead | ruvia-http/src/cookie/http_set_cookie.cpp:25-50 | every written Max-Age is read back, capped |
| CookieRoundTrip.CookieDateRoundTrip | ruvia-http/src/cookie/http_set_cookie.cpp:124-181 | every written date from 1601 on is read back by the cookie date algorithm |
| CookieRoundTrip.ShortYearRoundTrip | ruvia-http/src/cookie/http_set_cookie.cpp:171-175 | the two-digit spelling of the years 1970 to 2069 is read back |
| CookieRoundTrip.AsctimeCookieRoundTrip | ruvia-http/src/cookie/http_set_cookie.cpp:124-181 | so is the asctime spelling |
| CookieRoundTrip.DateHasItsParts | ruvia-http/src/cookie/http_set_cookie.cpp:168-180 | a date is only ever read with its parts as they are, from 1601 on |
| CookieDates.DateInAnyOrder | ruvia-http/src/cookie/http_set_cookie.cpp:124-166 | a date with a four-digit year is read whatever the order of its clock, day, month and year and whatever separates them |
| CookieDates.TheRestIsIgnored | ruvia-http/src/cookie/http_set_cookie.cpp:124-166 | once the four parts were found, whatever follows is ignored |
| CookieDates.MonthIsItsLetters | ruvia-http/src/cookie/http_set_cookie.cpp:111-122 | a month is told by its first three letters in any case, whatever follows them |
| CookieDates.SuffixIsIgnored | ruvia-http/src/cookie/http_set_cookie.cpp:69-109 | a token may go on after the clock or the day, though not with a digit |
| CookieDates.WhatSeparates | ruvia-http/src/cookie/http_set_cookie.cpp:62-65 | HTAB and every printable character that is no letter, digit or colon |
| CookieRoundTrip.CookieIsRecovered | ruvia-http/src/cookie/http_set_cookie.cpp:185-275 | for every validated cookie the parser recovers wire name, value, absolute path, domain, flags, SameSite, capped Max-Age and Expires from what the writer writes |
| CookieRoundTrip.PathIsRecoveredIffAbsolute | ruvia-http/src/cookie/http_set_cookie.cpp:215-221 | the Path of a validated cookie survives iff it is empty or starts with a slash |
| CookieMeaning.AttributeAppended | ruvia-http/src/cookie/http_set_cookie.cpp:204-274 | one more attribute has an effect that depends only on what was read before it |
| CookieMeaning.PathIsRead | ruvia-http/src/cookie/http_set_cookie.cpp:215-221 | an absolute path counts; anything else takes back whatever path was given before |
| CookieMeaning.DomainIsRead | ruvia-http/src/cookie/http_set_cookie.cpp:222-229 | a leading dot is dropped and an empty domain ignored |
| CookieMeaning.ExpiresIsRead | ruvia-http/src/cookie/http_set_cookie.cpp:235-238 | the last date that can be read counts |
| CookieMeaning.MaxAgeMeaning | ruvia-http/src/cookie/http_set_cookie.cpp:25-50 | the last number that can be read counts: at most 400 days, negative down to what 64 bits hold, and nothing but an optional minus and digits |
| CookieMeaning.SameSiteMeaning | ruvia-http/src/cookie/http_set_cookie.cpp:246-255 | one of the three policies in any case; anything else takes back whatever was given before |
| CookieMeaning.FlagsAreRead | ruvia-http/src/cookie/http_set_cookie.cpp:230-263 | the flags count whatever their argument |
| CookieMeaning.WhatIsIgnored | ruvia-http/src/cookie/http_set_cookie.cpp:207-213 | an unknown attribute or one with a long argument is ignored, and a control character makes the whole cookie ignored |
| CookieMeaning.PairIsAcceptedIff | ruvia-http/src/cookie/http_set_cookie.cpp:185-203 | a pair is accepted iff it has an equals sign, a name, at most 4096 characters and no control character |
| CookieMeaning.WrittenIsStorable | ruvia-http/src/cookie/cookie_validation.h:124-142 | every cookie the writer lets through keeps, by what is read back from the wire, the promises of the name prefixes in any case, of SameSite=None and of Partitioned |
| CookieMeaning.LifetimeIsWritten | ruvia-http/src/cookie/cookies.cpp:31-50 | a lifetime is never written negative or zero; zero is written as a date in the past |
| CookieMeaning.DomainIsValidIff | ruvia-http/src/cookie/cookie_validation.h:39-45 | a domain is accepted iff it is at most 253 characters of labels between dots |
| CookieMeaning.QuotesSurround | ruvia-http/src/cookie/cookies.cpp:196-208 | a value may be put in quotes, and only as a whole |
| HttpText.SameInCapitals | ruvia-http/include/ruvia/http/http_ascii.h:8-24 | texts are equal without regard to case iff they are the same in capitals |
| CookieRoundTrip.RelativePathIsLost | ruvia-http/src/cookie/cookie_validation.h:97-101 | the Path "a" is validated and written, and read back as no path |

## Left out

- ForeignPost: a detached context and a stopped timer queue are one condition, and the deferral of a context that is run without worker identity is the same handler queue.
- ScheduleTimer: the wrong-thread and already-active exceptions and the binding of the registration object are left out; a handle is the pair of slot and generation.
- DetachContext: the timers a detached worker destroys and the unlinking of shutdown hooks are left out.
- FinishNotifying: the walk over registered shutdown hooks is a step for each listener in `LoopRetirement` and one step in the dispatcher alone; the linked list of hooks is left out.
- HeapIsExact: says nothing of a stopped queue, whose stale count drifts without effect.
- Abandon: the caller guarantees that the context runs no handler now or later and that nobody is closing the dispatcher; nothing of the chain runs after it.
- DestroyAcquire: an acquire that is owed a resumption is not destroyed before it; the frame of its coroutine owns it.
- ListenersFindGateOpen: that no listener is told after close_admission is an assumption of the step. A stop() that notifies holds a count, with which the shutdown of the context terminates; but the dispatcher can be closed by anybody, and so be notifying when the context goes down.
- FinalizesWhenRetired: no control runs on a context that is shut down; the destruction of queued handlers that goes with it is left out.
- StoppedLoopEnds: the loop is attached to a caller's context; the pool-owned runtime, whose hooks differ, is not joined with its chain.
- DecodeStream: one retention per stream, although each call of feed may pass another.
- FeedImpl: callbacks that throw and recursive feeding are left out; the completion flag is stated for feed_one, the one call that returns it.
- DecodeMessage: of a rejected message the error is stated, not how much of the body came before it, which depends on the cuts.
- ParseMaxAge: digits that do not fit 64 bits saturate; the conversion of those that do is that of the decimal digits.
- Build: the length_error of a size beyond the machine word is left out, as is the writer of a request's cookie pair.
- ResolvePathAndQuery: the grammar of components and targets is a parameter, and the buffer of 256 bytes is not distinguished from the heap.
- ShortYearIsNotFarAhead: the clock is a parameter.
- Await: the exceptions for the wrong thread are left out; that arming the deadline throws is a choice of the step.
- 64-bit generations, sequence numbers, waiter ids and counters, and the 32-bit run epoch, are unbounded: no wrap-around.
- The standard heap algorithms are known only by their contract: any arrangement that is a heap of the same entries.
- The address of a stop node destroyed by its own callback is not reused for another node during that run.
- Stop groups and their choice of parents, moving a registration, reference counts of stop states.
- The Windows wake pipe, interrupted system calls, receiver set-up that fails, and every branch that only terminates the process.
- Memory orders weaker than sequential consistency: each atomic operation is one step.
- Coroutine frames, shared ownership and allocation failure, except where a failure path changes queue state.
- Wrong-thread calls, empty callables, option checks, default capacities, thread start failure and thread detachment.
- The syntax of chunk-size lines and of trailer fields, a parameter of the chunked coding.
- Fairness: what is stated of progress is that a step is enabled, never that it is taken.
- HTTP parsing, connections, TLS, compression, servers, clients and the other parts of the repository.
