# Stratae, modelled and proved

Stratae is a Python toolkit for wiring applications: lifecycle scopes with cached functions and
resources, dependency injection, events with middleware and hooks, an outbox, and a RabbitMQ
adapter with retries. Each is a small protocol. This project models those protocols in Dafny and
proves what they promise, over every input, every run and every interleaving.

Two kinds of model are used. Code that several threads, tasks or processes run at once is a machine
of labelled steps, and results hold of every run from the start. Code that changes things step by
step is a class whose methods are proved against the functions that those steps, or a plain
reference definition, are made of.

| file | what it models |
|---|---|
| `ClaimProtocol.dfy`, `TaskClaims.dfy`, `Inflight.dfy` | the emitted miss paths of cached functions, with locks, threads and tasks |
| `ParentPinning.dfy`, `ScopeRuntime.dfy`, `Nesting.dfy` | activating and ending scopes that require others, and nested activations |
| `SlotAllocation.dfy`, `SlotStorage.dfy` | slots, their reuse, and dense and sparse storages |
| `ResourceStack.dfy`, `ResourceEntry.dfy` | closing resources against nested `with`, and entries that overlap an end |
| `Middleware.dfy` | middleware around hooks around a call |
| `FailureQueues.dfy`, `RetryProtocol.dfy`, `RetryHistory.dfy` | RabbitMQ retry and dead-letter queues, the protocol over them, and what became of each failure |
| `OutboxStore.dfy`, `OutboxRelay.dfy`, `OutboxTiming.dfy`, `RelayBatch.dfy`, `OutboxRoutes.dfy` | the outbox store, its relays, their leases and its routes |
| `Resolver.dfy`, `Overrides.dfy` | resolving injected parameters, and overriding providers |
| `Signatures.dfy`, `Calls.dfy`, `InjectedCalls.dfy`, `CacheKeys.dfy` | rendered parameter lists, calls and cache keys |
| `Serde.dfy`, `SerdeResults.dfy` | construction of typed values |
| `Envelopes.dfy` | envelopes and headers across both transports |

Where the code does less than its documentation suggests, the model follows the code and a result
says exactly when the promise holds:

- A close is not quite nested `with`: `ResourceStack.OriginalRaisedAgain` and
  `ResourceStack.CloseIsNestedWith`.
- Attempts can pass the number of delays if dead letters go to the consumed queue itself:
  `RetryProtocol.BoundedExactlyWhenApart` and `RetryProtocol.Circles`.
- A limit of no attempts leaves a new record at its limit: `OutboxRelay.PendingFewerExactlyWhenPositive`.
- A lease that runs out under its batch can lose a failure and undo what was settled:
  `OutboxTiming.CountsExactlyWhen` and `OutboxTiming.SettlesExactlyWhen`.
- A hook that raises something other than an `Exception` changes the call's outcome:
  `Middleware.HooksOnlyObserve` and `Middleware.StopGetsOut`.
- A call that names an injected parameter is an error if the wrapper collects keywords:
  `InjectedCalls.InjectsExactly` and `InjectedCalls.NamingInjectedFails`.
- A value inherited from an override in another context is not seen once no override is entered:
  `Overrides.FollowsTheStackExactlyWhen` and `Overrides.InheritedIsNotSeen`.
- An override's entry that is interrupted once it is counted leaves its count, and may leave its
  value: `Overrides.LeftIsBefore` and `Overrides.CallsStandExactly`.
- `None` gets through a union that does not include it: `Serde.ConstructsTypeExactly` and
  `Serde.NoneIsLetThrough`.
- A cause among a publisher config's own headers shows through a root envelope:
  `Envelopes.MessageGivesBack` and `Envelopes.ConfigCauseShows`.
- The outbox takes headers that the RabbitMQ publisher refuses: `Envelopes.RelayedHeadersAreTaken`
  and `Envelopes.AttemptsHeaderIsRefused`.

Exceptions are values with an identity and a kind. Exits, hooks and handlers are arbitrary functions
or arbitrary outcomes. Clocks, fresh ids and broker behaviour are parameters of steps: a confirmed
publish is on its queue, and a crash, a cancellation or an expired lease may come between any two
steps. A call of the outbox store is one step.

## Model

| member | source | states |
|---|---|---|
| ClaimProtocol.ComputeOnce | stratae/lifecycle/_wrappers.py:362-558 | In every state of every run, at most one call computes an entry, at most one ever succeeds, nobody computes it again after that, and all calls that return agree on the value |
| ClaimProtocol.OneOwnerPerClaim | stratae/lifecycle/_wrappers.py:377-405 | Two calls that own a claim under one key are one call, also across activations of a shared scope that follow each other |
| ClaimProtocol.ReturnsAreComputed | stratae/lifecycle/_wrappers.py:362-405 | A value that a call returns was computed by a successful call for the same entry of the same activation |
| ClaimProtocol.ResultsAreTheirOwn | stratae/lifecycle/_wrappers.py:392-405 | A call is for the entry it was started for, succeeds with a value exactly if its own computation gave that value, fails exactly if that failed, and is cancelled exactly if its wait was |
| ClaimProtocol.ReturnsWhatWasComputed | stratae/lifecycle/_wrappers.py:398-403 | Every value that a call returns, by computing or by a hit, is what a computation for the same entry gave |
| ClaimProtocol.OneAtATime | stratae/lifecycle/_wrappers.py:377-383 | A shared scope's wrapper computes one entry of a key at a time whatever the activations, another one for each activation and key |
| ClaimProtocol.WaitsForTheSame | stratae/lifecycle/_wrappers.py:377-383 | A call waits only for another agent's call of the same key and, unless the scope is shared, of the same activation |
| ClaimProtocol.WaiterIsTold | stratae/lifecycle/_wrappers.py:421-434 | A waiter that was woken fails if its activation has ended, and otherwise looks again |
| ClaimProtocol.NoLostWakeUp | stratae/lifecycle/_inflight.py:25-148 | Every waiting call has been woken, or watches the claim now on file under its key, which belongs to another agent's call that is still at work |
| ClaimProtocol.ReleaseWakesWaiters | stratae/lifecycle/_wrappers.py:386-405 | Releasing a claim, after a success or a failure, wakes every call that waits on it |
| ClaimProtocol.FailureIsRetried | stratae/lifecycle/_wrappers.py:392-405 | After a failed computation is released, the next caller that misses claims the entry and computes it; that none has succeeded meanwhile is part of the result |
| ClaimProtocol.EndedStaysEmpty | stratae/lifecycle/_wrappers.py:331-348 | An activation that ended is never refilled by a store that comes late, and no call starts in it |
| ClaimProtocol.OneDictionary | stratae/lifecycle/_wrappers.py:487-535 | A keyed wrapper makes one dictionary for an activation, whoever misses first, and never replaces it |
| ClaimProtocol.WatchMeans | stratae/lifecycle/_inflight.py:106-148 | Upgrading a claim to one that can be watched keeps its owner and its waiters, gives the waiter a signal that the claim holds, and refuses exactly the owner itself and, for a task claim, another loop |
| ClaimProtocol.StepKeepsInv | stratae/lifecycle/_wrappers.py:362-558 | Every step of every style keeps the invariant from which the results about runs follow |
| TaskClaims.TaskStepRefines | stratae/lifecycle/_wrappers.py:408-442 | One uninterrupted stretch of the lock-free path, from one await to the next, is a sequence of steps of the claim protocol |
| TaskClaims.TaskRunRefines | stratae/lifecycle/_wrappers.py:408-442 | Every run of tasks on the lock-free path is a run of the claim protocol, with the same states |
| TaskClaims.TasksComputeOnce | stratae/lifecycle/_wrappers.py:408-442 | Compute once, for the lock-free path |
| TaskClaims.TasksReturnWhatWasComputed | stratae/lifecycle/_wrappers.py:436-440 | Every value that a task's call returns is what a task's computation for the same entry gave |
| TaskClaims.TasksFailAlone | stratae/lifecycle/_wrappers.py:436-440 | A task's call fails only if its own computation did |
| TaskClaims.TasksWakeUp | stratae/lifecycle/_wrappers.py:421-442 | No lost wake-up, for the lock-free path |
| Inflight.ClaimTable.WatchThreadClaim | stratae/lifecycle/_inflight.py:127-135 | The dictionary changes as watching a thread's claim says: a bare owner becomes a record with the same owner, and its event is made once |
| Inflight.ClaimTable.WatchTaskClaim | stratae/lifecycle/_inflight.py:138-148 | The same for a task's claim, which gets one future for each waiter |
| Inflight.ClaimTable.WaitForClaim | stratae/lifecycle/_inflight.py:106-124 | The same for a lock-free claim: its own task and other loops are refused, and the event is made once |
| Inflight.ClaimTable.Unclaim | stratae/lifecycle/_wrappers.py:386-390 | The claim is popped, and every event or future of it is set, each future on its own loop unless it is done |
| ParentPinning.CountsArePinners | stratae/lifecycle/scope.py:287-348 | A storage's count is always the number of child activations, complete or half-done, that pinned it and have not let go |
| ParentPinning.ParentOutlivesChild | stratae/lifecycle/scope.py:287-348 | While a child is active, ending, closing its resources or half-activated, its parent's storage is full and current, and no step can end it |
| ParentPinning.PinsCurrent | stratae/lifecycle/scope.py:293-306 | A scope that requires another can begin to activate exactly where that one's variable holds an active storage, and pins and counts itself against just that one |
| ParentPinning.RequiredParentStays | stratae/lifecycle/scope.py:293-345 | In every run each activation of a scope that requires another holds a storage of that scope, which is active and counted while the child counts, and whose end is refused |
| ParentPinning.SharedIsOne | stratae/lifecycle/_slots.py:55-60 | At most one activation of a shared scope is active, the one in its variable |
| ParentPinning.ReleaseFindsParent | stratae/lifecycle/scope.py:384-394 | Letting go of a parent, after a release or a refused activation, finds its storage full and lowers its count, which is positive |
| ParentPinning.RefusedActivationUndone | stratae/lifecycle/scope.py:310-318 | Activating a shared scope that is active already leaves every other storage and variable as it was |
| ParentPinning.StepKeepsInv | stratae/lifecycle/scope.py:287-394 | Every step of any thread keeps the counts right, and a pinned parent current |
| ScopeRuntime.Runtime.PinParent | stratae/lifecycle/scope.py:293-306 | Pinning counts the activation against its required parent, and refuses when that is not active |
| ScopeRuntime.Runtime.SetCurrent | stratae/lifecycle/_slots.py:55-60 | Setting the variable makes the storage current; a shared variable that is set already refuses |
| ScopeRuntime.Runtime.Activate | stratae/lifecycle/scope.py:287-319 | An activation succeeds, or is refused for one of two reasons, and a refused one leaves the other storages as they were |
| ScopeRuntime.Runtime.CheckEnd | stratae/lifecycle/scope.py:333-345 | An activation may end exactly when it is current here, was activated here and has no child pinned to it; each of the four refusals is given exactly when its reason is the first to hold |
| ScopeRuntime.Runtime.LetGo | stratae/lifecycle/scope.py:384-394 | Letting go lowers the parent's count by one, and nothing else |
| ScopeRuntime.Runtime.Deactivate | stratae/lifecycle/scope.py:515-535 | A deactivation is refused with nothing changed, or ends, empties and releases the activation |
| ScopeRuntime.DeactivationChanges | stratae/lifecycle/scope.py:515-535 | A deactivation changes no storage but its own, and its parent's count |
| Nesting.SeesInnermost | stratae/lifecycle/scope.py:321-345 | In every run a context sees the innermost of the activations nested there, so an end goes back to the one around it |
| Nesting.VariableIsInnermost | stratae/lifecycle/scope.py:321-345 | And so it is of the variable of every scope among scopes that require others |
| SlotAllocation.HitsAreOwn | stratae/lifecycle/_wrappers.py:67-145 | Every cache hit returns a value that the same wrapper stored in the same live activation, however slots were reused, and no box reaches a caller |
| SlotAllocation.SlotsPartition | stratae/lifecycle/scope.py:350-381 | Live wrappers' slots and free slots are the allocated slots above the four reserved ones, each exactly once |
| SlotAllocation.StoredStays | stratae/lifecycle/scope.py:350-381 | What a wrapper stored in an activation stays there until it stores again, dies, or the activation ends |
| SlotAllocation.ReadAfterStore | stratae/lifecycle/_wrappers.py:96-139 | A stored value is read back, through any run in between, by every context that sees the activation |
| SlotAllocation.EndedStays | stratae/lifecycle/scope.py:321-348 | An activation that ended is never live again |
| SlotAllocation.StepKeepsInv | stratae/lifecycle/_wrappers.py:67-145 | Every step keeps slots partitioned, cells tagged with their writer and activation, and boxes where a slot was reused |
| SlotStorage.BaseScope.Extend | stratae/lifecycle/scope.py:281-285 | Padding a dense storage with slots allocated since it was copied changes nothing that is stored |
| SlotStorage.BaseScope.GetSlots | stratae/lifecycle/scope.py:265-279 | The live storage of a context is found exactly when there is one, with every allocated slot |
| SlotStorage.BaseScope.AllocateSlot | stratae/lifecycle/scope.py:350-366 | The last freed slot is reused, or a new one allocated, and nothing that is stored changes |
| SlotStorage.BaseScope.ReleaseSlot | stratae/lifecycle/scope.py:368-381 | A released slot is free, and unset in the storage this context sees |
| SlotStorage.BaseScope.CreateWrapper | stratae/lifecycle/_wrappers.py:142-145 | A wrapper gets a slot, boxed exactly if it is reused in a context scope |
| SlotStorage.BaseScope.DropWrapper | stratae/lifecycle/_wrappers.py:624 | A wrapper that dies gives its slot back |
| SlotStorage.BaseScope.Activate | stratae/lifecycle/scope.py:307-311 | A new storage, dense or sparse, has every slot unset |
| SlotStorage.BaseScope.End | stratae/lifecycle/scope.py:321-348 | Ending empties the storage, and the context's variable is what it was before |
| SlotStorage.BaseScope.Subscript | stratae/lifecycle/_slots.py:13-30 | A slot of a live storage reads as its value or unset; the lookup error is for a slot past a list's end, or an emptied storage |
| SlotStorage.BaseScope.ReadSlot | stratae/lifecycle/_wrappers.py:237-263 | A first read with its fallback gives the abstract read, whatever slots were allocated since activation, reports inactivity on an ended activation, and otherwise finds the slot, so that a store after it is not lost |
| SlotStorage.BaseScope.StoreSlot | stratae/lifecycle/_wrappers.py:331-348 | A store fills the slot of a live storage that reaches it, and changes nothing in an ended one, dense or sparse, or in a list that is too short |
| SlotStorage.NewSlotsMeans | stratae/lifecycle/scope.py:213-226 | A new dense or sparse storage stands for the empty map |
| ResourceStack.Contexts.ExitLast | stratae/lifecycle/_stack.py:245-252 | One exit is made with the exception in flight, and gives what is in flight after it |
| ResourceStack.Contexts.Close | stratae/lifecycle/_stack.py:235-285 | Close and its async twin make the exits of nested with statements, each once and last entered first, even when exits raise, and end as the report of what was in flight says |
| ResourceStack.EachLeavesForTheNext | stratae/lifecycle/_stack.py:245-255 | Each exit is handed what the one before it left: none after one that suppressed, the same after one that declined, its error after one that raised; nested with ends with what the last leaves |
| ResourceStack.ReturnsTrueExactly | stratae/lifecycle/_stack.py:250-256 | A close returns true exactly if an exception was received, some exit suppressed what it was handed, and none after it raised |
| ResourceStack.Settle | stratae/lifecycle/_stack.py:51-66 | No pending exception returns whether one was received, one is raised alone, and several as a group in reverse order, a base group if one is not an Exception |
| ResourceStack.RecordIsReport | stratae/lifecycle/_stack.py:27-48 | Recording one more outcome keeps the pending list the distinct exceptions in flight since the last suppression |
| ResourceStack.CloseReturns | stratae/lifecycle/_stack.py:235-256 | A close returns exactly when no exit changed the exception or nested with would end with none, and returns true exactly when a received exception ends suppressed |
| ResourceStack.CloseRaises | stratae/lifecycle/_stack.py:51-66 | A close that raises raises each exception in flight since the last suppression once, in reverse order of first appearance, always with the one nested with would raise |
| ResourceStack.CloseIsNestedWith | stratae/lifecycle/_stack.py:235-256 | A close raises what nested with would, alone, exactly when nothing else was in flight since the last suppression |
| ResourceStack.OriginalRaisedAgain | stratae/lifecycle/_stack.py:27-48 | An original exception raised again after a replacement makes a group, where nested with raises it alone |
| ResourceStack.EachExitedOnce | stratae/lifecycle/_stack.py:245-255 | Each resource is exited exactly once, last entered first, with what was in flight then |
| ResourceStack.ExitsReverse | stratae/lifecycle/_stack.py:245-255 | The order of the exits is the order of the entries, reversed |
| ResourceStack.DistinctMeans | stratae/lifecycle/_stack.py:27-48 | The recorded exceptions are those in flight, each once |
| ResourceStack.DistinctGrows | stratae/lifecycle/_stack.py:27-48 | They are in the order in which they first appeared |
| ResourceEntry.ExitedAtMostOnce | stratae/lifecycle/_stack.py:169-232 | In every run of overlapping entries, nothing is exited twice or without having been entered, and what is entered and not exited is still listed or being closed |
| ResourceEntry.AllExitedOnce | stratae/lifecycle/_stack.py:169-285 | Once an activation has ended and closed, exactly the resources that were entered have been exited, each once, those registered in reverse order |
| ResourceEntry.ClosedInReverse | stratae/lifecycle/_stack.py:235-256 | The close exits in the reverse of the order in which resources were entered before the end |
| ResourceEntry.EndedTakesNothing | stratae/lifecycle/_stack.py:175-180 | No resource is ever registered into an ended activation |
| ResourceEntry.Activation.FinishEntry | stratae/lifecycle/_stack.py:169-232 | An entry that succeeds registers its resource, or, if its activation ended meanwhile, exits it at once with no exception and fails |
| ResourceEntry.Activation.Close | stratae/lifecycle/_stack.py:235-256 | Closing exits what was registered in reverse order, after which every entered resource has been exited once |
| Middleware.Run.PopAndExit | stratae/events/middleware.py:415-446 | One exit, popped from the shared list, with its coroutine or its attempt to swallow refused, does to the outcome what leaving that layer does |
| Middleware.Run.Unwind | stratae/events/middleware.py:426-447 | The loop and its recursion over the shared list exit with the error all that is entered, as leaving those layers in turn would |
| Middleware.Run.ExitAll | stratae/events/middleware.py:409-423 | After a reply, all are exited with no error until one raises, which clears the reply and unwinds the rest |
| Middleware.Run.EnterAll | stratae/events/middleware.py:466-473 | Layers are entered outermost first, up to the first that cannot be |
| Middleware.Run.RunHooks | stratae/events/hooks.py:135-166 | Hooks around a call run and end as the hooks' own specification says |
| Middleware.Run.ObserveAll | stratae/events/hooks.py:126-132 | Observing hooks all run, up to one that raises something other than an Exception |
| Middleware.Run.RunMiddleware | stratae/events/middleware.py:450-479 | Middleware around hooks around a call does, step for step, what nested with statements do in which a true exit raises a refusal |
| Middleware.EachLeavesForTheNext | stratae/events/middleware.py:426-447 | A layer is left with just what its body came to, and what its exit raises, its coroutine's refusal or its refusal to swallow that very error takes the place of that |
| Middleware.NotEnteredGetsOut | stratae/events/middleware.py:466-473 | A layer that cannot be entered stops the call with its own error, or with what is wrong with it |
| Middleware.OutermostComesOut | stratae/events/middleware.py:440-447 | What comes out is the error of the outermost exit that raised or refused |
| Middleware.QuietPassesOn | stratae/events/middleware.py:440-447 | Exits that raise nothing of their own pass on what comes out of the layers inside them, in the end the call's own outcome |
| Middleware.TranslatedErrorGetsOut | stratae/events/middleware.py:444-447 | An error raised in place of another is what the exits around it see, and what gets out |
| Middleware.EnteredExitedOnce | stratae/events/middleware.py:409-479 | Every layer that is entered is exited exactly once, innermost first, and the call runs once if all are entered and otherwise not at all |
| Middleware.NeverSwallows | stratae/events/middleware.py:375-392 | A reply comes back exactly when the call returned it, every layer was entered and every exit ended quietly; so no error is ever swallowed |
| Middleware.ExitsSeeReplyOrError | stratae/events/middleware.py:415-479 | An exit sees a reply exactly when it sees no error, and then the call's own |
| Middleware.StopsStandAsTheyAre | stratae/events/middleware.py:388-392 | What stops a program, or a cancellation still under way, comes out as it went in, however exits try to swallow it |
| Middleware.OutcomeDependsOnOutcome | stratae/events/pipeline.py:58-86 | The outcome of a stack of middleware depends on what it wraps only through its outcome |
| Middleware.HooksOnlyObserve | stratae/events/hooks.py:135-166 | Once the before hooks pass, the call's outcome stands exactly when no observing hook raises anything but an Exception, or the first to do so raises the call's own error |
| Middleware.StopGetsOut | stratae/events/hooks.py:126-132 | A success hook that raises what stops a program replaces the call's reply |
| Middleware.FailedBeforeStopsCall | stratae/events/hooks.py:153-154 | A before hook that fails stops the call: it is not made, and the first failing hook's error gets out |
| Middleware.EveryHookRuns | stratae/events/hooks.py:126-166 | If hooks raise only Exceptions, every hook of every slot that applies runs once, in order, around the call |
| Middleware.HooksLeaveOutcome | stratae/events/pipeline.py:58-86 | Middleware around hooks around a call ends as the same middleware around the bare call, once before hooks pass and observers raise only Exceptions |
| FailureQueues.CheckPolicy | stratae/integrations/rabbitmq.py:730-737 | A policy is refused exactly for a delay that is not positive, the first such, or for a dead-letter queue that nothing would go to |
| FailureQueues.TtlIsDelay | stratae/integrations/rabbitmq.py:761-763 | A retry queue's TTL is a positive number of milliseconds, within half of one of the delay if the delay is that long |
| FailureQueues.RoundIsNearest | stratae/integrations/rabbitmq.py:761-763 | Milliseconds are rounded to the nearest, and of two as near to the even one |
| FailureQueues.RetryNameInjective | stratae/integrations/rabbitmq.py:766-768 | Retry queues with one name have one TTL |
| FailureQueues.DefaultDeadLetterIsItsOwn | stratae/integrations/rabbitmq.py:750-758 | The default dead-letter queue is neither the consumed queue nor a retry queue |
| FailureQueues.RetriesNeverClash | stratae/integrations/rabbitmq.py:873-886 | Declaring the retry queues never fails on delays that share a queue |
| FailureQueues.DeclareFailureQueues | stratae/integrations/rabbitmq.py:873-889 | Declaring succeeds exactly when the dead-letter queue is none of the others under other arguments; then every queue is there with its TTL, expiring into the consumed queue, and no other is |
| RetryProtocol.TargetIsDeclared | stratae/integrations/rabbitmq.py:1260-1275 | The queue that a failed message goes to next is always declared, and there is none only if the policy drops |
| RetryHistory.TargetIsNext | stratae/integrations/rabbitmq.py:1260-1275 | The next queue holds the message for just the delay of this failure and then returns it, while a retry is left, and is else the dead-letter queue; there is none exactly if no retry is left and the policy drops |
| RetryHistory.AttemptsAreRead | stratae/integrations/rabbitmq.py:253-256 | A message counts the failures that its header gives as a positive number, and else none |
| RetryHistory.FailuresAreRetried | stratae/integrations/rabbitmq.py:1242-1275 | In every run each copy published on carries the stamp of a failure that happened, and went to the queue for just that failure |
| RetryHistory.GivenUpWithNoRetryLeft | stratae/integrations/rabbitmq.py:1260-1275 | In every run a copy is dropped or dead-lettered only if it failed without a retry, or had counted as many failures as there are delays |
| RetryHistory.AckedFor | stratae/integrations/rabbitmq.py:1222-1240 | In every run a copy is acked as handled only after its handling finished, and otherwise for the copy that was published in its place |
| RetryProtocol.NeverLost | stratae/integrations/rabbitmq.py:1222-1285 | In every run, with crashes, cancellations and redeliveries anywhere, every message has a copy that is queued, waiting, unacked, dead-lettered or acked after it was handled, or one that its policy, or the lack of one, gave up |
| RetryProtocol.DeadLetteringLosesNothing | stratae/integrations/rabbitmq.py:1222-1285 | Under a dead-lettering policy nothing is ever dropped or discarded |
| RetryProtocol.CopiesKeepTheLetter | stratae/integrations/rabbitmq.py:259-266 | Every copy keeps its message's body, properties and other headers, and counts exactly the failures that led to it |
| RetryProtocol.FailuresAreBounded | stratae/integrations/rabbitmq.py:739-748 | A message that arrives unmarked counts at most as many failures as there are delays outside the dead-letter queue, and one more inside |
| RetryProtocol.BoundedExactlyWhenApart | stratae/integrations/rabbitmq.py:739-758 | Attempts stay within the bound, over every run, exactly when the dead-letter queue is not the consumed queue |
| RetryProtocol.Circles | stratae/integrations/rabbitmq.py:750-758 | If it is, an undecodable message counts any number of failures |
| RetryProtocol.Broker.FailMessage | stratae/integrations/rabbitmq.py:1242-1285 | A failed message is published to its next queue and then acked, dropped or nacked, as the steps of the protocol |
| RetryProtocol.Broker.DeliverMessage | stratae/integrations/rabbitmq.py:1222-1240 | A delivery is acked after it was handled, fails without a retry if it does not decode and with one if handling raises, and is left unacked by a cancellation |
| OutboxStore.SortIsStable | stratae/events/outbox.py:710-713 | Records are listed oldest first, those of one age in the order they were added |
| OutboxStore.InMemoryOutboxStore.Settle | stratae/events/outbox.py:704-708 | A record is stored under a status and its lease released |
| OutboxStore.InMemoryOutboxStore.SettleAll | stratae/events/outbox.py:686-702 | Several records are settled in turn |
| OutboxStore.InMemoryOutboxStore.WithStatus | stratae/events/outbox.py:710-713 | Exactly the records with a status are listed, each once, oldest first |
| OutboxStore.InMemoryOutboxStore.Claim | stratae/events/outbox.py:674-684 | A claim takes the oldest records that are pending, available and under no running lease, up to a limit, leases them, and changes nothing else |
| OutboxStore.LeasedMeans | stratae/events/outbox.py:682-683 | Claimed records are leased until the given time, and no other lease changes |
| OutboxStore.ClaimsMean | stratae/events/outbox.py:674-684 | A claimed record is pending, available by now and under no running lease; one that is and was not claimed is younger than as many as may be |
| OutboxRelay.NeverDisappears | stratae/events/outbox.py:557-612 | Over any number of relays, a record that was added is kept with its content and age, and counts at most the failures of its publishes |
| OutboxRelay.StatusIsTrue | stratae/events/outbox.py:557-612 | A sent record was published, a parked one is out of attempts, and a pending one is not, unless the limit allows none at all |
| OutboxRelay.PendingFewerExactlyWhenPositive | stratae/events/outbox.py:596-607 | Pending records always have fewer attempts than the limit exactly when the limit is at least one, or there is none |
| OutboxRelay.HistoryGrows | stratae/events/outbox.py:557-612 | What was added, published and counted stays so for the rest of every run |
| OutboxRelay.AttemptsAreFailures | stratae/events/outbox.py:566-575 | With any number of relays whose leases outlast their batches, a record's attempts are exactly its publish failures, outages not counted |
| OutboxRelay.OneRelayCountsFailures | stratae/events/outbox.py:557-612 | With one relay that takes one batch at a time, however long its batches take, a record's attempts are exactly its publish failures, outages not counted; a run_once beside the background task counts as another relay |
| OutboxRelay.LeasesAreExclusive | stratae/events/outbox.py:674-684 | If claims take no record whose lease still runs, and no batch is open past its own lease at a claim, no claim takes what an open batch has yet to settle |
| OutboxRelay.SettledIsFinal | stratae/events/outbox.py:686-697 | With any number of relays whose leases outlast their batches, a record once sent or parked stays as it is for the rest of the run |
| OutboxRelay.OneRelaySettles | stratae/events/outbox.py:686-697 | And with one relay that takes one batch at a time, however long its batches take |
| OutboxTiming.CountsExactlyWhen | stratae/events/outbox.py:557-612 | With the store's own claims and leases, attempts are the publish failures over every run exactly if a lease is longer than a batch may stay open, or only one relay takes batches |
| OutboxTiming.SettlesExactlyWhen | stratae/events/outbox.py:686-708 | And what is sent or parked stays so over every run exactly then |
| OutboxTiming.ExpiryLosesFailure | stratae/events/outbox.py:674-684 | Otherwise two relays claim one record, the second as soon as the first's lease has run out, and both fail it: it counts one attempt |
| OutboxTiming.ExpiryUnsettles | stratae/events/outbox.py:704-708 | Or the second fails it after the first has marked it sent, and it is sent no more |
| OutboxRelay.StepKeepsInv | stratae/events/outbox.py:557-612 | Every step of every relay, with leases that expire and relays that stop anywhere, keeps the records' invariant |
| RelayBatch.RetryDelayGrows | stratae/events/outbox.py:609 | The first wait is the delay given, each next one is twice the last, and none is longer than the longest |
| RelayBatch.FailureStores | stratae/events/outbox.py:596-612 | A failed record counts one attempt more and keeps its error; it is parked once out of attempts, else available again after the wait for that attempt |
| RelayBatch.NotRetriedEarly | stratae/events/outbox.py:674-684 | A record that failed is not claimed again before that wait is over |
| RelayBatch.OutboxRelay.FailRecord | stratae/events/outbox.py:596-612 | A failed attempt is counted, and its record parked or rescheduled |
| RelayBatch.OutboxRelay.RelayOnce | stratae/events/outbox.py:557-579 | One batch claims the oldest due records and does with them what the batch's specification says, marking what was sent however it ends |
| RelayBatch.BatchLeaves | stratae/events/outbox.py:557-579 | Of each claimed record: sent if its publish returned, with one failure more if it failed, as it was and released from an outage on, untouched and leased from an interruption on |
| RelayBatch.BatchLeavesOthers | stratae/events/outbox.py:557-579 | A batch touches no record that it did not claim |
| RelayBatch.RelaySends | stratae/events/outbox.py:563-579 | A batch reports as sent exactly what was published, in order, and an outage exactly if it stopped for one |
| RelayBatch.BatchIsRun | stratae/events/outbox.py:557-579 | One batch of the code is a run of the relays' steps: a claim of unleased records, the work on it, and its close. It publishes exactly the records whose publish returned, and counts the failures that FailuresAfter says |
| RelayBatch.FailuresAfterMeans | stratae/events/outbox.py:569-570 | A batch counts one failure more of each record that failed before it stopped, and of no other |
| OutboxRoutes.OutboxProducer.Register | stratae/events/outbox.py:397-403 | A route's first binding is kept, and another is refused exactly for another event or an unequal config |
| OutboxRoutes.NamedAs | stratae/events/outbox.py:397-403 | A use is recorded under the route that it names, or else its event's name |
| OutboxRoutes.KnownStays | stratae/events/outbox.py:400 | A route that is known never comes to stand for something else |
| OutboxRoutes.RelayedAsEmitted | stratae/events/outbox.py:581-594 | Whatever else is bound before or after, a record's route is known to its relay for the record's own event and an equal config |
| Resolver.ResolvedIsSound | stratae/depends/injection.py:271-273 | A resolved provider is on no cycle, and all it reaches is resolved and without fault |
| Resolver.ReadyIsSound | stratae/depends/injection.py:155-175 | A function all of whose dependencies are resolved, and which has no fault, reaches no cycle and no fault |
| Resolver.StackCycle | stratae/depends/injection.py:164-165 | A function met again on the way to itself is on a cycle |
| Resolver.ResolutionMeans | stratae/depends/injection.py:171-175 | A resolved function with parameters to inject is called through its injecting wrapper, any other as it is |
| Resolver.Providers.ResolveFunction | stratae/depends/injection.py:155-175 | The search ends, resolves a function with all it needs, or fails with a cycle or a fault that it really reaches; what is resolved stays sound either way |
| Resolver.Providers.ResolveParameter | stratae/depends/injection.py:259-274 | One parameter's provider is resolved and marked only once its whole subtree is |
| Resolver.Providers.ResolveParameters | stratae/depends/injection.py:236-242 | Parameters are resolved in order until one fails |
| Resolver.Providers.Inject | stratae/depends/injection.py:126-175 | Injecting succeeds exactly when no cycle and no fault is reachable; a circular error is only raised for a real cycle, and, where there is no other fault, exactly when there is one |
| Overrides.CallsFollowTheStack | stratae/depends/overriding.py:80-106 | Over every well-nested run across contexts, with entries interrupted anywhere, what a provider provides is the override reader exactly while its count is positive, which counts what is entered and what was interrupted once counted; a call yields the innermost value of its context, or else what the current dependency returns |
| Overrides.FollowsTheStackExactlyWhen | stratae/depends/_provide.py:59-64 | A call gives the stack's answer exactly unless the provider's count is zero while its context inherited a value |
| Overrides.InnermostOverrideIsCalled | stratae/depends/overriding.py:80-106 | Where no entry is interrupted, a call yields the value of the innermost override of the provider entered in its context, and, while none is entered, what the dependency set last returns |
| Overrides.InheritedIsNotSeen | stratae/depends/_provide.py:59-64 | A context forked inside an override that is then exited gets the dependency, where its own stack says the override's value |
| Overrides.ExitUndoesEnter | stratae/depends/overriding.py:88-106 | Exiting an override at once restores the provider, its value in every context and its tokens |
| Overrides.StepKeepsInv | stratae/depends/overriding.py:80-106 | Entering, exiting, updating, forking and interrupted entries keep each count, callable, value and token what the stacks make them |
| Overrides.InvHasProvides | stratae/depends/overriding.py:80-106 | The invariant gives that a provider provides the override reader while its count is positive, and else its dependency |
| Overrides.Overriding.Enter | stratae/depends/overriding.py:88-97 | Entering does to the provider, the variable and the tokens what the stack's push means |
| Overrides.Overriding.Exit | stratae/depends/overriding.py:99-106 | Exiting does what its pop means |
| Overrides.Overriding.Update | stratae/depends/_provide.py:66-71 | An update replaces the dependency, and what it provides unless it is overridden |
| Overrides.Overriding.EnterAll | stratae/depends/overriding.py:117-126 | Several overrides are all entered, in order, or, if one entry is interrupted, those before it are exited: all is as it was but for what that entry leaves, of which an earlier one of the same provider takes the value back |
| Overrides.Overriding.EnterInterrupted | stratae/depends/overriding.py:88-97 | An entry interrupted while it waits, once counted, once its value is set, or once entered leaves nothing, its count, its value too, or its token too |
| Overrides.LeftIsBefore | stratae/depends/overriding.py:117-126 | Nothing has changed exactly if the interruption came before the entry was counted |
| Overrides.CallsStandExactly | stratae/depends/_provide.py:59-64 | No call of any provider in any context differs exactly if it came before that, or the context saw the value left already, or, with no value left, the reader was in place or no context has a value for it |
| Overrides.ReaderStays | stratae/depends/overriding.py:99-106 | An entry interrupted once counted leaves the override reader in place for the rest of every run |
| Signatures.RenderParameters | stratae/codegen/signature.py:79-89 | A list is rendered exactly when its kinds never go back |
| Signatures.RendersExactlyInOrder | stratae/codegen/signature.py:48-76 | The transition table accepts exactly the orders that never go back |
| Signatures.RenderReadsBack | stratae/codegen/signature.py:79-89 | Rendered text reads back as the same names and kinds exactly when there is at most one *args and one **kwargs |
| Calls.ForwardBindsExactly | stratae/lifecycle/_wrappers.py:155-167 | A rendered call binds every parameter to its own value, unless **kwargs has the name of a parameter that a keyword can fill, when it is an error |
| Calls.BindFills | stratae/lifecycle/_wrappers.py:155-167 | The binding that a rendered call is judged by: each parameter gets the positional argument in its place, or the keyword argument that names it, or its default, and a collecting one gets exactly what is left |
| Calls.BoundNeverCollides | stratae/lifecycle/_wrappers.py:155-167 | No call that a signature accepts leaves such a name in its own **kwargs |
| InjectedCalls.KeptIsSignature | stratae/depends/_wrappers.py:17-21 | What is left of a signature without its injected parameters is a signature |
| InjectedCalls.MergeMeans | stratae/depends/_wrappers.py:41-49 | Each parameter of the function gets what its provider gave, or what the wrapper was given for it |
| InjectedCalls.InjectsExactly | stratae/depends/_wrappers.py:24-49 | A call that the wrapper accepts calls the function with every parameter bound to its own value, for any injected parameters, *args and **kwargs among them; it is an error exactly if it names an injected parameter that **kwargs collects, or the mapping provided for **kwargs names another parameter |
| InjectedCalls.NamingInjectedFails | stratae/depends/_wrappers.py:24-49 | A call that names an injected parameter, which the wrapper's **kwargs takes, is an error |
| InjectedCalls.ForwardsAsCalled | stratae/lifecycle/_wrappers.py:155-167 | A cached function's wrapper forwards every call that it accepts as it was |
| InjectedCalls.WrapperDefaultsAlign | stratae/depends/_wrappers.py:86-87 | The function's defaults, taken over by the wrapper, are each kept parameter's own |
| CacheKeys.KeysExactlyBindings | stratae/lifecycle/_wrappers.py:170-205 | Two calls have one key exactly when they bind every parameter equally |
| CacheKeys.CacheIsMemo | stratae/lifecycle/_wrappers.py:478-503 | A dictionary by key hits exactly when the same binding was stored, with the value last stored for it |
| Serde.UnfoldingEnds | stratae/serde.py:335-336 | Where every cycle of aliases passes through a container, unfolding aliases and unions comes to a type that looks into the value |
| Serde.EndsExactlyWhenAcyclic | stratae/serde.py:335-336 | Unfolding ends for every type exactly when no alias unfolds to itself without a container between; an ambiguous union unfolds to nothing |
| Serde.ConstructsUnfolded | stratae/serde.py:400-407 | A value that is not None is constructed as the type that an alias, or a union's one other member, unfolds to |
| Serde.ConstructsWhatIsLeft | stratae/serde.py:335-336 | And so as whatever is left when unfolding ends |
| Serde.UnfoldingLoops | stratae/serde.py:400-407 | A type that unfolds to itself with no container between never does |
| Serde.ConstructIsIdempotent | stratae/serde.py:321-407 | Constructing again from what was constructed gives it back unchanged |
| Serde.ConstructsTypeExactly | stratae/serde.py:321-407 | What is constructed is of its target type exactly when no None stands where a union has no place for it |
| Serde.NoneIsLetThrough | stratae/serde.py:402-403 | None is constructed as a union of two types that it is of neither of |
| Serde.ConstructsType | stratae/serde.py:400-407 | If every union includes None, what is constructed is always of its target type |
| Serde.HandleIdempotent | stratae/serde.py:466-656 | Every built-in handler gives back unchanged what it made |
| Serde.HandledIsOf | stratae/serde.py:466-713 | Every built-in handler makes only values of its own type |
| SerdeResults.IntegersAre | stratae/serde.py:480-517 | An integer is constructed exactly from itself, a whole float of its value, and text that reads as either |
| SerdeResults.FloatsAre | stratae/serde.py:480-532 | A float is constructed exactly from itself, an integer that it stands for, and text that reads as either |
| SerdeResults.BoolsAre | stratae/serde.py:535-552 | A truth value is constructed exactly from itself and from its name in any case |
| SerdeResults.TextsAre | stratae/serde.py:466-712 | Text and None are constructed from themselves alone; ids, times and decimals also from text that reads as them |
| SerdeResults.CollectionsAre | stratae/serde.py:570-656 | A bare collection is constructed from any other that is no dict, with the same elements |
| SerdeResults.ConstructsWhen | stratae/serde.py:357-378 | A container is constructed exactly if its source is one, all its elements are, and, for a set, they can be in one |
| SerdeResults.ConstructsEach | stratae/serde.py:357-378 | It holds what each element was constructed as, in order, or, for a set, once |
| SerdeResults.ConstructsParts | stratae/serde.py:380-389 | A tuple of fixed length is constructed exactly from as many elements, each as its own part |
| SerdeResults.ConstructsDictWhen | stratae/serde.py:391-398 | A dict is constructed exactly from a dict whose keys and values all are, the keys as what can be keys |
| SerdeResults.EntriesAreConstructed | stratae/serde.py:391-398 | Its keys and values are each constructed as their own type, and none is left out |
| SerdeResults.ConstructsEntries | stratae/serde.py:391-398 | It has an entry for exactly what its source's keys are constructed as, with the value of the last |
| Serde.NoneOnlyFromNone | stratae/serde.py:402-403 | Only None is constructed as None |
| Serde.EntryMeans | stratae/serde.py:395-398 | An entry of a constructed dict is from the last entry that makes its key |
| Envelopes.HeadersGiveBack | stratae/events/envelope.py:103-132 | Headers laid over others give their envelope back exactly when it has a cause, or those below name none |
| Envelopes.FieldsAreRead | stratae/events/envelope.py:118-132 | Each field of an envelope is from its own header, or made up if that is missing or null; without a cause there is none |
| Envelopes.MessageHeaders.Set | stratae/events/middleware.py:247-251 | A header is set unless its name is reserved, whatever its case |
| Envelopes.MessageHeaders.Update | stratae/events/middleware.py:243-245 | Headers are set in turn, up to the first that is refused |
| Envelopes.RecordGivesBack | stratae/events/outbox.py:416-427 | A record stored and relayed gives back exactly its envelope and the headers the middleware added |
| Envelopes.RelayedHeadersAreTaken | stratae/integrations/rabbitmq.py:213-214 | A publisher takes a relayed record's headers exactly when none of them marks a failure |
| Envelopes.AttemptsHeaderIsRefused | stratae/integrations/rabbitmq.py:213-214 | The outbox keeps a header that counts attempts, which the publisher refuses |
| Envelopes.MessageGivesBack | stratae/integrations/rabbitmq.py:217-244 | A message that is stamped and read carries the envelope it was sent with exactly when that has a cause, or the config's headers name none |
| Envelopes.PropertiesStandIn | stratae/integrations/rabbitmq.py:217-240 | A stamped message that lost its headers still gives its ids and time back by its properties, but no cause |
| Envelopes.ConfigCauseShows | stratae/integrations/rabbitmq.py:217-226 | A root envelope stamped over a config whose headers name a cause is read with that cause |
| Envelopes.AddedHeadersArrive | stratae/integrations/rabbitmq.py:247-250 | What middleware reads of a message, its text headers, is those of the config under those that were added under its envelope's; an added header always has the last word |
| Envelopes.RetriesKeepTheHeaders | stratae/integrations/rabbitmq.py:247-266 | Middleware reads the same headers of every copy, but for the two that mark a failure |
| Envelopes.RetriesKeepTheEnvelope | stratae/integrations/rabbitmq.py:259-266 | After any number of failures, retries and redeliveries every copy carries the envelope its message was sent with exactly when that has a cause, or the config's headers name none |
| Envelopes.ChainIsCausal | stratae/events/envelope.py:92-101 | Envelopes opened inside one another have one correlation, each its own id and time, and each is caused by the one around it |

## Left out

- Locks, threads and event loops themselves: a critical section, and what one loop does between two awaits, is one step.
- Waiting between different owners: two owners that wait on each other are not excluded by the code, only self-waiting is.
- The claim-free path of a context scope's sync wrappers, which one thread uses at a time.
- Wrapper death is a step taken only while no call of the wrapper runs; weak references are not modelled.
- Deactivation from a context that did not activate, beyond its refusal.
- Resources' exits during a deactivation: they are `ResourceStack`'s, and a deactivation lets go of its parent whatever they raise.
- Driving a resource generator to its end, and restoring tracebacks: an exit is its outcome.
- Async hooks of one slot running at the same time: `Middleware` runs every slot in order.
- Reading a middleware's annotations, its registration, and `receiving`'s context variable.
- Connecting, reconnecting, draining, prefetch and consuming without acks in the RabbitMQ adapter.
- Messages put straight into a retry or dead-letter queue by another program.
- Transactions that stage outbox records, and the waits between polls.
- Stores whose calls can be interrupted: a failed publish and the storing of its failure are one step, as over the in-memory store, so a cancellation that falls between them and leaves the failure uncounted is not in the runs.
- Other checks that injection makes of annotations: a function's faults are flags.
- An override that is entered already and is entered again, but interrupted before that is known: what its next exit takes is the wrong token. And an interruption between two statements that no call separates.
- Overrides exited out of order, or shared between tasks of different contexts, which the code forbids its callers.
- Source text of rendered lists and calls as characters: a list is its parts, and a call its arguments.
- Default values that keyword-only parameters keep by name, which rendering does not touch.
- Cache keys that a user's `cache_key` makes, and Python's equality across numeric types.
- Constructing a type whose aliases cycle through no container: it does not end, as `Serde.EndsExactlyWhenAcyclic` and `Serde.UnfoldingLoops` say.
- Handlers that are registered later, subclasses of handled types, and enums.
- Parsing of numbers, ids, times and decimals, and Python's order of iterating a set: given functions.
- JSON, logging, error texts, the web and tracing integrations, and typing helpers.
