# k-DESim scheduling kernel in Dafny

This project models the discrete-event scheduling kernel of k-DESim, a
SimPy-style simulation library written in Kotlin. It covers:

- the `Environment`: its clock, its priority queue of events, `schedule`,
  `timeout`, the `process` overloads, `step`, the simulation loop and the two
  `run` entry points;
- the event family: `EventBase`, `ValueEvent`, `SimProcess`, the
  `AllOf`/`AnyOf` conditions and the `TerminationEvent`;
- the two resources: the bounded FIFO `Store` with its get/put request events,
  and the single-holder `Server` with its request/release events and the
  scope check of `serverAction`.

The model is a pure state machine. The environment state `State.Env` holds:

- the clock;
- a table from object references to event records;
- the queue, as a sequence of references in insertion order;
- the allocation counter and the event-id counter;
- the stores and the servers;
- the termination event;
- a trace of what caller-written code did.

Every Kotlin operation becomes a function from a state to a new state.
Exceptions become explicit outcomes: `Result`, `Fired(env, raised)` and
`RunOutcome`.

Callbacks are tags (`Events.Callback`) naming the objects their closures
capture. `Observe(tag)` stands for caller-written code, and its only effect is
to append to the trace.

A process's Kotlin `sequence { … }` is modelled as:

- a list of `Step(pre, target)` pulls: run the actions `pre`, then yield
  `target`;
- an epilogue: the code after the last yield;
- a cursor.

The actions a process body can perform are:

- scheduling an event;
- succeeding a value event;
- a `serverAction`;
- recording a trace entry.

`State.Inv` is the well-formedness invariant of reachable states:

- every reference is below the allocation counter;
- every id handed out is below the id counter;
- every queued reference names an event;
- nothing queued is due before `now`.

`State.Evolves` is what every transition inside one firing guarantees:

- the clock stands still;
- the counters only grow;
- no event disappears;
- the trace only grows;
- `Inv` is kept.

Where the documentation and the code disagree, the model follows the code,
with one exception: the queue order (see "## Findings" and the
`Environment.Step` line under "## Left out"). The cases are:

- `ValueEvent.value()` returns the value as soon as `succeed(v)` has run.
  That is before the event is processed, although the class comment says
  after. See `State.SucceedWith` and `Firing.ValueSurvivesResumption`.
- `run(until)` schedules a `Timeout(until)`, which is due at `now + until`.
  It is not due at absolute time `until`.
- `process(vararg)` returns the processes themselves, not their finished
  events (`Environment.ProcessOverloadsDisagree`).
- `AnyOfCondition` has no once-guard: every later check succeeds and
  schedules it again (`Conditions.AnyOfHasNoOnceGuard`).

Modules follow the source files:

- `Basics`: references, options, errors and priorities.
- `Events`: `EventBase` and `ValueEvent` fields.
- `Ordering`: the queue comparator.
- `Stores` and `Servers`: the resources as pure values.
- `State`: the environment record and `schedule`.
- `Processes`: `SimProcess`.
- `Conditions`: `Condition`, `AllOfCondition` and `AnyOfCondition`.
- `StoreEvents` and `ServerEvents`: the resources inside the environment,
  with their request events.
- `Firing`: `processEvent`.
- `Environment`: the rest of `Environment.kt`.

## Model

| member | source | states |
|---|---|---|
| Basics.PriorityValue | core/src/main/kotlin/event/EventPriority.kt:12-15 | NORMAL maps to 0 and HIGH to 1; the value is 1 exactly for HIGH |
| Events.NewEvent | src/main/kotlin/simulation/event/EventBase.kt:16-31 | the constructor fails with an invalid argument exactly when the delay is negative; otherwise the event is untriggered, unprocessed, has no callbacks, no id and a PENDING empty value, with the given delay, priority and kind |
| Events.AppendCallback | src/main/kotlin/simulation/event/EventBase.kt:62-64 | the new callback goes last and the existing callbacks keep their order |
| Events.PrependCallbackAsWritten | src/main/kotlin/simulation/event/EventBase.kt:71-73 | the code as written keeps the old list, then adds the new callback and a second copy of the old list |
| Events.PrependCallback | src/main/kotlin/simulation/event/EventBase.kt:66-73 | the documented behaviour: the new callback comes first, followed by exactly the old list |
| Events.PrependAsWrittenMatchesOnlyOnEmpty | src/main/kotlin/simulation/event/EventBase.kt:71-73 | the written and the documented prepend agree if and only if the list is empty; on a non-empty list the old head still runs first |
| Events.ValueOf | core/src/main/kotlin/event/ValueEvent.kt:45-51 | value() yields null unless the status is AVAILABLE, and when it is AVAILABLE it yields exactly the stored value |
| Events.SetValue | core/src/main/kotlin/event/ValueEvent.kt:32-35 | after succeed(v) the value reads as v and is AVAILABLE whatever the previous status; nothing else in the record changes |
| Events.Expire | core/src/main/kotlin/event/ValueEvent.kt:56-59 | expire() clears the value and marks it EXPIRED, so value() reads null; nothing else changes |
| Events.FreshValueIsNull | core/src/main/kotlin/event/ValueEvent.kt:20-23 | a newly constructed value event reads null and is PENDING |
| Events.ExpireAndSucceedOverwrite | core/src/main/kotlin/event/ValueEvent.kt:32-59 | expire after succeed leaves nothing readable; succeed after expire makes the new value readable, since succeed does not check the status |
| Ordering.NotAfterIsTotalPreorder | core/src/main/kotlin/Environment.kt:25-31 | the intended queue order (due time ascending, then priority descending) is reflexive, total and transitive, so a least entry always exists |
| Ordering.MinIndex | core/src/main/kotlin/Environment.kt:25-31 | the popped index names an entry not after any queued entry, and every earlier-inserted entry is strictly after it |
| Ordering.LiteralAgreesWhenDelaysDiffer | core/src/main/kotlin/Environment.kt:25-31 | when the two delays differ, the written comparator orders by due time, in both directions |
| Ordering.LiteralAgreesOnEqualDelayAndDue | core/src/main/kotlin/Environment.kt:25-31 | when both delays and due times are equal, the written comparator agrees with the intended order |
| Ordering.LiteralOrdersLaterEventFirst | core/src/main/kotlin/Environment.kt:25-31 | counterexample: with equal delays, a HIGH event due later is put before a NORMAL event due earlier |
| Ordering.LiteralTiesAcrossPriorities | core/src/main/kotlin/Environment.kt:25-31 | counterexample: a HIGH and a NORMAL event due at the same time with different delays compare as equal |
| Stores.NewStore | core/src/main/kotlin/resources/Store.kt:19-23 | a new store holds no items, has both wait queues empty and is not initialized |
| Stores.Initialize | core/src/main/kotlin/resources/Store.kt:36-45 | a list longer than the capacity is rejected first; then a second initialization is rejected; otherwise the items are appended in order and the store is marked initialized, and it succeeds exactly when both checks pass |
| Stores.GetNextItem | core/src/main/kotlin/resources/Store.kt:85-91 | fails exactly on an empty store; otherwise it yields the head item and the rest is what remains |
| Stores.PutNextItem | core/src/main/kotlin/resources/Store.kt:98-104 | succeeds exactly when the count is below the capacity, then adds the item at the back |
| Stores.TryGet | core/src/main/kotlin/resources/Store.kt:115-121 | a non-empty store grants the get with its oldest item; an empty store queues the get at the back and grants nothing |
| Stores.TryPut | core/src/main/kotlin/resources/Store.kt:132-139 | a store with room stores the item at the back and grants the put with that item; a full store queues the put and grants nothing |
| Stores.ProcessPut | core/src/main/kotlin/resources/Store.kt:147-151 | with no waiting get nothing changes; otherwise exactly the oldest waiting get is retried: it is served with the oldest item, or moved to the back when still empty |
| Stores.ProcessGet | core/src/main/kotlin/resources/Store.kt:159-163 | with no waiting put nothing changes; otherwise exactly the oldest waiting put is retried: it is let in, or moved to the back when still full |
| Stores.OperationsKeepBound | core/src/main/kotlin/resources/Store.kt:98-163 | tryGet, tryPut, processGet and processPut never raise the item count above the capacity |
| Stores.InitializeKeepsBoundWhenEmpty | core/src/main/kotlin/resources/Store.kt:36-45 | initializing a store that holds no items keeps the count within the capacity |
| Stores.InitializeCanOverfill | core/src/main/kotlin/resources/Store.kt:37 | the capacity check looks only at the new list, so initializing a store already holding items can exceed the capacity |
| Stores.InitializeFresh | core/src/main/kotlin/resources/Store.kt:19-45 | a new store initialized with a list that fits holds exactly that list, in order |
| Stores.InitializeTwiceFails | core/src/main/kotlin/resources/Store.kt:37-40 | a second initialization always fails, and reports the double initialization whenever the list itself fits |
| Stores.HelpersKeepBalance | core/src/main/kotlin/event/StoreGetEvent.kt:15-18 | firing a get or a put helper (try, then process) keeps the bound, and keeps gets waiting only while the store is empty and puts only while it is full |
| Stores.PutThenGetRoundTrip | core/src/main/kotlin/resources/Store.kt:115-139 | a put into a store with room followed by a get returns the oldest item, which is the put item when the store was empty, leaving it empty again |
| Stores.WaitingGetServedByLaterPut | core/src/main/kotlin/resources/Store.kt:147-151 | a get waiting on an empty store receives the item of a later put, which grants both events and leaves no item and no waiting get |
| Stores.WaitingPutServedByLaterGet | core/src/main/kotlin/resources/Store.kt:159-163 | a put waiting on a full store is let in by a later get, which takes the oldest item; the put item goes to the back |
| Servers.NewServer | src/main/kotlin/simulation/resources/Server.kt:48-51 | a new server is unblocked, has no waiting requests and no active request |
| Servers.TryRequest | src/main/kotlin/simulation/resources/Server.kt:116-125 | a blocked server queues the request at the back and grants nothing; an unblocked one grants the request at once and is otherwise unchanged |
| Servers.ProcessRequest | src/main/kotlin/simulation/resources/Server.kt:99-102 | the fired request becomes the active one; nothing else changes |
| Servers.TryRelease | src/main/kotlin/simulation/resources/Server.kt:127-130 | the server becomes unblocked; nothing else changes |
| Servers.ProcessRelease | src/main/kotlin/simulation/resources/Server.kt:104-114 | the active request's event, if any, is expired and the active slot cleared; if requests wait, exactly the head is taken and retried through tryRequest |
| Servers.ReplayIsFifo | src/main/kotlin/simulation/resources/Server.kt:104-125 | over any sequence of server operations, the requests that left the queue, followed by those still waiting, are those waiting at the start followed by those that entered, in order |
| Servers.ApplyIsFifo | src/main/kotlin/simulation/resources/Server.kt:104-130 | the same queue accounting holds for each single operation |
| Servers.NeverBlocked | src/main/kotlin/simulation/resources/Server.kt:49-130 | no operation sets the blocked flag, so a server that starts unblocked stays unblocked |
| Servers.QueueStaysEmpty | src/main/kotlin/simulation/resources/Server.kt:116-125 | consequently, from a new server, no request ever waits and the queue stays empty |
| Servers.QueueStaysEmptyFrom | src/main/kotlin/simulation/resources/Server.kt:116-125 | the same from any unblocked server with an empty queue |
| State.Schedule | core/src/main/kotlin/Environment.kt:129-134 | schedule sets the due time to now plus the delay, assigns the next id, appends the event to the queue, and changes nothing else; an unknown reference changes nothing |
| State.AppendTo | src/main/kotlin/simulation/event/EventBase.kt:62-64 | appendCallback on one event of the table changes only that event's callback list, which gains the callback at the end |
| State.SucceedWith | core/src/main/kotlin/event/ValueEvent.kt:32-38 | succeed(v) makes v readable at once, schedules the event due now plus its delay, keeps its flags, callbacks and kind, and leaves every other event unchanged |
| State.ExpireEvent | core/src/main/kotlin/event/ValueEvent.kt:56-59 | expire() on one event makes it read null, schedules nothing, and changes nothing else |
| State.ScheduledIdIsFresh | core/src/main/kotlin/Environment.kt:35-41 | the id schedule assigns exceeds every id already handed out |
| State.ScheduleIdsIncrease | core/src/main/kotlin/Environment.kt:182-184 | ids from two schedule calls strictly increase, whatever happens in between, provided the id counter never goes back (firings, steps and runs all guarantee this) |
| Processes.NewProcess | core/src/main/kotlin/process/SimProcess.kt:26-42 | a new process is an unscheduled, untriggered, unprocessed, not-alive process event whose only callback resumes it, with a fresh finished event allocated just before it |
| Processes.RunAction | src/main/kotlin/simulation/resources/Server.kt:62-71 | one action of process code keeps every event's flags, kind and callbacks; only a serverAction from a scope not holding the server raises, with the state untouched, and every other action raises nothing |
| Processes.RunActions | core/src/main/kotlin/process/SimProcess.kt:60-65 | the code between two yields runs its actions in order and raises only the invalid-server-action error, keeping every event's flags and kind |
| Processes.Advance | core/src/main/kotlin/process/SimProcess.kt:64 | pulling one element moves the cursor of exactly this process by one |
| Processes.Finish | core/src/main/kotlin/process/SimProcess.kt:66-71 | exhaustion marks the process processed and not alive, schedules its finished event, and leaves every other event alone |
| Processes.Attach | core/src/main/kotlin/process/SimProcess.kt:64-65 | attaching the continuation moves this process one pull further, keeps its flags, adds the resume callback at the end of the yielded event's list, leaves every other event alone and schedules nothing |
| Processes.Pull | core/src/main/kotlin/process/SimProcess.kt:60-65 | resuming with an element left runs the code before the next yield, raising exactly what that code raises; when it raises nothing, the queue, trace and resources are those the code left, the yielded event's callbacks gain this process's resume callback at the end, the cursor advances, and every other event is as that code left it |
| Processes.Exhaust | core/src/main/kotlin/process/SimProcess.kt:60-71 | resuming an exhausted sequence runs the code after the last yield once, raising exactly what it raises; when it raises nothing, the trace and resources are those it left, the queue is its queue followed by the finished event, the process is processed and not alive, and every event other than the process and its finished event is as that code left it |
| Processes.Resume | core/src/main/kotlin/process/SimProcess.kt:60-72 | resume() either continues onto the next yielded event, with the pull's effects above, or runs the code after the last yield and finishes the process, with the exhaustion's effects above; in both branches no other event is touched beyond what the process code did; an unknown process changes nothing |
| Processes.TimeoutResumesAfterDelay | core/src/main/kotlin/process/SimProcess.kt:60-65 | a process that yields a timeout it schedules has the timeout queued due now plus its delay, with the process's resume callback attached |
| Conditions.Register | core/src/main/kotlin/event/Condition.kt:13-17 | registration changes only callback lists: no event appears or vanishes, nothing is scheduled and no other field changes |
| Conditions.RegisterAppendsChecks | core/src/main/kotlin/event/Condition.kt:13-17 | each event gains, after its own callbacks, exactly one check per occurrence among the children, in argument order |
| Conditions.NewCondition | core/src/main/kotlin/event/Condition.kt:11-17 | a condition is a fresh, unscheduled, untriggered event with a null value holding its children, and construction changes only callback lists of existing events |
| Conditions.NewConditionRegistersChecks | core/src/main/kotlin/event/Condition.kt:11-17 | after construction each existing event's callbacks are its old ones followed by its checks |
| Conditions.ChecksOfDistinctChildren | core/src/main/kotlin/event/Condition.kt:14-16 | with distinct children, each child receives exactly one check and every other event none |
| Conditions.AllOfWithoutChildrenRegistersNothing | core/src/main/kotlin/event/AllOfCondition.kt:11-16 | an AllOf over no children leaves every existing event unchanged, so nothing can ever succeed it |
| Conditions.FirstTriggered | core/src/main/kotlin/event/AnyOfCondition.kt:13 | the first triggered child in argument order: it is triggered and no earlier child is; none exists exactly when no child is triggered |
| Conditions.Check | core/src/main/kotlin/event/AllOfCondition.kt:12-16 | AllOf schedules the condition exactly when every child is triggered, leaving its value as it was; AnyOf succeeds it with the first triggered child, and that succeed is the check's only effect, or does nothing when none is triggered; the check never changes the condition's children |
| Conditions.CheckIgnoresChild | core/src/main/kotlin/event/AnyOfCondition.kt:12-17 | the check does not depend on which child fired |
| Conditions.AllOfSucceedsOnLastChild | core/src/main/kotlin/event/AllOfCondition.kt:12-16 | once the firing child is triggered and all others already are, the check schedules the condition |
| Conditions.AllOfWaitsForUntriggeredChild | core/src/main/kotlin/event/AllOfCondition.kt:12-16 | while any child is untriggered, the check changes nothing |
| Conditions.AnyOfHasNoOnceGuard | core/src/main/kotlin/event/AnyOfCondition.kt:12-17 | a second check succeeds an AnyOf again, queuing it a second time with the same first triggered child as value |
| StoreEvents.NewStore | core/src/main/kotlin/resources/Store.kt:19-23 | a new empty store is added at the next index; nothing else changes |
| StoreEvents.InitializeStore | core/src/main/kotlin/resources/Store.kt:36-45 | initialize on a store of the environment fails exactly as the store operation does; on success only that store changes, gaining the items in order |
| StoreEvents.ApplyGrants | core/src/main/kotlin/resources/Store.kt:117-135 | succeeding granted events never touches the stores, servers or trace |
| StoreEvents.ApplyGrantsQueue | core/src/main/kotlin/resources/Store.kt:117-135 | succeeding the grants queues exactly the granted events, in grant order |
| StoreEvents.ApplyGrantsValues | core/src/main/kotlin/resources/Store.kt:117-135 | every granted event reads its granted item, the last grant deciding, and events no grant names are untouched |
| StoreEvents.ApplyGrantsConcat | core/src/main/kotlin/resources/Store.kt:147-163 | granting two lists in turn equals granting their concatenation |
| StoreEvents.DoTryGet | core/src/main/kotlin/resources/Store.kt:115-121 | in the environment, tryGet installs the store's new state and, when an item is taken, succeeds the get event with it |
| StoreEvents.DoProcessGet | core/src/main/kotlin/resources/Store.kt:159-163 | in the environment, processGet installs the store's new state as the store operation computes it |
| StoreEvents.DoTryPut | core/src/main/kotlin/resources/Store.kt:132-139 | in the environment, tryPut installs the store's new state and, when there was room, succeeds the put event with its item |
| StoreEvents.DoProcessPut | core/src/main/kotlin/resources/Store.kt:147-151 | in the environment, processPut installs the store's new state as the store operation computes it |
| StoreEvents.GetHelperMatchesStore | core/src/main/kotlin/event/StoreGetEvent.kt:15-18 | running the get helper's two callbacks in the environment installs the store computed by the pure model and succeeds exactly its grants |
| StoreEvents.PutHelperMatchesStore | core/src/main/kotlin/event/StorePutEvent.kt:15-18 | the same for the put helper |
| StoreEvents.WireGet | core/src/main/kotlin/event/StoreGetEvent.kt:12-17 | a get event with no callbacks of its own and a zero-delay helper carrying tryGet then processGet; nothing is scheduled yet |
| StoreEvents.WirePut | core/src/main/kotlin/event/StorePutEvent.kt:12-17 | a put event and a zero-delay helper carrying tryPut with the item, then processPut; nothing is scheduled yet |
| StoreEvents.RequestOne | core/src/main/kotlin/resources/Store.kt:57-59 | requestOne returns a pending, untriggered get event; only its helper is queued, due now |
| StoreEvents.PutOne | core/src/main/kotlin/resources/Store.kt:76-78 | putOne returns a pending, untriggered put event; only its helper is queued, due now |
| StoreEvents.PutIntoFullStoreStaysPending | core/src/main/kotlin/resources/Store.kt:132-151 | a put into a full store with no waiting get is queued and its event stays unscheduled and null |
| ServerEvents.NewServer | src/main/kotlin/simulation/resources/Server.kt:48-51 | a new idle server is added at the next index; nothing else changes |
| ServerEvents.WireRequest | src/main/kotlin/simulation/resources/Server.kt:17-30 | a request event carrying processRequest and a zero-delay helper carrying tryRequest, both for the same request; nothing is scheduled yet |
| ServerEvents.WireRelease | src/main/kotlin/simulation/resources/Server.kt:33-41 | a release event carrying processRelease and a zero-delay helper carrying tryRelease; nothing is scheduled yet |
| ServerEvents.Request | src/main/kotlin/simulation/resources/Server.kt:81-83 | request(scope) returns the request event; only its helper is queued, due now |
| ServerEvents.Release | src/main/kotlin/simulation/resources/Server.kt:95-97 | release() returns the release event; only its helper is queued, due now |
| ServerEvents.DoTryRequest | src/main/kotlin/simulation/resources/Server.kt:116-125 | an unblocked server succeeds the request with itself as value and queues it; a blocked server schedules nothing |
| ServerEvents.DoProcessRequest | src/main/kotlin/simulation/resources/Server.kt:99-102 | after the request fires, its scope, and only that scope, holds the server; nothing else changes |
| ServerEvents.DoTryRelease | src/main/kotlin/simulation/resources/Server.kt:127-130 | the server is unblocked and the release event succeeds with the server as value |
| ServerEvents.DoProcessRelease | src/main/kotlin/simulation/resources/Server.kt:104-114 | after the release fires, no scope holds the server; the released request reads null and EXPIRED unless the next waiting request, granted at once, names that same event; with no waiting request nothing is scheduled |
| ServerEvents.ServerAction | src/main/kotlin/simulation/resources/Server.kt:62-71 | succeeds, scheduling the action's process, exactly when the scope holds the server's active request; otherwise it fails with the invalid-server-action error |
| ServerEvents.RequestServeRelease | src/main/kotlin/simulation/resources/Server.kt:62-130 | on an idle server a request is granted with the server as value; after it fires, serverAction is allowed from its scope and from no other; after a release, the request reads null, is EXPIRED and no longer allows the action |
| Firing.Dispatch | src/main/kotlin/simulation/event/EventBase.kt:51-53 | one callback: only the termination callback raises the stop signal, only a process resumption can raise the invalid-server-action error, and caller code records itself |
| Firing.RunCallbacks | src/main/kotlin/simulation/event/EventBase.kt:51-53 | the callback loop; a stop signal comes only from a termination callback in the list |
| Firing.CallbacksRunOnceInOrder | src/main/kotlin/simulation/event/EventBase.kt:51-53 | each callback runs exactly once, in list order, receiving the event itself |
| Firing.Trigger | core/src/main/kotlin/process/SimProcess.kt:79-81 | firing sets isTriggered, and isAlive for a process, keeping everything else |
| Firing.MarkProcessed | src/main/kotlin/simulation/event/EventBase.kt:54 | only the fired event's processed flag changes |
| Firing.Fire | src/main/kotlin/simulation/event/EventBase.kt:49-55 | a non-process event that raises nothing ends processed; a stop signal means the event carried the termination callback |
| Firing.FireWithObservers | src/main/kotlin/simulation/event/EventBase.kt:49-55 | with only caller-written callbacks: isTriggered is set when they run, each runs once in order, and the event ends triggered and processed with nothing scheduled |
| Firing.TerminationInterruptsFiring | core/src/main/kotlin/event/TerminationEvent.kt:12-19 | the termination callback raises the stop signal: the event is triggered but not processed, and later callbacks do not run |
| Firing.AppendedDuringFiringDoesNotRun | src/main/kotlin/simulation/event/EventBase.kt:49-64 | a callback appended while an event fires does not run in that firing: a process yielding the event resuming it advances only once |
| Firing.FiringProcessStartsIt | core/src/main/kotlin/process/SimProcess.kt:79-85 | firing a process makes it triggered and alive but not processed, and moves its continuation to the yielded event |
| Firing.FiringExhaustedProcessFinishes | core/src/main/kotlin/process/SimProcess.kt:66-71 | firing an exhausted process makes it processed and not alive, and queues its finished event |
| Firing.AllOfSucceedsWhenLastChildFires | core/src/main/kotlin/event/AllOfCondition.kt:12-16 | because isTriggered is set before the callbacks run, firing the last untriggered child of an AllOf schedules the condition |
| Firing.ValueSurvivesResumption | core/src/main/kotlin/event/ValueEvent.kt:45-51 | a value event's value stays readable while it fires and resumes a waiting process |
| Environment.TerminationEvent | core/src/main/kotlin/event/TerminationEvent.kt:12-15 | a zero-delay HIGH event whose only callback raises the stop signal |
| Environment.NewEnvironment | core/src/main/kotlin/Environment.kt:20-33 | a negative start time is rejected; otherwise the clock starts there, the queue is empty, the state is well formed and the termination event exists unscheduled |
| Environment.Timeout | core/src/main/kotlin/Environment.kt:79-83 | a negative delay is rejected; otherwise a new event is queued due now plus the delay with the next id |
| Environment.ScheduleAll | core/src/main/kotlin/Environment.kt:143-150 | the returned list is exactly the given events |
| Environment.ScheduleAllQueues | core/src/main/kotlin/Environment.kt:143-150 | exactly the given events are queued, in argument order, with one id each |
| Environment.ProcessOf | core/src/main/kotlin/Environment.kt:90-93 | the process is queued, and its finished event is returned |
| Environment.ProcessBody | core/src/main/kotlin/Environment.kt:102-104 | a new process is built and queued; its fresh finished event is returned |
| Environment.ProcessAll | core/src/main/kotlin/Environment.kt:113-120 | the processes are queued in order, and the processes themselves are returned |
| Environment.ProcessOverloadsDisagree | core/src/main/kotlin/Environment.kt:90-120 | for the same process, the single overload returns something other than the process, while the list overload returns the process |
| Environment.Pop | core/src/main/kotlin/Environment.kt:173-174 | removing an entry that is not after any other and moving the clock to its due time keeps the state well formed: nothing left in the queue is due earlier |
| Environment.Step | core/src/main/kotlin/Environment.kt:171-180 | empty schedule exactly on an empty queue; otherwise exactly one entry, not after any queued entry, is removed from the queue, the clock moves to its due time and never backwards, and that event is fired on the resulting state; well-formedness is kept, the counters never go back, and a stop signal means it carried the termination callback |
| Environment.HighFiresBeforeNormal | core/src/main/kotlin/Environment.kt:25-31 | of two entries due at the same time, the HIGH one is popped first whichever was queued first |
| Environment.StepPopsOnlyEntry | core/src/main/kotlin/Environment.kt:171-176 | with a single queued entry, step pops it, sets the clock to its due time and fires it |
| Environment.Loop | core/src/main/kotlin/Environment.kt:155-164 | the loop keeps the state well formed and the clock and id counter monotone; an empty queue ends it with the empty-schedule error; only that error and the invalid-server-action error escape; a first step raising the stop signal ends it Stopped in the stepped state, and one raising an error ends it Failed there |
| Environment.LoopStopsOnlyOnStopSignal | core/src/main/kotlin/Environment.kt:155-162 | the loop ends Stopped only when, within the step budget, some step raises the stop signal after steps that all raised nothing |
| Environment.LoopAfterQuietStep | core/src/main/kotlin/Environment.kt:156-158 | a step that raises nothing is followed by the rest of the loop on the stepped state |
| Environment.LoopFailsOnceDrained | core/src/main/kotlin/Environment.kt:171-179 | a quiet step that empties the queue makes the next pass fail with the empty-schedule error |
| Environment.Watcher | core/src/main/kotlin/Environment.kt:65-68 | the watcher process yields the until-event once and then succeeds the termination event |
| Environment.WatcherSucceedsTermination | core/src/main/kotlin/Environment.kt:65-68 | resumed a second time, the watcher succeeds the termination event, due now, then finishes: it is processed and not alive, and the queue gains the termination event followed by its finished event |
| Environment.RunUntilEvent | core/src/main/kotlin/Environment.kt:63-70 | running to an event keeps the state well formed and never moves the clock or the id counter back |
| Environment.WatcherStartsOnEmptyQueue | core/src/main/kotlin/Environment.kt:63-69 | the first step of running to an event on an empty queue pops the watcher, which attaches itself to the event, raises nothing and leaves the queue empty |
| Environment.RunOnUnscheduledEventFails | core/src/main/kotlin/Environment.kt:57-70 | from an empty queue, running to an event that nothing schedules ends in the empty-schedule error |
| Environment.RunUntil | core/src/main/kotlin/Environment.kt:48-52 | a non-positive limit is rejected and changes nothing; otherwise the run keeps the state well formed and never moves the clock or the id counter back |

## Left out

- Coroutines are not modelled as such. A process sequence is a fixed list
  of pulls, each with the actions run before its yield, plus the code after
  the last yield. A Kotlin sequence can compute its next event from state;
  the model fixes the list when the process is built.
- Request and event constructors that allocate and schedule a helper in one
  step are split into two parts. Allocation is `WireGet`, `WirePut`,
  `WireRequest`, `WireRelease` or `Watcher`. The `ScheduleEvent` action then
  schedules the helper. This is because the allocation happens before the
  process runs.
- Time is an integer rather than a Double. The `.toInt()` truncation in the
  comparator and any rounding are not modelled.
- Exceptions and their messages are replaced by outcome values.
- `EventBase.fail()` has an empty body and `SimProcess.interrupt()` only
  throws "not implemented", so neither is modelled.
- `setId` is folded into `State.Schedule`. The id counter is a field of the
  environment starting at 0, not a counter shared by all environments of
  the process.
- Store items are never null, so `numberOfAvailableItems` is the length of
  the item list (`Stores.Count`).
- The kernel instantiates stores with integer items only. The `Stores` module
  itself is generic.
- `java.util.PriorityQueue` gives no tie-break guarantee. `Ordering.MinIndex`
  breaks ties by insertion order.
- The queue holds references and reads the due time from the event table.
  Rescheduling a queued event therefore moves both of its entries to the
  newer due time. The heap corruption this causes in Java is not modelled.
- Environment.Loop: the source loops without bound. The model takes a step
  budget and returns `OutOfFuel` when it runs out. That a stop signal raised
  at a later pass within the budget ends the loop Stopped is stated only for
  the first pass; the other direction is `LoopStopsOnlyOnStopSignal`.
- Environment.Step: the kernel pops entries in the corrected order (due time
  first, then priority, then insertion), not by the comparator as written at
  `core/src/main/kotlin/Environment.kt:25-31`. The comparator as written is
  `Ordering.LiteralCompare`, used only by the lemmas in "## Findings".
- Environment.RunUntilEvent: the model does not prove that `now` ends at the
  time the until-event fires. Only single steps are stated about a whole run:
  - `Environment.Step` sets the clock to the popped entry's due time;
  - `Environment.StepPopsOnlyEntry`;
  - `Environment.RunOnUnscheduledEventFails`.
- Environment.RunUntil: for the same reason, the model does not prove that a
  run ends at `now + until`.
- Processes.TimeoutResumesAfterDelay: only a single resumption is stated.
  The timing property over a whole run, where the k-th resumption happens at
  the start time plus d1+…+dk, is not proved.
- Firing.FiringExhaustedProcessFinishes: only the single firing is stated.
  A parent process waiting on a child's finished event resuming after the
  child is exhausted is not proved as a whole-run property.
- Conditions.Check: the multi-step scenarios, where AllOf fires at the latest
  child time and AnyOf at the earliest, are stated per check and per firing.
  See `Conditions.AllOfSucceedsOnLastChild`,
  `Firing.AllOfSucceedsWhenLastChildFires` and
  `Conditions.AnyOfHasNoOnceGuard`. They are not proved over a run.
- Firing.Fire: the contract does not state that `isTriggered` remains set
  after the callbacks run. No callback clears it, but the contract does not
  carry that fact.
- Environment.Step: the model does not prove that a stop signal comes only
  from the environment's own termination event. It proves only that the
  popped event carried a termination callback.
- The global invariant that a stop signal comes only from the termination
  event is stated per step, not over the whole run.
- ServerEvents.ServerAction: `serverAction` builds its process from `fn()`.
  The model takes a process built beforehand and only schedules it.
- The blocked path of the server (`isBlocked == true`) cannot be reached
  through the modelled operations (`Servers.NeverBlocked`). The queued-request
  paths are modelled but, as written, never taken.
- `core/src/main/kotlin/event/ServerReleaseEvent.kt` wires its events exactly
  as `Server.kt:33-41` does, so it is covered by `ServerEvents.WireRelease`.
- `getConditionValue` is not part of this model.
- Every store, server and process reference is assumed to exist. Callbacks
  on a missing store or server change nothing. `StoreEvents.InitializeStore`
  requires an existing store.
- State.ScheduledIdIsFresh: the Kotlin id counter
  (`core/src/main/kotlin/Environment.kt:36-40`) is an `Int`, which wraps to
  a negative value after 2^31 - 1 schedule calls. The model's counter is
  unbounded, so freshness is proved only below that wrap.
- State.ScheduleIdsIncrease: for the same reason, strict increase holds in
  the source only while fewer than 2^31 - 1 ids have been handed out; the
  model's counter is unbounded.
- Processes.NewProcess: the `SimProcess` constructor's optional `timeout`
  argument (`core/src/main/kotlin/process/SimProcess.kt:26-30`, default 0.0)
  is not a parameter; every process is built with delay 0 and NORMAL
  priority, which is what every construction in the kernel uses.
- The EventBase constructor defaults (timeout 0.0, priority NORMAL) are
  explicit arguments of `Events.NewEvent`. `Processes.NewProcess` fixes them,
  as the line above says.
- `processStartTime` is recorded but never read by the source, so it is not
  modelled.

## Findings

| source | as written | input that shows it | evidently intended | confidence | as-written member | corrected member |
|---|---|---|---|---|---|---|
| core/src/main/kotlin/Environment.kt:26-27 | the comparator tests equal delays (`timeout`) and then compares priorities only | two events of delay 10, one NORMAL scheduled at time 0 (due 10) and one HIGH scheduled at time 5 (due 15): the HIGH one is ordered first, so the clock would later go back from 15 to 10 | compare due times first, and break ties by priority | not executed | Ordering.LiteralOrdersLaterEventFirst | Ordering.MinIndex |
| core/src/main/kotlin/Environment.kt:26-29 | events due at the same time but with different delays are compared by the truncated difference of their due times, which is 0 | a NORMAL event of delay 10 scheduled at 0 and a HIGH event of delay 5 scheduled at 5, both due 10, compare as equal | at equal due times the HIGH event goes first | not executed | Ordering.LiteralTiesAcrossPriorities | Environment.HighFiresBeforeNormal |
| src/main/kotlin/simulation/event/EventBase.kt:72 | prepend extends the existing list by the new callback followed by a copy of the old list | callbacks [a], prepend f: the list becomes [a, f, a], so a runs twice and f does not run first | [f, a] | not executed | Events.PrependAsWrittenMatchesOnlyOnEmpty | Events.PrependCallback |
