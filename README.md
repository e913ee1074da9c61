# Cognition-Lattice orchestration core in Dafny

This project models the orchestration core of Cognition-Lattice (S.I.O.S.):

- **Message bus** — the message envelope (`Message`, `to_dict`, `from_dict`, `reply`) and the dot-segment wildcard matcher. Also the `MessageBus` routing tables, changed by `publish`, `subscribe` and its cancellation clean-up, the bookkeeping of `request`, and `close`.
- **Resource manager** — a table of base compute resources from which `allocate` cuts slices and to which `release` credits them back. It also covers the `initialize`/`cleanup` life cycle and `get_executor`.
- **SAGA harmonizer** — `run_all`: agents run in order, and those that ran are compensated in reverse on failure.
- **Dispatcher and registry** — `AgentCore._load_agents` builds the intent-type registry, and `dispatch` uses it.
- **Runtime task table** — the bookkeeping of `run_with_timeout`.
- **Echo responder** — builds the reply to an intent.
- **The four shipped agents** — plan, act, verify and echo.
- **Small state holders** — the in-memory FIFO brokers, the one-shot response store, the TTL store, the priority-ordered route list, and the broker-host extraction of the start-up health check.

Python dictionaries are `map<string, Value>` over a JSON-like `Value` datatype. Python's `str.split` with an explicit separator is `Strings.SplitOn`.

Objects whose fields the source updates are classes with `modifies` clauses:

- `MessageBus`
- `ResourceManager`
- `MultiAgentHarmonizer`, and the agents' `rolled_back` flag
- `AgentCore`
- `AgentRuntimeManager`
- the brokers' queues
- `ResponseStore`
- `MemoryPersistence`
- `RetroVectorBridge` and `Route`

Each method is proved against a specification function, and the lemmas state what the source promises about that function.

Values the source draws from the environment are parameters:

- uuids, `datetime.utcnow()` and `time.time()`;
- the host's CPU count and GPU list;
- the hexadecimal object id that makes a slice id unique;
- the way an awaited task ends.

Asynchronous code is sequential: each stretch between two awaits is one atomic method. `request`, for example, is `BeginRequest` then `AwaitResponse`.

Points where the code behaves in ways a reader might not expect, all modelled as written:

- **`dispatch` can raise.** It looks the intent type up with `registry.get`, which raises TypeError for an unhashable value such as a list. It also calls the registered class at agent_core.py:35, before the `try`, so a class that cannot be instantiated raises out of `dispatch`. An example is a subclass that never defines the abstract `execute`, which `_load_agents` still registers. `Core.AgentCore.Dispatch` returns `Err(Unhashable(...))` or `Err(InstantiationFailed(...))` in exactly these two cases. The four shipped classes can all be instantiated, so with their registry only an unhashable intent type makes `dispatch` raise.
- **`close` drains nothing.** Its drain loop walks `self._queues`, which nothing ever fills. Queued deliveries therefore stay in place; only the running flag and the two routing tables are reset.
- **`release` can credit the wrong base.** It matches the base by the id text before the first ':' and a prefix test, not by the base the slice was cut from. `Resources.ResourceManager.Release` does the same; see "## Findings".
- **The correlation id on a `Message` stays empty.** When it is absent or empty, only the dictionary form substitutes the message id. A reply's wire correlation id is the original's id only when that id is non-empty; `Messages.ReplyWireCorrelation` requires it.

## Model

| member | source | states |
|---|---|---|
| Messages.ParseType | messaging_bus.py:15-21 | `MessageType(s)` accepts exactly the five wire names and rejects every other string |
| Messages.ParseTypeName | messaging_bus.py:15-21 | every message type survives the trip through its wire name |
| Messages.ToDict | messaging_bus.py:35-46 | the dictionary has exactly the eight wire keys, and its correlation id is the message's own, falling back to the message id when absent or empty |
| Messages.FromDict | messaging_bus.py:49-60 | a missing "type" or "source" is a KeyError and an unknown type a ValueError; a dictionary whose fields have their declared types always decodes; on success every field is the one given, with None for a missing target or correlation id, {} for a missing payload or metadata, and the generated id and timestamp for missing ones |
| Messages.FromToDict | messaging_bus.py:35-60 | decoding the dictionary form returns the message, with the correlation id made explicit |
| Messages.ToFromToDict | messaging_bus.py:35-60 | re-encoding a decoded dictionary reproduces the dictionary |
| Messages.Reply | messaging_bus.py:62-71 | a reply is a RESPONSE correlated with the original id, addressed to the original source, sent from the original target or "", carrying the given payload or {} |
| Messages.ReplyWireCorrelation | messaging_bus.py:35-71 | on the wire a reply to a message with a non-empty id carries that id as its correlation id |
| Messages.MatchPattern | messaging_bus.py:106-120 | the early-return loop answers true exactly when both split on '.' into equally many segments and each pattern segment is "*" or equal to the topic's |
| Messages.LiteralPatternMatchesOnlyItself | messaging_bus.py:106-120 | a pattern without a whole "*" segment matches its own text and nothing else |
| Messages.EmbeddedStarIsLiteral | messaging_bus.py:106-132 | "ec*.x" holds a '*', so it is filed as a wildcard, yet it matches only the topic "ec*.x" |
| Messages.NoPatternSpansLengths | messaging_bus.py:111-112 | no pattern matches two topics with different segment counts |
| Bus.Published | messaging_bus.py:97-104 | publishing adds deliveries only to queues that exist and creates none |
| Bus.PublishWithoutSubscribers | messaging_bus.py:97-104 | publishing on a topic that no exact or wildcard entry routes leaves every queue unchanged |
| Bus.SubscribeCancelRoundTrip | messaging_bus.py:129-154 | cancelling a fresh subscription restores both routing tables exactly, including deleting topics left with no subscriber |
| Bus.ExactRoundTrip | messaging_bus.py:133-153 | adding a fresh queue under any set of topics and discarding it again gives back the exact-topic table |
| Bus.RequestMessage | messaging_bus.py:162-168 | `request` publishes an INTENT from "system" to the topic, carrying the given id and no correlation id |
| Bus.MessageBus.constructor | messaging_bus.py:80-84 | a new bus is running with empty tables |
| Bus.MessageBus.NewQueue | messaging_bus.py:127 | a new queue is empty and no table mentions it |
| Bus.MessageBus.Enqueue | messaging_bus.py:99 | `queue.put` appends the delivery to that queue only |
| Bus.MessageBus.Publish | messaging_bus.py:86-104 | a stopped bus raises NotRunning before enqueuing anything; otherwise each queue gains one copy per exact subscription and one per matching wildcard entry, and the tables are unchanged |
| Bus.MessageBus.DeliverDirect | messaging_bus.py:98-99 | the first loop adds one copy to each queue of the topic's exact set and nothing elsewhere |
| Bus.MessageBus.DeliverMatching | messaging_bus.py:102-104 | the second loop adds one copy to a queue for each wildcard entry of that queue whose pattern matches |
| Bus.MessageBus.DeliverIfMatching | messaging_bus.py:103-104 | one wildcard entry enqueues on its queue exactly when its pattern matches |
| Bus.MessageBus.Subscribe | messaging_bus.py:122-136 | a stopped bus raises; otherwise a fresh queue is filed under every exact topic and appended once per wildcard pattern, in order |
| Bus.MessageBus.File | messaging_bus.py:131-136 | a pattern holding '*' goes to the wildcard list and any other into its topic's set |
| Bus.MessageBus.Cancel | messaging_bus.py:143-154 | clean-up removes the queue from every listed exact topic, deleting emptied topics, and drops its entries under the listed wildcard patterns |
| Bus.MessageBus.Discard | messaging_bus.py:146-153 | one pattern's clean-up, for the wildcard list and for an exact topic |
| Bus.MessageBus.BeginRequest | messaging_bus.py:156-180 | a stopped bus raises; otherwise a private queue is subscribed to "response.<id>" and the INTENT is published |
| Bus.MessageBus.AwaitResponse | messaging_bus.py:182-197 | the first response queued is decoded, or else it times out; the private queue always leaves "response.<id>", and KeyError is raised when `close` has cleared the table |
| Bus.MessageBus.Receive | messaging_bus.py:138-142 | while running, the subscriber takes the oldest delivery and decodes it; a bus already stopped when the loop test runs ends the stream |
| Bus.MessageBus.Close | messaging_bus.py:199-211 | `close` stops the bus and empties both tables, leaving queued deliveries in place |
| Resources.LogicalCpus | resource_manager.py:67 | `os.cpu_count() or 1` is at least 1 |
| Resources.Detected | resource_manager.py:65-108 | the detected table is "cpu:0" with capacity = available = CPU count, then one unit CUDA entry per device, nothing allocated |
| Resources.DetectedUniqueKeys | resource_manager.py:84-108 | no two detected entries share a (type, id) key |
| Resources.Best | resource_manager.py:173-183 | the chosen candidate has the requested type and headroom, the greatest available, and is the first such in table order (stable sort); none is chosen only when no entry fits |
| Resources.BestUnique | resource_manager.py:182-183 | the best candidate is unique |
| Resources.Took | resource_manager.py:184-185 | the decrement changes only available amounts |
| Resources.Allocation | resource_manager.py:161-200 | amount <= 0 raises ValueError; with no fitting entry it raises ResourceAllocationError and leaves the table unchanged |
| Resources.AllocationTakesBest | resource_manager.py:182-193 | on success exactly `amount` is taken from the best candidate alone, and one slice of it with capacity = available = amount is returned |
| Resources.AllocationBounded | resource_manager.py:176-185 | `allocate` keeps 0 <= available <= capacity and changes no other field |
| Resources.FirstOwner | resource_manager.py:207-221 | the credited entry is the first owner in table order; without one, none is credited |
| Resources.Credited | resource_manager.py:209-221 | crediting one record changes only available amounts |
| Resources.Released | resource_manager.py:202-221 | releasing a list changes only available amounts |
| Resources.ReleasedBounded | resource_manager.py:211-214 | crediting capped at capacity keeps 0 <= available <= capacity |
| Resources.DonorIsOwner | resource_manager.py:208-210 | under the intended rule, the only owner of a slice of entry i is entry i |
| Resources.AllocateReleaseRoundTrip | resource_manager.py:161-221 | releasing what `allocate` returned restores the table exactly, for any table shape (corrected rule) |
| Resources.PrefixOfSlice | resource_manager.py:208 | the text before the first ':' of a slice id is that of its base id |
| Resources.CpuRoundTripAsWritten | tests/test_resource_manager.py:8-16 | as written, allocating and releasing CPU on a freshly detected table restores it |
| Resources.TwoGpuTable | resource_manager.py:76-108 | the detected table of a host with eight CPUs and two devices, written out |
| Resources.SecondGpuLeaksAsWritten | resource_manager.py:202-221 | as written, releasing the second device's slice credits the first device and leaves cuda:1 exhausted |
| Resources.ResourceManager.constructor | resource_manager.py:46-51 | a new manager is uninitialized with no entries and no executors |
| Resources.ResourceManager.Initialize | resource_manager.py:53-63 | the first call installs the detected table and both executors; later calls change nothing |
| Resources.ResourceManager.Allocate | resource_manager.py:161-200 | initializes, then behaves as `Allocation` on the table |
| Resources.ResourceManager.TakeFrom | resource_manager.py:184-193 | `min(amount, available)` is the amount, since the entry is a candidate; the slice copies the base's type, name and metadata |
| Resources.ResourceManager.FindBest | resource_manager.py:173-183 | the scan returns the best candidate |
| Resources.ResourceManager.Release | resource_manager.py:202-221 | each record is credited in turn to the first entry of its type whose id starts with the record id's text before its first ':', capped at capacity; an empty list changes nothing; bounds and the entries' other fields are kept |
| Resources.ResourceManager.Credit | resource_manager.py:208-221 | the first entry of the record's type whose id starts with `split(":", 1)[0]` of the record id is credited and the search stops; a record without such an entry changes nothing |
| Resources.ResourceManager.GetExecutor | resource_manager.py:223-229 | an executor is returned exactly for a known name; any other name is ValueError |
| Resources.ResourceManager.Cleanup | resource_manager.py:231-238 | executors and entries are cleared, and the manager is uninitialized again |
| Resources.NoExecutorBeforeInitialize | resource_manager.py:223-238 | before `initialize` and after `cleanup`, every executor name is unknown |
| Agents.PlanAlwaysPlans | cognition_lattice/agents/plan_agent.py:11-12 | the plan agent returns exactly status "planned" and the intent's id |
| Agents.ActFailsOnRequest | cognition_lattice/agents/act_agent.py:11-14 | the act agent raises "Action failed" exactly when simulate_failure is truthy, and otherwise returns status "acted" and the id |
| Agents.VerifyAlwaysRaises | cognition_lattice/agents/verify_agent.py:8-9 | the verify agent always raises "Verification failed" |
| Agents.EchoEchoesArgs | cognition_lattice/agents/echo_agent.py:9-10 | the echo agent returns exactly status "ok" and the intent's args, None when absent |
| Agents.ShippedRollbacks | multi_agent_harmonizer.py:28-29 | plan and act have a callable rollback; verify and echo have none |
| Agents.Execute | cognition_lattice/agents/act_agent.py:11-14 | a shipped agent either raises or returns a result with a "status" other than "error" (likewise plan_agent.py:11-12, verify_agent.py:8-9, echo_agent.py:9-10) |
| Agents.Agent.constructor | cognition_lattice/agents/plan_agent.py:8-9 | a new agent has `rolled_back` false (likewise act_agent.py:8-9) |
| Agents.Agent.Rollback | cognition_lattice/agents/act_agent.py:16-17 | rollback sets `rolled_back`, and repeating it changes nothing further (likewise plan_agent.py:14-15); a raising rollback changes nothing |
| Harmonizer.Forward | multi_agent_harmonizer.py:19-24 | the loop appends at most one result per call and makes at most one call per agent |
| Harmonizer.ForwardResults | multi_agent_harmonizer.py:19-24 | each appended result is what its agent returned, and none but the last has status "error" |
| Harmonizer.ForwardCompletes | multi_agent_harmonizer.py:19-25 | a pass without exception ran every agent, and no result has status "error" |
| Harmonizer.ForwardFails | multi_agent_harmonizer.py:19-24 | a failed pass ends either at a raising agent, which is not appended, or at an appended error-status result whose message became the exception's |
| Harmonizer.RunsOnlyAfterSuccess | multi_agent_harmonizer.py:19-24 | an agent runs only if every earlier one returned a non-error result |
| Harmonizer.AllSucceed | multi_agent_harmonizer.py:19-25 | without failure the result is exactly the agents' results, in order |
| Harmonizer.FailureEndsWithError | multi_agent_harmonizer.py:34-35 | after a failure the list ends with {"status": "error", "message": str(exc)} |
| Harmonizer.RunAllResult | multi_agent_harmonizer.py:14-35 | the list `run_all` returns ends with an error-status result exactly when the forward pass failed |
| Harmonizer.Compensations | multi_agent_harmonizer.py:27-31 | every rollback call is to an executed agent that has a rollback |
| Harmonizer.CompensationOrder | multi_agent_harmonizer.py:27-31 | exactly the executed agents with a rollback are rolled back, each once, latest first |
| Harmonizer.PlanActVerifySaga | tests/test_workflow_saga.py:14-23 | with plan, act and verify, verify raises, act then plan are rolled back, and the last result is an error |
| Harmonizer.ErrorStatusSaga | multi_agent_harmonizer.py:19-34 | an error status stops the pass after that agent, which counts as executed; only the earlier agent is compensated |
| Harmonizer.MultiAgentHarmonizer.constructor | multi_agent_harmonizer.py:11-12 | the harmonizer keeps the given agents |
| Harmonizer.MultiAgentHarmonizer.CompensatedFromMembers | multi_agent_harmonizer.py:27-33 | an agent is marked rolled back exactly when it executed and its rollback completes |
| Harmonizer.MultiAgentHarmonizer.RunAll | multi_agent_harmonizer.py:14-35 | `run_all` returns the forward pass's results plus the error result on failure; rollbacks are called in reverse on failure only, and only the executed, compensable agents get `rolled_back`; nothing escapes |
| Harmonizer.MultiAgentHarmonizer.ForwardPass | multi_agent_harmonizer.py:18-25 | the `try` loop computes the forward pass |
| Harmonizer.MultiAgentHarmonizer.Compensate | multi_agent_harmonizer.py:26-33 | the `except` sweep calls the rollbacks in reverse order, swallowing a raising one |
| Core.ApplyAppend | agent_core.py:21-28 | registering in two batches is registering in one |
| Core.ApplyKeys | agent_core.py:20-28 | loading only adds keys: the new keys are exactly the listed intent types |
| Core.LastRegistrationWins | agent_core.py:27-28 | a later class listing the same intent type overwrites the earlier one |
| Core.UntouchedKeepsClass | agent_core.py:20-28 | an intent type no class lists keeps its earlier class |
| Core.NothingFromNonAgents | agent_core.py:21-27 | non-classes, BaseAgent itself and other classes register nothing, and "__init__.py" is skipped |
| Core.SingleAgentModuleRegisters | cognition_lattice/agents/act_agent.py:1-6 | a module holding BaseAgent and one agent class registers that class under its one intent type only |
| Core.ShippedRegistrations | agent_core.py:21-28 | when the four shipped modules are discovered alphabetically, they make the assignments act, echo, plan, verify, in that order |
| Core.ShippedRegistry | agent_core.py:20-28 | the shipped registry maps exactly "act", "echo", "plan" and "verify" to their agents |
| Core.AgentCore.constructor | agent_core.py:16-18 | a new core's registry is the fold of all module registrations over the empty map |
| Core.AgentCore.LoadAgents | agent_core.py:20-28 | the registry gains every module's registrations, in module order |
| Core.AgentCore.LoadModule | agent_core.py:25-28 | the registry gains one module's registrations, in namespace order |
| Core.AgentCore.Register | agent_core.py:26-28 | the registry gains one class under each intent type it lists |
| Core.DispatchWithoutHandler | agent_core.py:30-34 | an absent or unregistered intent type gives "No agent for intent <t>" ("None" when absent) |
| Core.DispatchToHandler | agent_core.py:35-39 | with a registered class, `dispatch` returns exactly when the class can be instantiated; then the handler's result is returned unchanged, and its exception becomes {"status": "error", "message": str(exc)} |
| Core.AgentCore.Dispatch | agent_core.py:30-39 | `dispatch` raises exactly when the intent type is unhashable (the TypeError of `registry.get`) or its registered class cannot be instantiated (the exception of `agent_cls()`, outside the `try`); otherwise it returns a result |
| Core.ShippedDispatchRaisesOnlyUnhashable | agent_core.py:30-39 | with the registry the shipped modules build, `dispatch` raises only for an unhashable intent type |
| Core.DispatchVerify | agent_core.py:30-39 | dispatching "verify" yields {"status": "error", "message": "Verification failed"} |
| Runtime.Surfaced | agent_runtime_manager.py:15 | completion returns nothing, a timeout surfaces as TimeoutError, and the task's exception propagates unchanged |
| Runtime.FiledThenPopped | agent_runtime_manager.py:13-17 | filing then popping removes the name and keeps all other entries; an earlier entry under the name is not restored |
| Runtime.AgentRuntimeManager.constructor | agent_runtime_manager.py:8-9 | the task table starts empty |
| Runtime.AgentRuntimeManager.Start | agent_runtime_manager.py:12-13 | the task is filed under its name |
| Runtime.AgentRuntimeManager.Finish | agent_runtime_manager.py:16-17 | the `finally` pop removes the name |
| Runtime.AgentRuntimeManager.RunWithTimeout | agent_runtime_manager.py:11-17 | whichever way the task ends, the name is absent afterwards and other entries are unchanged |
| Runtime.OverlappingRunsShareEntry | agent_runtime_manager.py:13-17 | two overlapping runs under one name share the entry, and the first to finish removes the other's |
| EchoResponder.EchoReply | async_echo_agent.py:27-35 | only INTENT messages are answered, each with a RESPONSE addressed to the intent's sender and correlated with its id |
| EchoResponder.AnswerRepliesToIntent | async_echo_agent.py:31-35 | the answer is a RESPONSE correlated with the intent, addressed to its source, from its target or "", with payload original_payload, processed_by "echo_agent" and the intent's timestamp |
| EchoResponder.AnswerCorrelatesOnWire | async_echo_agent.py:13-38 | on the wire the answer's correlation id is the intent's id |
| Brokers.Fifo.constructor | sios_messaging.py:4-5 | each queue starts empty (likewise sios_messaging/inmemory.py:7-8) |
| Brokers.Fifo.Put | sios_messaging.py:8-9 | `put` appends at the tail |
| Brokers.Fifo.Drain | sios_messaging.py:12-18 | the receive loop yields every queued item head first and leaves the queue empty |
| Brokers.Broker.constructor | sios_messaging/inmemory.py:6-8 | a broker has two distinct, empty queues |
| Brokers.Broker.SendIntent | sios_messaging/inmemory.py:10-11 | an intent is appended to the intent queue only (likewise sios_messaging.py:8-9) |
| Brokers.Broker.ReceiveIntents | sios_messaging/inmemory.py:13-19 | every queued intent is received in FIFO order and the queue is emptied; responses are untouched (likewise sios_messaging.py:12-18) |
| Brokers.Broker.AcknowledgeIntent | sios_messaging/inmemory.py:21-23 | acknowledging changes nothing |
| Brokers.Broker.PublishResponse | sios_messaging/inmemory.py:25-26 | a response is appended to the response queue only (likewise sios_messaging.py:26-27) |
| Brokers.Broker.ReceiveResponses | sios_messaging/inmemory.py:28-34 | every queued response is received in FIFO order and the queue is emptied (likewise sios_messaging.py:30-36) |
| Brokers.SendReceiveRoundTrip | tests/test_messaging.py:5-13 | send then receive gives exactly [intent], publish then receive gives exactly [response], and a second receive gives nothing |
| ResponseStore.Added | response_store.py:10-13 | a missing or falsy id adds nothing; otherwise the response is stored under its id, overwriting, and other ids are untouched; an unhashable id raises |
| ResponseStore.Store.constructor | response_store.py:7-8 | the store starts empty |
| ResponseStore.Store.Add | response_store.py:10-13 | `add` behaves as `Added` |
| ResponseStore.Store.Take | response_store.py:15-16 | `get` returns the stored response and removes it, or None when absent; other ids are untouched |
| ResponseStore.OneShot | response_store.py:10-16 | a stored response is handed out by the first `get` and not by a second |
| ResponseStore.LaterAddWins | response_store.py:13 | a later response under the same id replaces the earlier |
| MemoryPersistence.Unexpired | cognition_lattice/memory/memory_persistence.py:22-26 | the kept entries are exactly those with expiry 0 or not before now |
| MemoryPersistence.CleanupInvisible | cognition_lattice/memory/memory_persistence.py:15-26 | cleaning up changes no answer `get` gives at the same time |
| MemoryPersistence.PutThenLookup | cognition_lattice/memory/memory_persistence.py:11-20 | without a ttl, or with ttl 0, a value never expires; with a ttl it is readable up to now+ttl inclusive and gone after |
| MemoryPersistence.MemoryStore.constructor | cognition_lattice/memory/memory_persistence.py:8-9 | the store starts empty |
| MemoryPersistence.MemoryStore.Put | cognition_lattice/memory/memory_persistence.py:11-13 | `put` stores the value with expiry now+ttl, or 0 for a missing or zero ttl, overwriting |
| MemoryPersistence.MemoryStore.Fetch | cognition_lattice/memory/memory_persistence.py:15-20 | `get` returns the value unless the key is absent or expired; an expired entry is deleted and nothing else changes |
| MemoryPersistence.MemoryStore.Cleanup | cognition_lattice/memory/memory_persistence.py:22-26 | `cleanup` removes exactly the expired entries |
| RetroVector.Route.constructor | retrovector_bridge.py:9-12 | a new route is inactive, and its check passes |
| RetroVector.Route.Check | retrovector_bridge.py:14-15 | `check` answers the route's fixed reachability (always true) |
| RetroVector.SortDescSortsAndPermutes | retrovector_bridge.py:24 | the reverse sort gives non-increasing priority and keeps exactly the same routes |
| RetroVector.SortDescStable | retrovector_bridge.py:24 | the sort is stable: routes of equal priority keep their order |
| RetroVector.Bridge.constructor | retrovector_bridge.py:19-20 | the route list starts empty |
| RetroVector.Bridge.AddRoute | retrovector_bridge.py:22-24 | after adding, routes are sorted, a permutation of the old plus the new, and each priority's routes keep insertion order |
| RetroVector.Bridge.GetActiveRoute | retrovector_bridge.py:26-31 | the first route whose check passes is marked active and returned, with no other flag changed; with none, RuntimeError("No active route available") |
| RetroVector.FirstReachable | retrovector_bridge.py:27-30 | the index found is of a route whose check passes |
| RetroVector.FirstReachableIs | retrovector_bridge.py:27-31 | the index found is the first such route, or none if no route qualifies |
| RetroVector.FirstRouteChosen | retrovector_bridge.py:14-30 | since every check passes, the first route is chosen, which on a sorted list has the highest priority |
| RetroVector.Demo | retrovector_bridge.py:34-38 | the demo bridge activates the route "local" |
| Healthcheck.BrokerHost | startup_healthcheck.py:9 | the host extracted from the broker URL holds no ':' |
| Healthcheck.HostIsClean | startup_healthcheck.py:9 | the host holds no ':' and no "//", and it starts the text after the URL's last "//" |
| Healthcheck.SplitAtFirstDoubleSlash | startup_healthcheck.py:9 | a scheme without "//" is split off as the first piece |
| Healthcheck.RedisUrlTail | startup_healthcheck.py:9 | for "redis://rest" with no "//" in rest, the text after the last "//" is rest |
| Healthcheck.DefaultUrlHost | startup_healthcheck.py:8-9 | the default broker URL "redis://localhost:6379/0" gives "localhost" |
| Healthcheck.PathStaysWithoutPort | startup_healthcheck.py:9 | without a port the path stays attached: "redis://h/0" gives "h/0" |

## Left out

- **Asynchrony**: asyncio scheduling, `asyncio.Lock`, queue blocking and the generator laziness of `subscribe`, `receive_intents` and `receive_responses`. Each lock-free or lock-protected stretch is one atomic method. Cancellation is an explicit `Cancel` call, and a timeout is the absence of a queued response. A partially consumed generator is not modelled; receives drain the whole queue.
- `Runtime.AgentRuntimeManager.RunWithTimeout`: models a run with nothing else running during the await. Overlapping runs are stated only through `Start`/`Finish` and `Runtime.OverlappingRunsShareEntry`. `CancelledError` delivered to the caller is not modelled.
- **Floats**: capacities, amounts, ttls and clock readings are exact reals, so IEEE rounding is not modelled.
- **Hardware detection**: parsing `nvidia-smi` output, driver and memory queries, and psutil facts are a `Host` value given to the constructor. `get_resource_usage` reports psutil statistics and is not part of this model. Executors are tracked by name only, and their shut-down is not modelled.
- **Ignored arguments**: `allocate`'s `requirements` argument is unused by the code and is not modelled. The `**kwargs` of `reply` and `request` are not modelled either.
- `Bus.MessageBus.Receive`: a subscriber already waiting on an empty queue when `close` runs is never woken in the source, because `close` puts nothing in the queue and later publishes raise, so its stream never ends. The model's retry after `Waiting` returns `Ended` instead.
- `Messages.FromDict`: field values outside the declared types (a non-string source, id or timestamp, a non-dictionary payload or metadata such as None, a target or correlation id that is neither a string nor None) are rejected with `IllTyped`, whereas `from_dict` stores them in the `Message` unchecked. The model's `Message` carries only the declared field types.
- `Resources.ResourceManager.Allocate`: the filter-then-stable-sort is a single scan for the first candidate with the greatest available. That is the same choice.
- **Registry**: module discovery by glob and `__import__` is a given list of modules in discovery order. The registry is never emptied between loads, so a re-load keeps stale entries, as the code does. The expectation in tests/test_agent_registry.py:32-35 that they disappear does not hold of the code.
- **Retry and backoff**: `run_with_retry`, `run_with_backoff`, `AgentMesh`, `AgentContext` and `_start_watcher` appear in tests but are not defined in the source, so they are not part of this model.
- `Values.Display`: renders dictionaries and lists as fixed placeholders rather than Python's repr. Exception messages built from such values are therefore not exact.
- `ResponseStore.Store.Add`: keys are compared as values. Python's `True == 1` key identity is not modelled.
- `RetroVector.Route.Check`: the reachability answer is fixed when a route is constructed, so a check that changes over time is not modelled.
- `Harmonizer.MultiAgentHarmonizer.Compensate`: a rollback that raises changes nothing before it raises. Partial effects before such an exception are not modelled.
- `Agents.Execute`: an `execute` that returns a value other than a dictionary cannot be expressed, because `Returned` carries a dictionary. In the source, `run_all` appends such a value and counts the agent as executed, and then `result.get` raises AttributeError (multi_agent_harmonizer.py:21-23). The except branch at line 26 catches that error, so the run fails there and the agent is rolled back.
- `Core.AgentCore.Dispatch`: the exception raised by instantiating a class is given by its message only. Its exception type (TypeError for an abstract class, or whatever `__init__` raises) is not modelled.
- **Discovery order**: `Path.glob` at agent_core.py:21 returns files in no specified order. `Core.ShippedRegistrations` fixes the alphabetical order. The four shipped intent types are distinct, so the registry `Core.ShippedRegistry` states does not depend on that order.
- **Out of scope**: the DNS lookup in `check_broker`, `AgentCore.loop` (file polling), network brokers, gateways, validation, storage and model back-ends, metrics, tracing and configuration.

## Findings

| source | as written | input that shows it | evidently intended | confidence | as-written member | corrected member |
|---|---|---|---|---|---|---|
| resource_manager.py:207-221 | `release` credits the first entry of the record's type whose id starts with the record id's text before its first ':' ("cuda" for every GPU slice) | host with two GPUs; allocate 1.0 CUDA twice (slices "cuda:0:a", "cuda:1:b"); release the second slice: cuda:0 is credited and cuda:1 stays at 0 | credit the base the slice was cut from (its id without the last ':' part), so allocate-then-release restores every entry | not executed | Resources.SecondGpuLeaksAsWritten | Resources.AllocateReleaseRoundTrip |
