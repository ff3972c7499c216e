# Azure SignalR client results, group messages and connection table, in Dafny

This project models five parts of the Azure SignalR service SDK.

- **The caller-side client-results correlator (`WeakCallerClientResultsManager`).** A server
  can invoke a method on a client and await the client's answer. The invocation may go
  through several service endpoints. The manager generates invocation ids, registers each
  pending invocation with a multi-endpoint acknowledgement, and resolves the caller's task:
  - as soon as an answer carries a result; or
  - once every endpoint the router picked has answered without one.

  It rejects completions that arrive from another connection. When a connection goes away, it
  faults all of that connection's invocations.
- **The control messages of the service protocol.** These are the group messages and the
  check-with-ack messages. Each one has its fields, its constructor defaults and its partition
  key.
- **The management SDK's `WebSocketsHubLifetimeManager`.** This covers:
  - the argument validation of each group and existence operation;
  - the one message each operation builds;
  - the tracing id;
  - the `ttl` conversion;
  - how `InvokeConnectionAsync` and `SetConnectionResultAsync` drive the correlator.
- **The ASP.NET `ClientConnectionManager` table** of client connections, keyed by
  connection id.
- **The normalisation of the query string** handed to OWIN.

How the modules map to these parts:

- `wrappers.dfy`:
  - `Wrappers` is Option, Result, Outcome and the nullable string.
  - `Exceptions` names the .NET exceptions the code throws, by kind and parameter name.
- `service_messages.dfy` (`ServiceMessages`) holds every message class as one constructor of
  one datatype. C# optional parameters become Dafny default arguments.
  `GeneratePartitionKey` is a parameter of type `NullableString -> Byte`, so each proof holds
  for every key generator.
- `acks.dfy` (`Acks`) is the acknowledgement handler that the correlator relies on. Its
  implementation is not part of this model, so the assumed behaviour is stated there:
  - an ack counts responses;
  - it has completed successfully once the responses reach the expected count.
- `invocation_ids.dfy` (`InvocationIds`) defines the `connectionId-managerId-counter` ids and
  proves that they determine their counter and connection.
- `correlator_spec.dfy` (`CorrelatorSpec`) is the correlator as a state machine on values. A
  state holds three things:
  - the pending table;
  - the ack table;
  - the result slot of every task handed out.

  All correlator properties are proved here as lemmas.
- `results_manager.dfy` (`ClientResults`) is the class `WeakCallerClientResultsManager`. Its
  fields are changed in place. Each method is proved to change the state exactly as the
  matching `CorrelatorSpec` function says, and to keep the invariant.
- `hub_lifetime_manager.dfy` (`HubLifetime`) has two groups of members:
  - the facade operations, as functions that return the exception thrown or the write
    requested;
  - the client-invocation paths, as methods on the results manager.
- `client_connections.dfy` (`ClientConnections`) has the class `ClientConnectionManager`,
  whose map field is updated in place, and the pure query-string function.

Three points of the code that the model follows as written:
- **Ack ids.** The group operations build their messages with ack id 0, as the
  `// todo: generate ack id on ctor` comments in `WebsocketsHubLifetimeManager.cs` say. The
  ack-aware writer, which is not modelled, assigns the id.
- **Partition keys.** `CheckUserInGroupWithAckMessage` and the user-group messages are keyed
  by group name only, never by user id (`GeneratePartitionKey(GroupName)` in
  `CheckWithAckMessage.cs` and `GroupMessage.cs`).
- **Cancellation with several endpoints.** The cancellation callback registered in
  `AddInvocation` is a single completion without a result. When the router returns two or
  more endpoints for the connection, that answer does not complete the multi-ack, so the
  callback leaves the invocation pending and the awaited task running
  (`CorrelatorSpec.CancelMultiEndpointKeepsRunning`). It faults the task only when it is
  the answer that completes the ack, as with a single endpoint
  (`CorrelatorSpec.CancelSingleEndpoint`).

## Model

| member | source | states |
|---|---|---|
| ServiceMessages.JoinGroupWithAck | src/Microsoft.Azure.SignalR.Protocols/GroupMessage.cs:282 | the three-argument constructor gives a join-with-ack message with ack id 0 and the given connection, group and tracing id |
| ServiceMessages.LeaveGroupWithAck | src/Microsoft.Azure.SignalR.Protocols/GroupMessage.cs:335 | the three-argument constructor gives a leave-with-ack message with ack id 0, keeping a null group |
| ServiceMessages.GroupNameOf | src/Microsoft.Azure.SignalR.Protocols/GroupMessage.cs:71-74 | a message's group name is null only for the leave variants, whose constructors accept `string?` |
| ServiceMessages.PartitionKey | src/Microsoft.Azure.SignalR.Protocols/GroupMessage.cs:27-327 | every group message is partitionable, keyed by the key generator applied to its group name (null included) |
| ServiceMessages.CheckMessageKeys | src/Microsoft.Azure.SignalR.Protocols/CheckWithAckMessage.cs:43-114 | the user-in-group and group-existence checks are keyed by group name; the user-existence check is keyed by user id; the connection-existence check has no partition key |
| ServiceMessages.WithTracingId | src/Microsoft.Azure.SignalR.Protocols/GroupMessage.cs:25 | setting `TracingId` changes that field and nothing else |
| ServiceMessages.SameGroupSamePartitionKey | src/Microsoft.Azure.SignalR.Protocols/GroupMessage.cs:27-327 | any two messages naming the same group land on the same partition, whatever their kind, connection or user |
| ServiceMessages.CheckUserInGroupNotKeyedByUser | src/Microsoft.Azure.SignalR.Protocols/CheckWithAckMessage.cs:43 | there is a generator under which one user in two groups gets two partition keys, so the key depends on the group |
| ServiceMessages.ConstructorDefaults | src/Microsoft.Azure.SignalR.Protocols/CheckWithAckMessage.cs:52-124 | omitted arguments mean ack id 0 and no tracing id for the check messages, and no TTL for the user-join messages |
| Acks.Opened | src/Microsoft.Azure.SignalR.Management/ClientInvocation/WeakCallerClientResultsManager.cs:47 | a new multi-ack waits for one response and leaves every other ack untouched |
| Acks.WithExpected | src/Microsoft.Azure.SignalR.Management/ClientInvocation/WeakCallerClientResultsManager.cs:49 | setting the expected count changes only that ack's expected count, and ignores an unknown id |
| Acks.Triggered | src/Microsoft.Azure.SignalR.Management/ClientInvocation/WeakCallerClientResultsManager.cs:106 | a trigger counts one more response for that ack only |
| Acks.MultiAckCompletesAfterExpectedTriggers | src/Microsoft.Azure.SignalR.Management/ClientInvocation/WeakCallerClientResultsManager.cs:103-107 | an ack expecting n responses has completed after k triggers exactly when k >= n |
| Acks.AckHandler.CreateMultiAck | src/Microsoft.Azure.SignalR.Management/ClientInvocation/WeakCallerClientResultsManager.cs:47 | returns an id not in use and opens it |
| Acks.AckHandler.SetExpectedCount | src/Microsoft.Azure.SignalR.Management/ClientInvocation/WeakCallerClientResultsManager.cs:49 | the table becomes `WithExpected` of the old one |
| Acks.AckHandler.TriggerAck | src/Microsoft.Azure.SignalR.Management/ClientInvocation/WeakCallerClientResultsManager.cs:106 | the table becomes `Triggered` of the old one |
| Acks.AckHandler.IsCompletedSuccessfully | src/Microsoft.Azure.SignalR.Management/ClientInvocation/WeakCallerClientResultsManager.cs:107 | true exactly when the ack exists and has had at least its expected count of responses |
| InvocationIds.NatToString | src/Microsoft.Azure.SignalR.Management/ClientInvocation/WeakCallerClientResultsManager.cs:35 | the counter's text is a non-empty string of decimal digits, of two or more digits from 10 on |
| InvocationIds.NatToStringInjective | src/Microsoft.Azure.SignalR.Management/ClientInvocation/WeakCallerClientResultsManager.cs:35 | different counters have different decimal texts |
| InvocationIds.DigitSuffixUnique | src/Microsoft.Azure.SignalR.Management/ClientInvocation/WeakCallerClientResultsManager.cs:35 | a string ends in `-` followed by digits in only one way, so the counter is the part after the last `-` |
| InvocationIds.InvocationIdInjective | src/Microsoft.Azure.SignalR.Management/ClientInvocation/WeakCallerClientResultsManager.cs:35 | two ids of one manager are equal only when their counters and connection ids are, even if connection ids contain `-` |
| CorrelatorSpec.GetReturnType | src/Microsoft.Azure.SignalR.Management/ClientInvocation/WeakCallerClientResultsManager.cs:132-140 | succeeds exactly for a pending id, with its recorded type; otherwise fails with InvalidOperationException and the not-pending message |
| CorrelatorSpec.AddInvocationStores | src/Microsoft.Azure.SignalR.Management/ClientInvocation/WeakCallerClientResultsManager.cs:38-72 | AddInvocation keeps the invariant; its ack waits for exactly the router's endpoint count and its task is running; a new id is stored with type, connection, task and ack and a pending id keeps its entry (`TryAdd`) |
| CorrelatorSpec.CompleteUnknownIsIgnored | src/Microsoft.Azure.SignalR.Management/ClientInvocation/WeakCallerClientResultsManager.cs:120-124 | a completion for an id that is not pending returns false and changes nothing |
| CorrelatorSpec.CompleteFromOtherConnectionThrows | src/Microsoft.Azure.SignalR.Management/ClientInvocation/WeakCallerClientResultsManager.cs:97-101 | a completion from another connection throws InvalidOperationException with the mismatch message, before any ack is triggered |
| CorrelatorSpec.CompleteFromOwnConnection | src/Microsoft.Azure.SignalR.Management/ClientInvocation/WeakCallerClientResultsManager.cs:103-118 | the ack is triggered once; the entry is removed and its task resolved exactly when the message has a result or the ack is now complete; the return value is true exactly then; otherwise nothing else changes; the invariant is kept |
| CorrelatorSpec.ResolutionOfMessage | src/Microsoft.Azure.SignalR.Management/ClientInvocation/WeakCallerClientResultsManager.cs:54-66 | a result completes the task with that value; anything else faults it with a HubException carrying the message's error |
| CorrelatorSpec.CompleteKeepsOutcomes | src/Microsoft.Azure.SignalR.Management/ClientInvocation/WeakCallerClientResultsManager.cs:59-64 | `TrySetResult`/`TrySetException` never overwrite a task that already has an outcome |
| CorrelatorSpec.ResolvedAtMostOnce | src/Microsoft.Azure.SignalR.Management/ClientInvocation/WeakCallerClientResultsManager.cs:109-116 | after a completion returned true, every further completion for that id returns false and changes nothing |
| CorrelatorSpec.EmptyAnswersKeepPending | src/Microsoft.Azure.SignalR.Management/ClientInvocation/WeakCallerClientResultsManager.cs:103-107 | while fewer result-less answers than expected have arrived, the invocation stays pending, its task keeps running and the ack counts each answer |
| CorrelatorSpec.LastEmptyAnswerResolves | src/Microsoft.Azure.SignalR.Management/ClientInvocation/WeakCallerClientResultsManager.cs:103-116 | the answer that completes the ack resolves the invocation: it is removed and its task faults with that answer's error |
| CorrelatorSpec.TwoEndpointsEmptyThenResult | test/Microsoft.Azure.SignalR.Management.Tests/ClientInvocation/WeakCallerClientResultsManagerTests.cs:111-147 | with two endpoints, an empty first answer leaves the task running and a second answer with a result completes it with that result |
| CorrelatorSpec.FirstResultCompletesAtOnce | test/Microsoft.Azure.SignalR.Management.Tests/ClientInvocation/WeakCallerClientResultsManagerTests.cs:151-182 | with two endpoints, a first answer with a result completes the task at once |
| CorrelatorSpec.CancelSingleEndpoint | src/Microsoft.Azure.SignalR.Management/ClientInvocation/WeakCallerClientResultsManager.cs:40-42 | cancellation faults a single-endpoint task with "Canceled", and a later real result is ignored |
| CorrelatorSpec.CancelMultiEndpointKeepsRunning | src/Microsoft.Azure.SignalR.Management/ClientInvocation/WeakCallerClientResultsManager.cs:40-49 | with the ack still waiting for more than one further answer, the cancellation callback answers false, counts one response, and leaves the invocation pending and its task running |
| CorrelatorSpec.CleanupStep | src/Microsoft.Azure.SignalR.Management/ClientInvocation/WeakCallerClientResultsManager.cs:81-90 | one loop step removes the visited invocation and faults its task exactly when it belongs to the connection |
| CorrelatorSpec.CleanupResolvesConnection | src/Microsoft.Azure.SignalR.Management/ClientInvocation/WeakCallerClientResultsManager.cs:79-91 | cleanup removes exactly the connection's invocations, faults each task with "Connection '<id>' is disconnected.", and keeps other invocations, their running tasks, the acks and the invariant; GetReturnType then fails for the removed ids |
| CorrelatorSpec.RemoveKeepsOthers | src/Microsoft.Azure.SignalR.Management/ClientInvocation/WeakCallerClientResultsManager.cs:153-156 | RemoveInvocation drops only that entry, resolves no task and keeps the invariant |
| ClientResults.WeakCallerClientResultsManager.constructor | src/Microsoft.Azure.SignalR.Management/ClientInvocation/WeakCallerClientResultsManager.cs:26-31 | starts with no pending invocations, counter 0, the given endpoint manager, router and ack handler |
| ClientResults.WeakCallerClientResultsManager.GenerateInvocationId | src/Microsoft.Azure.SignalR.Management/ClientInvocation/WeakCallerClientResultsManager.cs:33-36 | increments the counter and returns `connectionId-managerId-counter`, an id never returned before |
| ClientResults.WeakCallerClientResultsManager.AddInvocation | src/Microsoft.Azure.SignalR.Management/ClientInvocation/WeakCallerClientResultsManager.cs:38-72 | the new state is `CorrelatorSpec.AddInvocation` with the router's endpoint count for the connection, a fresh ack id and a fresh task |
| ClientResults.WeakCallerClientResultsManager.TryCompleteResult | src/Microsoft.Azure.SignalR.Management/ClientInvocation/WeakCallerClientResultsManager.cs:93-125 | the new state and the answer are those of `CorrelatorSpec.TryCompleteResult` |
| ClientResults.WeakCallerClientResultsManager.Cancel | src/Microsoft.Azure.SignalR.Management/ClientInvocation/WeakCallerClientResultsManager.cs:40-42 | the cancellation callback is a completion with the error "Canceled" from the invocation's connection |
| ClientResults.WeakCallerClientResultsManager.CleanupInvocationsByConnection | src/Microsoft.Azure.SignalR.Management/ClientInvocation/WeakCallerClientResultsManager.cs:79-91 | the loop over the pending ids ends in `CorrelatorSpec.CleanupByConnection` of the old state |
| ClientResults.WeakCallerClientResultsManager.GetReturnType | src/Microsoft.Azure.SignalR.Management/ClientInvocation/WeakCallerClientResultsManager.cs:132-140 | the recorded type of a pending invocation; InvalidOperationException with the not-pending message otherwise |
| ClientResults.WeakCallerClientResultsManager.TryGetInvocationReturnType | src/Microsoft.Azure.SignalR.Management/ClientInvocation/WeakCallerClientResultsManager.cs:142-151 | true with the recorded type exactly for a pending id; false with null otherwise |
| ClientResults.WeakCallerClientResultsManager.RemoveInvocation | src/Microsoft.Azure.SignalR.Management/ClientInvocation/WeakCallerClientResultsManager.cs:153-156 | the new state is `CorrelatorSpec.RemoveInvocation` of the old one |
| HubLifetime.AppendMessageTracingId | src/Microsoft.Azure.SignalR.Management/WebsocketsHubLifetimeManager.cs:217-226 | only the tracing id changes; with message tracing on it is the generated id; with it off the base policy either stamps that id or leaves the message unchanged |
| HubLifetime.TtlSeconds | src/Microsoft.Azure.SignalR.Management/WebsocketsHubLifetimeManager.cs:89 | a non-negative TTL becomes its whole number of seconds, truncated, saturating at `int.MaxValue` |
| HubLifetime.RemoveFromAllGroupsAsync | src/Microsoft.Azure.SignalR.Management/WebsocketsHubLifetimeManager.cs:35-48 | an invalid connection id throws ArgumentException("connectionId") and nothing else does; otherwise an ackable leave-with-ack message with null group, ack id 0 and the stamped tracing id |
| HubLifetime.UserAddToGroupAsync | src/Microsoft.Azure.SignalR.Management/WebsocketsHubLifetimeManager.cs:50-71 | a null or empty userId, then groupName, throws ArgumentException naming it; success exactly when both are valid; ackable user-join-with-ack with those names, ack id 0 and no TTL |
| HubLifetime.UserAddToGroupWithTtlAsync | src/Microsoft.Azure.SignalR.Management/WebsocketsHubLifetimeManager.cs:73-96 | the name checks come first, then a negative TTL throws ArgumentOutOfRangeException("ttl"); success exactly when all are valid; the message carries the TTL in whole seconds, never negative |
| HubLifetime.UserRemoveFromGroupAsync | src/Microsoft.Azure.SignalR.Management/WebsocketsHubLifetimeManager.cs:98-117 | userId then groupName are validated; success exactly when both are valid; ackable user-leave-with-ack for that group with ack id 0 |
| HubLifetime.UserRemoveFromAllGroupsAsync | src/Microsoft.Azure.SignalR.Management/WebsocketsHubLifetimeManager.cs:119-133 | fails exactly on an invalid userId; ackable user-leave-with-ack with null group and ack id 0 |
| HubLifetime.IsUserInGroup | src/Microsoft.Azure.SignalR.Management/WebsocketsHubLifetimeManager.cs:137-155 | userId then groupName are validated; success exactly when both are valid; ackable check-user-in-group message with default ack id 0 |
| HubLifetime.CloseConnectionAsync | src/Microsoft.Azure.SignalR.Management/WebsocketsHubLifetimeManager.cs:157-170 | fails exactly on an invalid connection id; a close message with the reason, written without waiting for an ack |
| HubLifetime.ConnectionExistsAsync | src/Microsoft.Azure.SignalR.Management/WebsocketsHubLifetimeManager.cs:172-185 | fails exactly on an invalid connection id; ackable connection-existence check with ack id 0 |
| HubLifetime.UserExistsAsync | src/Microsoft.Azure.SignalR.Management/WebsocketsHubLifetimeManager.cs:187-200 | fails exactly on an invalid userId; ackable user-existence check with ack id 0 |
| HubLifetime.GroupExistsAsync | src/Microsoft.Azure.SignalR.Management/WebsocketsHubLifetimeManager.cs:202-215 | fails exactly on an invalid groupName; ackable group-existence check with ack id 0 |
| HubLifetime.RemoveFromAllGroupsUsesNullGroup | src/Microsoft.Azure.SignalR.Management/WebsocketsHubLifetimeManager.cs:126 | both "remove from all groups" operations build a leave message whose group name is null, partitioned by the key of the null name |
| HubLifetime.AckWaitingOperationsBuildAckableMessages | src/Microsoft.Azure.SignalR.Management/WebsocketsHubLifetimeManager.cs:35-215 | every operation that writes through `WriteAckableMessageAsync` builds a message carrying an ack id, and `CloseConnectionAsync`, which uses `WriteAsync`, builds one without |
| HubLifetime.InvokeConnectionAsync | src/Microsoft.Azure.SignalR.Management/WebsocketsHubLifetimeManager.cs:229-244 | an invalid connectionId, then methodName, throws ArgumentNullException naming it and changes nothing; otherwise a fresh invocation id is generated and the invocation registered as `CorrelatorSpec.AddInvocation` says |
| HubLifetime.AwaitInvocation | src/Microsoft.Azure.SignalR.Management/WebsocketsHubLifetimeManager.cs:247-255 | a completed task returns its value; a faulted one removes the invocation before rethrowing its exception; a running one keeps waiting |
| HubLifetime.SetConnectionResultAsync | src/Microsoft.Azure.SignalR.Management/WebsocketsHubLifetimeManager.cs:258-278 | an invalid connectionId, then a null result or empty invocation id, throws ArgumentException naming it; otherwise the state follows `CorrelatorSpec.TryCompleteResult`, a false answer still succeeds, and a mismatch propagates |
| ClientConnections.ValuesMatchKeys | src/Microsoft.Azure.SignalR.AspNet/ClientConnections/ClientConnectionManager.cs:74-77 | in a table keyed by each connection's own id no connection is stored twice, so there are as many connections as ids |
| ClientConnections.ClientConnectionManager.Count | src/Microsoft.Azure.SignalR.AspNet/ClientConnections/ClientConnectionManager.cs:38 | the number of entries equals the number of distinct connections stored |
| ClientConnections.ClientConnectionManager.TryAddClientConnection | src/Microsoft.Azure.SignalR.AspNet/ClientConnections/ClientConnectionManager.cs:74-77 | adds the connection under its own id exactly when that id is absent; otherwise returns false and keeps the existing entry |
| ClientConnections.ClientConnectionManager.TryRemoveClientConnection | src/Microsoft.Azure.SignalR.AspNet/ClientConnections/ClientConnectionManager.cs:79-82 | returns true with the stored connection exactly when the id was present; afterwards the id is absent and nothing else changed |
| ClientConnections.ClientConnectionManager.TryGetClientConnection | src/Microsoft.Azure.SignalR.AspNet/ClientConnections/ClientConnectionManager.cs:84-87 | true with the stored connection exactly when the id is present; false with null otherwise; no change |
| ClientConnections.ClientConnectionManager.EnumerateClientConnections | src/Microsoft.Azure.SignalR.AspNet/ClientConnections/ClientConnectionManager.cs:27-36 | yields exactly the stored connections, each once, as many as `Count` |
| ClientConnections.OwinQueryString | src/Microsoft.Azure.SignalR.AspNet/ClientConnections/ClientConnectionManager.cs:108-118 | an empty query string leaves the request query unset; otherwise OWIN gets it with at most one leading `?` removed |
| ClientConnections.StripsTheServicePrefix | src/Microsoft.Azure.SignalR.AspNet/ClientConnections/ClientConnectionManager.cs:111-114 | removing the service's leading `?` gives back exactly what followed, even another `?` |
| ClientConnections.BareQueryUnchanged | src/Microsoft.Azure.SignalR.AspNet/ClientConnections/ClientConnectionManager.cs:109-117 | a query string without a leading `?` reaches OWIN unchanged |

## Left out

- Concurrency is not modelled: `ConcurrentDictionary`, `Interlocked.Increment`, and the race between `TryGetValue` and `TryRemove` in `TryCompleteResult` are modelled sequentially. Sequentially the inner `TryRemove` always succeeds. At-most-once resolution is proved instead (`CorrelatorSpec.ResolvedAtMostOnce`).
- Tasks and cancellation: `Task`, `TaskCompletionSourceWithCancellation` and the cancellation token become result slots in the state. Cancellation is the explicit `Cancel` operation, which is the callback the source registers. The task source's own cancellation and its timing are not modelled.
- The acknowledgement handler's implementation is not part of this model. Its assumed behaviour is stated in `acks.dfy`. Timeouts and removal of completed entries are not modelled.
- `GeneratePartitionKey`, `IsInvalidArgument`, `MessageWithTracingIdHelper.Generate`, the base class's `AppendMessageTracingId` and the manager's GUID come from code that is not part of this model. They become:
  - a key-generator parameter;
  - string.IsNullOrEmpty;
  - a given id;
  - a flag saying whether the base class stamps;
  - a constructor parameter.
- HubLifetime.TtlSeconds: `TimeSpan.TotalSeconds` is a double. The model divides integer ticks, truncates toward zero and saturates at the `int` range. It does not model the double's rounding for TTLs near 2^53 ticks, or the platform-dependent result of a cast out of range.
- I/O and logging are not modelled: `WriteAsync`, `WriteAckableMessageAsync`, `SerializeAllProtocols`, the `ClientInvocationMessage` write in `InvokeConnectionAsync`, `MessageLog` and `Logger`. The facade functions return the message and which writer receives it.
- HubLifetime.InvokeConnectionAsync: the write of the `ClientInvocationMessage` is not modelled. In the source it runs after the id is generated and before `AddInvocation`, outside the `try`, so a failing write propagates its exception with the counter already incremented and nothing registered; the model has no such failure path. The `try`/`catch` around `await task` is the separate method `HubLifetime.AwaitInvocation`.
- The `(T)` cast of a completion's result is not modelled; an `InvalidCastException` from it is out of scope. Results are one value type.
- A null `InvocationId` in a completion passed straight to `TryCompleteResult` is not modelled; ids are strings.
- ClientConnections.ClientConnectionManager.TryAddClientConnection, TryRemoveClientConnection and TryGetClientConnection: a null connection id, for which `ConcurrentDictionary` throws `ArgumentNullException`, is not modelled; connection ids are strings.
- ClientConnections.OwinQueryString: a null query string, on which `GetHostContext` reads `Length` and throws `NullReferenceException`, is not modelled; the query string is a string.
- CorrelatorSpec.Cancel: `TaskCompletionSourceWithCancellation` is not part of this model. Cancellation is only the callback it is given, so with several endpoints the model promises no cancellation of the awaited task; whatever that class does to the task itself beyond invoking the callback is not captured.
- The invocation counter is unbounded. `long` overflow after 2^63 invocations is not modelled.
- `CloseConnectionMessage` is not one of the modelled protocol files. Only the fields the facade sets are modelled: connection id, error message and tracing id.
- Hosting in `ClientConnectionManager` is not modelled: `CreateConnection`, the OWIN `HostContext`, header copying, `GetContentAndDispose` and the hub dispatcher. Of `GetHostContext` only the query-string normalisation is modelled. A client connection is modelled by its connection id and instance id, and its server connection is left out.
- The members that only throw `NotImplementedException` are not modelled:
  - `CleanupInvocationsByInstance`;
  - the `ClientCompletionMessage` and `ErrorCompletionMessage` overloads of `TryCompleteResult`;
  - `GetParameterTypes`, `GetStreamItemType` and `AddServiceMapping`;
  - all of `DummyRoutedClientResultsManager`.
- `WeakClientInvocationManager` only delegates to the results manager, so the model calls the results manager directly.
- The endpoint manager and router are modelled only by the number of endpoints they return for a connection.
