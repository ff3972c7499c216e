/**
 * The public operations of WebSocketsHubLifetimeManager up to the point where a message is
 * handed to the writer: argument validation, construction of exactly one control message, and
 * the tracing id. Each group or existence operation is a function whose result is either the
 * exception it throws or the write it asks for. Client invocations are methods on the
 * caller-side results manager.
 */
module HubLifetime {
  import opened Wrappers
  import opened Exceptions
  import opened ServiceMessages
  import opened CorrelatorSpec
  import opened ClientResults
  import opened InvocationIds

  /** `IsInvalidArgument` of the base class, taken to reject exactly the null and the empty string. */
  predicate IsInvalidArgument(s: NullableString)
  {
    IsNullOrEmpty(s)
  }

  /** What the operation hands to the writer: `WriteAckableMessageAsync` when `ackable`, `WriteAsync` otherwise. */
  datatype Write = Write(message: ServiceMessage, ackable: bool)

  /**
   * What decides a message's tracing id: the manager's `EnableMessageTracing` option, whether
   * the base class's policy stamps one when that option is off, and the id
   * `MessageWithTracingIdHelper.Generate` returns.
   */
  datatype TracingOptions = TracingOptions(enableMessageTracing: bool, baseStampsTracingId: bool, generatedTracingId: UInt64)

  /** The tracing id a freshly built message (one without a tracing id) ends up with. */
  function NewTracingId(options: TracingOptions): Option<UInt64>
  {
    if options.enableMessageTracing || options.baseStampsTracingId then Some(options.generatedTracingId) else None
  }

  /**
   * AppendMessageTracingId: with message tracing on, the message gets the generated id; with it
   * off, the base class's policy decides. Nothing but the tracing id changes.
   */
  function AppendMessageTracingId(m: ServiceMessage, options: TracingOptions): (r: ServiceMessage)
    ensures r.(tracingId := m.tracingId) == m
    ensures options.enableMessageTracing ==> r.tracingId == Some(options.generatedTracingId)
    ensures !options.enableMessageTracing && options.baseStampsTracingId ==> r.tracingId == Some(options.generatedTracingId)
    ensures !options.enableMessageTracing && !options.baseStampsTracingId ==> r == m
  {
    if options.enableMessageTracing then WithTracingId(m, Some(options.generatedTracingId))
    else if options.baseStampsTracingId then WithTracingId(m, Some(options.generatedTracingId))
    else m
  }

  /** C# `long`. */
  type Int64 = x: int | -0x8000_0000_0000_0000 <= x < 0x8000_0000_0000_0000

  /** A `TimeSpan`, by its count of 100-nanosecond ticks. */
  datatype TimeSpan = TimeSpan(ticks: Int64)

  const TicksPerSecond: int := 10_000_000
  const Int32Max: int := 0x7fff_ffff
  const Int32Min: int := -0x8000_0000

  /**
   * `(int)ttl.TotalSeconds`: the whole number of seconds, truncated toward zero, saturated at
   * the bounds of `int`.
   */
  function TtlSeconds(ttl: TimeSpan): (seconds: Int32)
    ensures ttl.ticks >= 0 ==> 0 <= seconds
    ensures ttl.ticks >= 0 && seconds < Int32Max ==>
              seconds * TicksPerSecond <= ttl.ticks < (seconds + 1) * TicksPerSecond
    ensures ttl.ticks >= 0 && seconds == Int32Max ==> ttl.ticks >= Int32Max * TicksPerSecond
  {
    var ticks: int := ttl.ticks;
    var truncated := if ticks >= 0 then ticks / TicksPerSecond else -((-ticks) / TicksPerSecond);
    if truncated > Int32Max then Int32Max else if truncated < Int32Min then Int32Min else truncated
  }

  /** RemoveFromAllGroupsAsync: a leave-with-ack message for the connection with no group, meaning all of them. */
  function RemoveFromAllGroupsAsync(connectionId: NullableString, options: TracingOptions): (r: Result<Write, Exception>)
    ensures r.Failure? <==> IsInvalidArgument(connectionId)
    ensures r.Failure? ==> r.error == ArgumentException("connectionId")
    ensures r.Success? ==>
      var m := r.value.message;
      && r.value.ackable && m.LeaveGroupWithAckMessage?
      && m.connectionId == connectionId.value && m.groupNameOrAll == None && m.ackId == 0
      && m.tracingId == NewTracingId(options)
  {
    if IsInvalidArgument(connectionId) then Failure(ArgumentException("connectionId"))
    else Success(Write(AppendMessageTracingId(LeaveGroupWithAck(connectionId.value, None), options), true))
  }

  /** UserAddToGroupAsync without a TTL: a user-join-with-ack message with ack id 0 and no TTL. */
  function UserAddToGroupAsync(userId: NullableString, groupName: NullableString, options: TracingOptions): (r: Result<Write, Exception>)
    ensures IsNullOrEmpty(userId) ==> r == Failure(ArgumentException("userId"))
    ensures !IsNullOrEmpty(userId) && IsNullOrEmpty(groupName) ==> r == Failure(ArgumentException("groupName"))
    ensures r.Success? <==> !IsNullOrEmpty(userId) && !IsNullOrEmpty(groupName)
    ensures r.Success? ==>
      var m := r.value.message;
      && r.value.ackable && m.UserJoinGroupWithAckMessage?
      && m.userId == userId.value && m.groupName == groupName.value && m.ackId == 0 && m.ttl == None
      && m.tracingId == NewTracingId(options)
  {
    if IsNullOrEmpty(userId) then Failure(ArgumentException("userId"))
    else if IsNullOrEmpty(groupName) then Failure(ArgumentException("groupName"))
    else Success(Write(AppendMessageTracingId(UserJoinGroupWithAckMessage(userId.value, groupName.value, 0), options), true))
  }

  /**
   * UserAddToGroupAsync with a TTL: the name checks come first, then a negative TTL is
   * rejected; otherwise the message carries the TTL in whole seconds.
   */
  function UserAddToGroupWithTtlAsync(userId: NullableString, groupName: NullableString, ttl: TimeSpan,
                                      options: TracingOptions): (r: Result<Write, Exception>)
    ensures IsNullOrEmpty(userId) ==> r == Failure(ArgumentException("userId"))
    ensures !IsNullOrEmpty(userId) && IsNullOrEmpty(groupName) ==> r == Failure(ArgumentException("groupName"))
    ensures !IsNullOrEmpty(userId) && !IsNullOrEmpty(groupName) && ttl.ticks < 0 ==>
              r == Failure(ArgumentOutOfRangeException("ttl"))
    ensures r.Success? <==> !IsNullOrEmpty(userId) && !IsNullOrEmpty(groupName) && ttl.ticks >= 0
    ensures r.Success? ==>
      var m := r.value.message;
      && r.value.ackable && m.UserJoinGroupWithAckMessage?
      && m.userId == userId.value && m.groupName == groupName.value && m.ackId == 0
      && m.ttl == Some(TtlSeconds(ttl)) && m.ttl.value >= 0
      && m.tracingId == NewTracingId(options)
  {
    if IsNullOrEmpty(userId) then Failure(ArgumentException("userId"))
    else if IsNullOrEmpty(groupName) then Failure(ArgumentException("groupName"))
    else if ttl.ticks < 0 then Failure(ArgumentOutOfRangeException("ttl"))
    else
      var m := UserJoinGroupWithAckMessage(userId.value, groupName.value, 0, Some(TtlSeconds(ttl)));
      Success(Write(AppendMessageTracingId(m, options), true))
  }

  /** UserRemoveFromGroupAsync: a user-leave-with-ack message for that one group. */
  function UserRemoveFromGroupAsync(userId: NullableString, groupName: NullableString, options: TracingOptions): (r: Result<Write, Exception>)
    ensures IsNullOrEmpty(userId) ==> r == Failure(ArgumentException("userId"))
    ensures !IsNullOrEmpty(userId) && IsNullOrEmpty(groupName) ==> r == Failure(ArgumentException("groupName"))
    ensures r.Success? <==> !IsNullOrEmpty(userId) && !IsNullOrEmpty(groupName)
    ensures r.Success? ==>
      var m := r.value.message;
      && r.value.ackable && m.UserLeaveGroupWithAckMessage?
      && m.userId == userId.value && m.groupNameOrAll == groupName && m.ackId == 0
      && m.tracingId == NewTracingId(options)
  {
    if IsNullOrEmpty(userId) then Failure(ArgumentException("userId"))
    else if IsNullOrEmpty(groupName) then Failure(ArgumentException("groupName"))
    else Success(Write(AppendMessageTracingId(UserLeaveGroupWithAckMessage(userId.value, groupName, 0), options), true))
  }

  /** UserRemoveFromAllGroupsAsync: a user-leave-with-ack message with no group, meaning all of them. */
  function UserRemoveFromAllGroupsAsync(userId: NullableString, options: TracingOptions): (r: Result<Write, Exception>)
    ensures r.Failure? <==> IsNullOrEmpty(userId)
    ensures r.Failure? ==> r.error == ArgumentException("userId")
    ensures r.Success? ==>
      var m := r.value.message;
      && r.value.ackable && m.UserLeaveGroupWithAckMessage?
      && m.userId == userId.value && m.groupNameOrAll == None && m.ackId == 0
      && m.tracingId == NewTracingId(options)
  {
    if IsNullOrEmpty(userId) then Failure(ArgumentException("userId"))
    else Success(Write(AppendMessageTracingId(UserLeaveGroupWithAckMessage(userId.value, None, 0), options), true))
  }

  /** IsUserInGroup: a check-user-in-group message with the constructor's default ack id. */
  function IsUserInGroup(userId: NullableString, groupName: NullableString, options: TracingOptions): (r: Result<Write, Exception>)
    ensures IsNullOrEmpty(userId) ==> r == Failure(ArgumentException("userId"))
    ensures !IsNullOrEmpty(userId) && IsNullOrEmpty(groupName) ==> r == Failure(ArgumentException("groupName"))
    ensures r.Success? <==> !IsNullOrEmpty(userId) && !IsNullOrEmpty(groupName)
    ensures r.Success? ==>
      var m := r.value.message;
      && r.value.ackable && m.CheckUserInGroupWithAckMessage?
      && m.userId == userId.value && m.groupName == groupName.value && m.ackId == 0
      && m.tracingId == NewTracingId(options)
  {
    if IsNullOrEmpty(userId) then Failure(ArgumentException("userId"))
    else if IsNullOrEmpty(groupName) then Failure(ArgumentException("groupName"))
    else Success(Write(AppendMessageTracingId(CheckUserInGroupWithAckMessage(userId.value, groupName.value), options), true))
  }

  /** CloseConnectionAsync: a close message, written without waiting for an ack. */
  function CloseConnectionAsync(connectionId: NullableString, reason: NullableString, options: TracingOptions): (r: Result<Write, Exception>)
    ensures r.Failure? <==> IsNullOrEmpty(connectionId)
    ensures r.Failure? ==> r.error == ArgumentException("connectionId")
    ensures r.Success? ==>
      var m := r.value.message;
      && !r.value.ackable && m.CloseConnectionMessage?
      && m.connectionId == connectionId.value && m.errorMessage == reason
      && m.tracingId == NewTracingId(options)
  {
    if IsNullOrEmpty(connectionId) then Failure(ArgumentException("connectionId"))
    else Success(Write(AppendMessageTracingId(CloseConnectionMessage(connectionId.value, reason), options), false))
  }

  /** ConnectionExistsAsync. */
  function ConnectionExistsAsync(connectionId: NullableString, options: TracingOptions): (r: Result<Write, Exception>)
    ensures r.Failure? <==> IsNullOrEmpty(connectionId)
    ensures r.Failure? ==> r.error == ArgumentException("connectionId")
    ensures r.Success? ==>
      var m := r.value.message;
      && r.value.ackable && m.CheckConnectionExistenceWithAckMessage?
      && m.connectionId == connectionId.value && m.ackId == 0
      && m.tracingId == NewTracingId(options)
  {
    if IsNullOrEmpty(connectionId) then Failure(ArgumentException("connectionId"))
    else Success(Write(AppendMessageTracingId(CheckConnectionExistenceWithAckMessage(connectionId.value), options), true))
  }

  /** UserExistsAsync. */
  function UserExistsAsync(userId: NullableString, options: TracingOptions): (r: Result<Write, Exception>)
    ensures r.Failure? <==> IsNullOrEmpty(userId)
    ensures r.Failure? ==> r.error == ArgumentException("userId")
    ensures r.Success? ==>
      var m := r.value.message;
      && r.value.ackable && m.CheckUserExistenceWithAckMessage?
      && m.userId == userId.value && m.ackId == 0
      && m.tracingId == NewTracingId(options)
  {
    if IsNullOrEmpty(userId) then Failure(ArgumentException("userId"))
    else Success(Write(AppendMessageTracingId(CheckUserExistenceWithAckMessage(userId.value), options), true))
  }

  /** GroupExistsAsync. */
  function GroupExistsAsync(groupName: NullableString, options: TracingOptions): (r: Result<Write, Exception>)
    ensures r.Failure? <==> IsNullOrEmpty(groupName)
    ensures r.Failure? ==> r.error == ArgumentException("groupName")
    ensures r.Success? ==>
      var m := r.value.message;
      && r.value.ackable && m.CheckGroupExistenceWithAckMessage?
      && m.groupName == groupName.value && m.ackId == 0
      && m.tracingId == NewTracingId(options)
  {
    if IsNullOrEmpty(groupName) then Failure(ArgumentException("groupName"))
    else Success(Write(AppendMessageTracingId(CheckGroupExistenceWithAckMessage(groupName.value), options), true))
  }

  /**
   * Both operations that remove from all groups build a leave message whose group name is
   * null, for a connection as for a user, so both are keyed by the key of the null name.
   */
  lemma RemoveFromAllGroupsUsesNullGroup(connectionId: NullableString, userId: NullableString,
                                         options: TracingOptions, generate: PartitionKeyGenerator)
    ensures var r := RemoveFromAllGroupsAsync(connectionId, options);
            r.Success? ==> GroupNameOf(r.value.message) == None && PartitionKey(r.value.message, generate) == Some(generate(None))
    ensures var r := UserRemoveFromAllGroupsAsync(userId, options);
            r.Success? ==> GroupNameOf(r.value.message) == None && PartitionKey(r.value.message, generate) == Some(generate(None))
  {
  }

  /** A successful write goes to the ack-waiting writer exactly when its message carries an ack id. */
  predicate WriterMatchesMessage(r: Result<Write, Exception>)
  {
    r.Success? ==> (r.value.ackable <==> IsAckable(r.value.message))
  }

  /**
   * Every operation that waits for the service's ack builds an `IAckableMessage`, and the one
   * that does not wait (closing a connection) builds a message without an ack id.
   */
  lemma AckWaitingOperationsBuildAckableMessages(connectionId: NullableString, userId: NullableString,
                                                 groupName: NullableString, reason: NullableString,
                                                 ttl: TimeSpan, options: TracingOptions)
    ensures WriterMatchesMessage(RemoveFromAllGroupsAsync(connectionId, options))
    ensures WriterMatchesMessage(UserAddToGroupAsync(userId, groupName, options))
    ensures WriterMatchesMessage(UserAddToGroupWithTtlAsync(userId, groupName, ttl, options))
    ensures WriterMatchesMessage(UserRemoveFromGroupAsync(userId, groupName, options))
    ensures WriterMatchesMessage(UserRemoveFromAllGroupsAsync(userId, options))
    ensures WriterMatchesMessage(IsUserInGroup(userId, groupName, options))
    ensures WriterMatchesMessage(CloseConnectionAsync(connectionId, reason, options))
    ensures WriterMatchesMessage(ConnectionExistsAsync(connectionId, options))
    ensures WriterMatchesMessage(UserExistsAsync(userId, options))
    ensures WriterMatchesMessage(GroupExistsAsync(groupName, options))
  {
  }

  // ---------------------------------------------------------------- client invocations

  /** The invocation InvokeConnectionAsync registered: its id and the task it awaits. */
  datatype Invocation = Invocation(invocationId: string, task: TaskHandle)

  /** What awaiting the invocation's task observes at a given moment. */
  datatype AwaitOutcome = StillRunning | Returned(value: Value) | Threw(exception: Exception)

  /**
   * InvokeConnectionAsync up to the await: rejects an invalid connection id or method name,
   * then generates a fresh invocation id and registers the invocation with the results
   * manager. Writing the invocation message to the service is not part of this model.
   */
  method InvokeConnectionAsync(caller: WeakCallerClientResultsManager, hub: string, connectionId: NullableString,
                               methodName: NullableString, resultType: TypeToken) returns (r: Result<Invocation, Exception>)
    requires caller.Valid()
    modifies caller, caller.ackHandler
    ensures caller.Valid()
    ensures IsInvalidArgument(connectionId) ==> r == Failure(ArgumentNullException("connectionId"))
    ensures !IsInvalidArgument(connectionId) && IsInvalidArgument(methodName) ==> r == Failure(ArgumentNullException("methodName"))
    ensures r.Failure? ==> caller.Model() == old(caller.Model()) && caller.lastInvocationId == old(caller.lastInvocationId)
    ensures r.Success? <==> !IsInvalidArgument(connectionId) && !IsInvalidArgument(methodName)
    ensures r.Success? ==>
      && caller.lastInvocationId == old(caller.lastInvocationId) + 1
      && r.value.invocationId == InvocationId(connectionId.value, caller.clientResultManagerId, caller.lastInvocationId)
      && r.value.invocationId !in old(caller.issued)
      && r.value.task !in old(caller.tasks)
      && caller.Model() == CorrelatorSpec.AddInvocation(old(caller.Model()), r.value.invocationId, connectionId.value, resultType,
           |caller.getEndpointsForConnection(connectionId.value, caller.getEndpoints(hub))|, caller.ackHandler.lastAckId, r.value.task)
  {
    if IsInvalidArgument(connectionId) {
      return Failure(ArgumentNullException("connectionId"));
    }
    if IsInvalidArgument(methodName) {
      return Failure(ArgumentNullException("methodName"));
    }
    var invocationId := caller.GenerateInvocationId(connectionId.value);
    var task := caller.AddInvocation(hub, connectionId.value, invocationId, resultType);
    r := Success(Invocation(invocationId, task));
  }

  /**
   * The `await` of InvokeConnectionAsync: a completed task returns its value; a faulted one
   * removes the invocation from the results manager before rethrowing; a running one keeps
   * the caller waiting.
   */
  method AwaitInvocation(caller: WeakCallerClientResultsManager, invocation: Invocation) returns (o: AwaitOutcome)
    requires caller.Valid()
    modifies caller`pendingInvocations
    ensures caller.Valid()
    ensures invocation.task !in caller.tasks || caller.tasks[invocation.task].Running? ==>
              o == StillRunning && caller.Model() == old(caller.Model())
    ensures invocation.task in caller.tasks && caller.tasks[invocation.task].RanToCompletion? ==>
              o == Returned(caller.tasks[invocation.task].value) && caller.Model() == old(caller.Model())
    ensures invocation.task in caller.tasks && caller.tasks[invocation.task].Faulted? ==>
              o == Threw(caller.tasks[invocation.task].exception)
              && caller.Model() == CorrelatorSpec.RemoveInvocation(old(caller.Model()), invocation.invocationId)
  {
    if invocation.task !in caller.tasks {
      return StillRunning;
    }
    match caller.tasks[invocation.task]
    case Running =>
      o := StillRunning;
    case RanToCompletion(value) =>
      o := Returned(value);
    case Faulted(exception) =>
      caller.RemoveInvocation(invocation.invocationId);
      o := Threw(exception);
  }

  /**
   * SetConnectionResultAsync: rejects an invalid connection id, a null result or an empty
   * invocation id, then passes the completion to the results manager. A false answer is only
   * logged; a connection mismatch propagates.
   */
  method SetConnectionResultAsync(caller: WeakCallerClientResultsManager, connectionId: NullableString,
                                  result: Option<CompletionMessage>) returns (o: Outcome<Exception>)
    requires caller.Valid()
    modifies caller`pendingInvocations, caller`tasks, caller.ackHandler
    ensures caller.Valid()
    ensures IsInvalidArgument(connectionId) ==> o == Fail(ArgumentException("connectionId"))
    ensures !IsInvalidArgument(connectionId) && (result.None? || result.value.invocationId == "") ==>
              o == Fail(ArgumentException("result"))
    ensures o.Fail? && o.error.ArgumentException? ==> caller.Model() == old(caller.Model())
    ensures !IsInvalidArgument(connectionId) && result.Some? && result.value.invocationId != "" ==>
      var (s', answer) := CorrelatorSpec.TryCompleteResult(old(caller.Model()), connectionId.value, result.value);
      && caller.Model() == s'
      && (o.Pass? <==> answer.Success?)
      && (answer.Failure? ==> o == Fail(answer.error))
  {
    if IsInvalidArgument(connectionId) {
      return Fail(ArgumentException("connectionId"));
    }
    if result.None? || result.value.invocationId == "" {
      return Fail(ArgumentException("result"));
    }
    var answer := caller.TryCompleteResult(connectionId.value, result.value);
    if answer.Failure? {
      return Fail(answer.error);
    }
    // a false answer is only logged
    o := Pass;
  }
}
