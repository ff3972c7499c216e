/**
 * WeakCallerClientResultsManager: the caller-side table of invocations awaiting a client's
 * result. Each method is proved to change the state exactly as the matching function of
 * CorrelatorSpec says, and to keep the correlator's invariant.
 */
module ClientResults {
  import opened Wrappers
  import opened Exceptions
  import opened Acks
  import opened CorrelatorSpec
  import opened InvocationIds

  /** An endpoint of the service, by name; the correlator only counts them. */
  type Endpoint = string

  class WeakCallerClientResultsManager {
    var pendingInvocations: map<string, PendingInvocation>
    /** The id generated once per manager (a GUID in "N" format in the source). */
    const clientResultManagerId: string
    var lastInvocationId: nat
    const ackHandler: AckHandler
    /** `IServiceEndpointManager.GetEndpoints(hub)`. */
    const getEndpoints: string -> seq<Endpoint>
    /** `IEndpointRouter.GetEndpointsForConnection(connectionId, endpoints)`. */
    const getEndpointsForConnection: (string, seq<Endpoint>) -> seq<Endpoint>
    /** The result slots of the tasks handed out so far, and the next fresh handle. */
    var tasks: map<TaskHandle, TaskState>
    var nextTask: TaskHandle
    /** The invocation ids generated so far, and the connection each was generated for. */
    ghost var issued: seq<string>
    ghost var issuedFor: seq<string>

    ghost function Model(): State
      reads this, ackHandler
    {
      State(pendingInvocations, ackHandler.acks, tasks)
    }

    ghost predicate Valid()
      reads this, ackHandler
    {
      && ackHandler.Valid()
      && CorrelatorSpec.Valid(Model())
      && (forall h :: h in tasks ==> h < nextTask)
      && |issued| == lastInvocationId && |issuedFor| == lastInvocationId
      && (forall k :: 0 <= k < |issued| ==> issued[k] == InvocationId(issuedFor[k], clientResultManagerId, k + 1))
    }

    constructor (serviceEndpointManager: string -> seq<Endpoint>, endpointRouter: (string, seq<Endpoint>) -> seq<Endpoint>,
                 ackHandler: AckHandler, managerId: string)
      requires ackHandler.Valid()
      ensures Valid() && Model() == State(map[], ackHandler.acks, map[])
      ensures this.ackHandler == ackHandler && clientResultManagerId == managerId && lastInvocationId == 0
      ensures getEndpoints == serviceEndpointManager && getEndpointsForConnection == endpointRouter
    {
      pendingInvocations := map[];
      clientResultManagerId := managerId;
      lastInvocationId := 0;
      this.ackHandler := ackHandler;
      getEndpoints := serviceEndpointManager;
      getEndpointsForConnection := endpointRouter;
      tasks := map[];
      nextTask := 0;
      issued, issuedFor := [], [];
    }

    /** `connectionId-managerId-n` with `n` one more than at the previous call: never an id handed out before. */
    method GenerateInvocationId(connectionId: string) returns (id: string)
      requires Valid()
      modifies this`lastInvocationId, this`issued, this`issuedFor
      ensures Valid()
      ensures lastInvocationId == old(lastInvocationId) + 1
      ensures id == InvocationId(connectionId, clientResultManagerId, lastInvocationId)
      ensures id !in old(issued) && issued == old(issued) + [id]
    {
      lastInvocationId := lastInvocationId + 1;
      id := InvocationId(connectionId, clientResultManagerId, lastInvocationId);
      forall k | 0 <= k < |issued|
        ensures issued[k] != id
      {
        if issued[k] == id {
          InvocationIdInjective(issuedFor[k], k + 1, connectionId, lastInvocationId, clientResultManagerId);
        }
      }
      issued, issuedFor := issued + [id], issuedFor + [connectionId];
    }

    /**
     * Opens a multi-ack expecting as many responses as the router returns endpoints for the
     * connection and registers the invocation (unless its id is already pending); returns the
     * task the caller awaits.
     */
    method AddInvocation(hub: string, connectionId: string, invocationId: string, resultType: TypeToken)
      returns (task: TaskHandle)
      requires Valid()
      modifies this`pendingInvocations, this`tasks, this`nextTask, ackHandler
      ensures Valid()
      ensures task !in old(tasks) && ackHandler.lastAckId !in old(ackHandler.acks)
      ensures Model() == CorrelatorSpec.AddInvocation(old(Model()), invocationId, connectionId, resultType,
                           |getEndpointsForConnection(connectionId, getEndpoints(hub))|, ackHandler.lastAckId, task)
    {
      task := nextTask;
      nextTask := nextTask + 1;
      tasks := tasks[task := Running];

      var serviceEndpoints := getEndpoints(hub);
      var expectedAckCount := |getEndpointsForConnection(connectionId, serviceEndpoints)|;
      var ackId := ackHandler.CreateMultiAck();
      ackHandler.SetExpectedCount(ackId, expectedAckCount);
      ghost var s0 := old(Model());
      assert ackHandler.acks == WithExpected(Opened(s0.acks, ackId), ackId, expectedAckCount);

      if invocationId !in pendingInvocations {
        pendingInvocations := pendingInvocations[invocationId := PendingInvocation(resultType, connectionId, task, ackId)];
      }
      CorrelatorSpec.AddInvocationStores(s0, invocationId, connectionId, resultType, expectedAckCount, ackId, task);
      assert Model() == CorrelatorSpec.AddInvocation(s0, invocationId, connectionId, resultType, expectedAckCount, ackId, task);
    }

    /**
     * Resolves the invocation on a real result, or once every endpoint has answered; throws
     * (as a Failure) on a completion from another connection. Sequentially the `TryRemove` of
     * the source always succeeds, so the entry is removed and then resolved.
     */
    method TryCompleteResult(connectionId: string, message: CompletionMessage) returns (r: Result<bool, Exception>)
      requires Valid()
      modifies this`pendingInvocations, this`tasks, ackHandler
      ensures Valid()
      ensures (Model(), r) == CorrelatorSpec.TryCompleteResult(old(Model()), connectionId, message)
    {
      var id := message.invocationId;
      if id !in pendingInvocations {
        return Success(false);
      }
      var item := pendingInvocations[id];
      if item.connectionId != connectionId {
        return Failure(InvalidOperationException(MismatchMessage(connectionId, id)));
      }
      CorrelatorSpec.CompleteFromOwnConnection(Model(), connectionId, message);
      ackHandler.TriggerAck(item.ackId);
      var ackDone := ackHandler.IsCompletedSuccessfully(item.ackId);
      if message.HasResult() || ackDone {
        pendingInvocations := pendingInvocations - {id};
        tasks := TrySet(tasks, item.task, Resolution(message));
        return Success(true);
      }
      return Success(false);
    }

    /** What the cancellation token's callback does. */
    method Cancel(connectionId: string, invocationId: string) returns (r: Result<bool, Exception>)
      requires Valid()
      modifies this`pendingInvocations, this`tasks, ackHandler
      ensures Valid()
      ensures (Model(), r) == CorrelatorSpec.Cancel(old(Model()), connectionId, invocationId)
    {
      r := TryCompleteResult(connectionId, WithError(invocationId, "Canceled"));
    }

    /** Faults and removes every pending invocation of the connection, one entry at a time. */
    method CleanupInvocationsByConnection(connectionId: string)
      requires Valid()
      modifies this`pendingInvocations, this`tasks
      ensures Valid()
      ensures Model() == CleanupByConnection(old(Model()), connectionId)
    {
      ghost var s0 := Model();
      var keys := pendingInvocations.Keys;
      ghost var visited: set<string> := {};
      while keys != {}
        invariant keys + visited == s0.pending.Keys && keys !! visited
        invariant Model() == CleanupKeys(s0, connectionId, visited)
        decreases keys
      {
        var invocationId :| invocationId in keys;
        CleanupStep(s0, connectionId, visited, invocationId);
        var invocation := pendingInvocations[invocationId];
        if invocation.connectionId == connectionId {
          var message := WithError(invocationId, DisconnectedMessage(invocation.connectionId));
          tasks := TrySet(tasks, invocation.task, Resolution(message));
          pendingInvocations := pendingInvocations - {invocationId};
        }
        keys := keys - {invocationId};
        visited := visited + {invocationId};
      }
      CleanupResolvesConnection(s0, connectionId);
      assert tasks.Keys == s0.tasks.Keys;
    }

    /** The type recorded at AddInvocation while the invocation is pending; throws (as a Failure) otherwise. */
    method GetReturnType(invocationId: string) returns (r: Result<TypeToken, Exception>)
      ensures r.Success? <==> invocationId in pendingInvocations
      ensures r.Success? ==> r.value == pendingInvocations[invocationId].resultType
      ensures r.Failure? ==> r.error == InvalidOperationException(NotPendingMessage(invocationId))
    {
      var found, t := TryGetInvocationReturnType(invocationId);
      if found {
        return Success(t.value);
      }
      return Failure(InvalidOperationException(NotPendingMessage(invocationId)));
    }

    /** True with the recorded type while the invocation is pending; false with null otherwise. */
    method TryGetInvocationReturnType(invocationId: string) returns (found: bool, t: Option<TypeToken>)
      ensures found <==> invocationId in pendingInvocations
      ensures found ==> t == Some(pendingInvocations[invocationId].resultType)
      ensures !found ==> t == None
    {
      if invocationId in pendingInvocations {
        return true, Some(pendingInvocations[invocationId].resultType);
      }
      return false, None;
    }

    /** Drops the entry without resolving its task. */
    method RemoveInvocation(invocationId: string)
      requires Valid()
      modifies this`pendingInvocations
      ensures Valid()
      ensures Model() == CorrelatorSpec.RemoveInvocation(old(Model()), invocationId)
    {
      pendingInvocations := pendingInvocations - {invocationId};
      CorrelatorSpec.RemoveKeepsOthers(old(Model()), invocationId);
    }
  }
}
