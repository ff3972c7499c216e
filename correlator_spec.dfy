/**
 * The caller-side client-invocation correlator of WeakCallerClientResultsManager.cs as a state
 * machine on values. A state holds the table of pending invocations, the ack table shared with
 * the ack handler, and the result slot of every task the correlator has handed out (the
 * task-completion sources, one per AddInvocation). The class in results_manager.dfy is proved
 * to follow these functions step by step; the properties of the correlator are proved here.
 */
module CorrelatorSpec {
  import opened Wrappers
  import opened Exceptions
  import opened Acks

  /** The type an invocation's result is decoded to (`typeof(T)`), by name. */
  type TypeToken = string
  /** A decoded result object; its content is not interpreted here. */
  type Value = string
  /** The task returned by AddInvocation, by handle. */
  type TaskHandle = nat

  /** What a caller awaiting the task observes. */
  datatype TaskState = Running | RanToCompletion(value: Value) | Faulted(exception: Exception)

  /** The fields of a SignalR completion message the correlator reads. */
  datatype CompletionMessage = CompletionMessage(invocationId: string, error: NullableString, result: Option<Value>)
  {
    predicate HasResult()
    {
      result.Some?
    }
  }

  /** `CompletionMessage.WithResult`. */
  function WithResult(invocationId: string, value: Value): CompletionMessage
  {
    CompletionMessage(invocationId, None, Some(value))
  }

  /** `CompletionMessage.WithError`. */
  function WithError(invocationId: string, error: string): CompletionMessage
  {
    CompletionMessage(invocationId, Some(error), None)
  }

  /** `CompletionMessage.Empty`: an endpoint's answer without a result. */
  function EmptyCompletion(invocationId: string): CompletionMessage
  {
    CompletionMessage(invocationId, None, None)
  }

  /** The record kept per pending invocation; its completion callback is `Resolution`. */
  datatype PendingInvocation = PendingInvocation(resultType: TypeToken, connectionId: string, task: TaskHandle, ackId: int)

  datatype State = State(pending: map<string, PendingInvocation>, acks: AckTable, tasks: map<TaskHandle, TaskState>)

  /**
   * Every pending invocation has an ack and a task that is still running, and no two pending
   * invocations share a task.
   */
  ghost predicate Valid(s: State)
  {
    && (forall id :: id in s.pending ==>
          s.pending[id].ackId in s.acks && s.pending[id].task in s.tasks && s.tasks[s.pending[id].task].Running?)
    && (forall i, j :: i in s.pending && j in s.pending && i != j ==> s.pending[i].task != s.pending[j].task)
  }

  /**
   * The completion callback every invocation is stored with: a message with a result completes
   * the task with that result; any other message faults it with a HubException carrying the
   * message's error.
   */
  function Resolution(message: CompletionMessage): TaskState
  {
    if message.HasResult() then RanToCompletion(message.result.value) else Faulted(HubException(message.error))
  }

  /** `TrySetResult` / `TrySetException`: only a running task takes an outcome. */
  function TrySet(tasks: map<TaskHandle, TaskState>, task: TaskHandle, outcome: TaskState): map<TaskHandle, TaskState>
  {
    if task in tasks && tasks[task].Running? then tasks[task := outcome] else tasks
  }

  function MismatchMessage(connectionId: string, invocationId: string): string
  {
    "Connection ID '" + connectionId + "' is not valid for invocation ID '" + invocationId + "'."
  }

  function DisconnectedMessage(connectionId: string): string
  {
    "Connection '" + connectionId + "' is disconnected."
  }

  function NotPendingMessage(invocationId: string): string
  {
    "Invocation ID '" + invocationId + "' is not associated with a pending client result."
  }

  /**
   * AddInvocation, once the router has said how many endpoints may own the connection
   * (`expected`), the ack handler has handed out `ackId` and the task `task` was created: the
   * multi-ack waits for `expected` responses, and the invocation is stored unless its id is
   * already pending.
   */
  function AddInvocation(s: State, invocationId: string, connectionId: string, resultType: TypeToken,
                         expected: int, ackId: int, task: TaskHandle): State
  {
    State(
      if invocationId in s.pending then s.pending
      else s.pending[invocationId := PendingInvocation(resultType, connectionId, task, ackId)],
      WithExpected(Opened(s.acks, ackId), ackId, expected),
      s.tasks[task := Running])
  }

  /**
   * TryCompleteResult(CompletionMessage): an unknown id is answered with false; a completion
   * from another connection than the invocation's throws; otherwise the ack counts one more
   * response, and the invocation is removed and resolved when the message has a result or
   * every expected endpoint has now answered.
   */
  function TryCompleteResult(s: State, connectionId: string, message: CompletionMessage): (State, Result<bool, Exception>)
  {
    var id := message.invocationId;
    if id !in s.pending then (s, Success(false))
    else
      var item := s.pending[id];
      if item.connectionId != connectionId then
        (s, Failure(InvalidOperationException(MismatchMessage(connectionId, id))))
      else
        var acks := Triggered(s.acks, item.ackId);
        if message.HasResult() || CompletedSuccessfully(acks, item.ackId) then
          (State(s.pending - {id}, acks, TrySet(s.tasks, item.task, Resolution(message))), Success(true))
        else
          (s.(acks := acks), Success(false))
  }

  /** The callback registered on the cancellation token. */
  function Cancel(s: State, connectionId: string, invocationId: string): (State, Result<bool, Exception>)
  {
    TryCompleteResult(s, connectionId, WithError(invocationId, "Canceled"))
  }

  /** The pending invocations among `keys` that belong to `connectionId`. */
  function OwnedBy(s: State, connectionId: string, keys: set<string>): set<string>
  {
    set id | id in keys && id in s.pending && s.pending[id].connectionId == connectionId
  }

  /** The fault every invocation of a disconnected connection receives. */
  function DisconnectedFault(connectionId: string): TaskState
  {
    Faulted(HubException(Some(DisconnectedMessage(connectionId))))
  }

  /** The tasks of the invocations among `keys` that belong to `connectionId`. */
  function DoomedTasks(s: State, connectionId: string, keys: set<string>): set<TaskHandle>
  {
    set id | id in OwnedBy(s, connectionId, keys) :: s.pending[id].task
  }

  /**
   * CleanupInvocationsByConnection after it has visited the pending ids in `keys`: each visited
   * invocation of the connection is faulted with the disconnection error and removed.
   */
  function CleanupKeys(s: State, connectionId: string, keys: set<string>): State
  {
    var doomed := OwnedBy(s, connectionId, keys);
    var doomedTasks := DoomedTasks(s, connectionId, keys);
    State(
      map id | id in s.pending && id !in doomed :: s.pending[id],
      s.acks,
      map h | h in s.tasks ::
        if h in doomedTasks && s.tasks[h].Running? then DisconnectedFault(connectionId) else s.tasks[h])
  }

  /** CleanupInvocationsByConnection: every pending id visited once. */
  function CleanupByConnection(s: State, connectionId: string): State
  {
    CleanupKeys(s, connectionId, s.pending.Keys)
  }

  /** RemoveInvocation: drops the entry without resolving its task. */
  function RemoveInvocation(s: State, invocationId: string): State
  {
    s.(pending := s.pending - {invocationId})
  }

  /** GetReturnType. */
  function GetReturnType(s: State, invocationId: string): (r: Result<TypeToken, Exception>)
    ensures r.Success? <==> invocationId in s.pending
    ensures r.Success? ==> r.value == s.pending[invocationId].resultType
    ensures r.Failure? ==> r.error == InvalidOperationException(NotPendingMessage(invocationId))
  {
    if invocationId in s.pending then Success(s.pending[invocationId].resultType)
    else Failure(InvalidOperationException(NotPendingMessage(invocationId)))
  }

  /** `n` completions from `connectionId`, applied in order; their return values are dropped. */
  function CompleteAll(s: State, connectionId: string, messages: seq<CompletionMessage>): State
  {
    if messages == [] then s
    else TryCompleteResult(CompleteAll(s, connectionId, messages[..|messages| - 1]), connectionId, messages[|messages| - 1]).0
  }

  // ---------------------------------------------------------------- AddInvocation

  /**
   * AddInvocation keeps the invariant; a new id is stored with its type, connection, task and
   * an ack that waits for exactly `expected` responses; an id already pending keeps its entry.
   */
  lemma AddInvocationStores(s: State, invocationId: string, connectionId: string, resultType: TypeToken,
                            expected: int, ackId: int, task: TaskHandle)
    requires Valid(s) && ackId !in s.acks && task !in s.tasks
    ensures var s' := AddInvocation(s, invocationId, connectionId, resultType, expected, ackId, task);
      && Valid(s')
      && s'.acks[ackId] == AckEntry(expected, 0)
      && s'.tasks[task] == Running
      && (invocationId in s.pending ==> s'.pending == s.pending)
      && (invocationId !in s.pending ==>
            s'.pending == s.pending[invocationId := PendingInvocation(resultType, connectionId, task, ackId)])
      && GetReturnType(s', invocationId).Success?
  {
    var s' := AddInvocation(s, invocationId, connectionId, resultType, expected, ackId, task);
    forall id | id in s'.pending
      ensures s'.pending[id].ackId in s'.acks && s'.pending[id].task in s'.tasks && s'.tasks[s'.pending[id].task].Running?
    {
      if id != invocationId || invocationId in s.pending {
        assert s.pending[id].task != task;
      }
    }
  }

  // ---------------------------------------------------------------- TryCompleteResult

  /** An id that is not pending (never added, resolved, cleaned up or removed) is answered with false, and nothing changes. */
  lemma CompleteUnknownIsIgnored(s: State, connectionId: string, message: CompletionMessage)
    requires message.invocationId !in s.pending
    ensures TryCompleteResult(s, connectionId, message) == (s, Success(false))
  {
  }

  /** A completion from the wrong connection throws; the ack is not triggered and the entry stays. */
  lemma CompleteFromOtherConnectionThrows(s: State, connectionId: string, message: CompletionMessage)
    requires message.invocationId in s.pending && s.pending[message.invocationId].connectionId != connectionId
    ensures TryCompleteResult(s, connectionId, message)
         == (s, Failure(InvalidOperationException(MismatchMessage(connectionId, message.invocationId))))
  {
  }

  /**
   * For the invocation's own connection the ack is triggered once; the entry is removed and its
   * task resolved by the message exactly when the message has a result or the ack is now fully
   * answered, and the call answers true exactly when it removed the entry. Nothing else changes.
   */
  lemma CompleteFromOwnConnection(s: State, connectionId: string, message: CompletionMessage)
    requires Valid(s)
    requires message.invocationId in s.pending && s.pending[message.invocationId].connectionId == connectionId
    ensures var id, item := message.invocationId, s.pending[message.invocationId];
      var (s', r) := TryCompleteResult(s, connectionId, message);
      var resolved := message.HasResult() || CompletedSuccessfully(s'.acks, item.ackId);
      && Valid(s')
      && s'.acks == Triggered(s.acks, item.ackId)
      && r == Success(id !in s'.pending)
      && (id !in s'.pending <==> resolved)
      && (resolved ==> s'.pending == s.pending - {id} && s'.tasks == s.tasks[item.task := Resolution(message)])
      && (!resolved ==> s'.pending == s.pending && s'.tasks == s.tasks)
  {
    var id, item := message.invocationId, s.pending[message.invocationId];
    var (s', r) := TryCompleteResult(s, connectionId, message);
    forall j | j in s'.pending
      ensures s'.pending[j].ackId in s'.acks && s'.pending[j].task in s'.tasks && s'.tasks[s'.pending[j].task].Running?
    {
      if j != id {
        assert s.pending[j].task != item.task;
      }
    }
  }

  /**
   * Resolution maps a result to the completed value and anything else, the answer of the last
   * endpoint without a result included, to a HubException with the message's error.
   */
  lemma ResolutionOfMessage(message: CompletionMessage)
    ensures message.HasResult() ==> Resolution(message) == RanToCompletion(message.result.value)
    ensures !message.HasResult() ==> Resolution(message).Faulted? && Resolution(message).exception == HubException(message.error)
  {
  }

  /** A task that has an outcome keeps it whatever completion arrives later: the first resolution wins. */
  lemma CompleteKeepsOutcomes(s: State, connectionId: string, message: CompletionMessage, h: TaskHandle)
    requires h in s.tasks && !s.tasks[h].Running?
    ensures var s' := TryCompleteResult(s, connectionId, message).0; h in s'.tasks && s'.tasks[h] == s.tasks[h]
  {
  }

  /** After a completion that answered true, every further completion for that id answers false and changes nothing. */
  lemma ResolvedAtMostOnce(s: State, c1: string, m1: CompletionMessage, c2: string, m2: CompletionMessage)
    requires TryCompleteResult(s, c1, m1).1 == Success(true)
    requires m2.invocationId == m1.invocationId
    ensures var s1 := TryCompleteResult(s, c1, m1).0; TryCompleteResult(s1, c2, m2) == (s1, Success(false))
  {
  }

  /**
   * While fewer answers without a result have arrived than the ack expects, the invocation
   * stays pending with its task running and the ack counts each answer.
   */
  lemma {:induction false} EmptyAnswersKeepPending(s: State, connectionId: string, messages: seq<CompletionMessage>,
                                                    id: string, expected: int, received: nat)
    requires Valid(s) && id in s.pending && s.pending[id].connectionId == connectionId
    requires s.acks[s.pending[id].ackId] == AckEntry(expected, received)
    requires forall i :: 0 <= i < |messages| ==> messages[i].invocationId == id && !messages[i].HasResult()
    requires received + |messages| < expected
    ensures var s' := CompleteAll(s, connectionId, messages);
      && Valid(s') && s'.pending == s.pending && s'.tasks == s.tasks
      && s'.acks[s.pending[id].ackId] == AckEntry(expected, received + |messages|)
  {
    if messages != [] {
      var front := messages[..|messages| - 1];
      EmptyAnswersKeepPending(s, connectionId, front, id, expected, received);
      var s1 := CompleteAll(s, connectionId, front);
      CompleteFromOwnConnection(s1, connectionId, messages[|messages| - 1]);
    }
  }

  /**
   * Once every expected endpoint has answered without a result, the last answer resolves the
   * invocation: it is removed and its task faults with that answer's error.
   */
  lemma LastEmptyAnswerResolves(s: State, connectionId: string, messages: seq<CompletionMessage>,
                                id: string, expected: int)
    requires Valid(s) && id in s.pending && s.pending[id].connectionId == connectionId
    requires s.acks[s.pending[id].ackId] == AckEntry(expected, 0)
    requires forall i :: 0 <= i < |messages| ==> messages[i].invocationId == id && !messages[i].HasResult()
    requires 1 <= |messages| == expected
    ensures var s' := CompleteAll(s, connectionId, messages);
      && Valid(s') && id !in s'.pending && s.pending[id].task in s'.tasks
      && s'.tasks[s.pending[id].task] == Faulted(HubException(messages[|messages| - 1].error))
  {
    var front := messages[..|messages| - 1];
    EmptyAnswersKeepPending(s, connectionId, front, id, expected, 0);
    CompleteFromOwnConnection(CompleteAll(s, connectionId, front), connectionId, messages[|messages| - 1]);
  }

  /**
   * Two endpoints: the first answer without a result leaves the task running, and a second
   * answer with a result completes it with that result.
   */
  lemma TwoEndpointsEmptyThenResult(s: State, id: string, connectionId: string, resultType: TypeToken,
                                    ackId: int, task: TaskHandle, value: Value)
    requires Valid(s) && id !in s.pending && ackId !in s.acks && task !in s.tasks
    ensures var s1 := AddInvocation(s, id, connectionId, resultType, 2, ackId, task);
      var (s2, r2) := TryCompleteResult(s1, connectionId, EmptyCompletion(id));
      var (s3, r3) := TryCompleteResult(s2, connectionId, WithResult(id, value));
      && r2 == Success(false) && s2.tasks[task] == Running
      && r3 == Success(true) && s3.tasks[task] == RanToCompletion(value)
  {
    var s1 := AddInvocation(s, id, connectionId, resultType, 2, ackId, task);
    AddInvocationStores(s, id, connectionId, resultType, 2, ackId, task);
    CompleteFromOwnConnection(s1, connectionId, EmptyCompletion(id));
    var s2 := TryCompleteResult(s1, connectionId, EmptyCompletion(id)).0;
    CompleteFromOwnConnection(s2, connectionId, WithResult(id, value));
  }

  /** Two endpoints: a first answer with a result completes the task without waiting for the second. */
  lemma FirstResultCompletesAtOnce(s: State, id: string, connectionId: string, resultType: TypeToken,
                                   ackId: int, task: TaskHandle, value: Value)
    requires Valid(s) && id !in s.pending && ackId !in s.acks && task !in s.tasks
    ensures var s1 := AddInvocation(s, id, connectionId, resultType, 2, ackId, task);
      var (s2, r2) := TryCompleteResult(s1, connectionId, WithResult(id, value));
      r2 == Success(true) && s2.tasks[task] == RanToCompletion(value) && id !in s2.pending
  {
    AddInvocationStores(s, id, connectionId, resultType, 2, ackId, task);
    CompleteFromOwnConnection(AddInvocation(s, id, connectionId, resultType, 2, ackId, task), connectionId, WithResult(id, value));
  }

  /**
   * Cancellation is a completion with the error "Canceled" from the invocation's own
   * connection: with a single endpoint it faults the task with that error, and a late real
   * result is then ignored.
   */
  lemma CancelSingleEndpoint(s: State, id: string, connectionId: string, resultType: TypeToken,
                             ackId: int, task: TaskHandle, value: Value)
    requires Valid(s) && id !in s.pending && ackId !in s.acks && task !in s.tasks
    ensures var s1 := AddInvocation(s, id, connectionId, resultType, 1, ackId, task);
      var (s2, r2) := Cancel(s1, connectionId, id);
      var (s3, r3) := TryCompleteResult(s2, connectionId, WithResult(id, value));
      && r2 == Success(true) && s2.tasks[task] == Faulted(HubException(Some("Canceled")))
      && r3 == Success(false) && s3.tasks[task] == s2.tasks[task]
  {
    AddInvocationStores(s, id, connectionId, resultType, 1, ackId, task);
    CompleteFromOwnConnection(AddInvocation(s, id, connectionId, resultType, 1, ackId, task), connectionId, WithError(id, "Canceled"));
  }

  /**
   * With two or more endpoints the cancellation callback is one result-less answer among
   * several: while the ack still waits for more answers it resolves nothing, so the awaited
   * task keeps running and the invocation stays pending.
   */
  lemma CancelMultiEndpointKeepsRunning(s: State, connectionId: string, id: string, expected: int, received: nat)
    requires Valid(s) && id in s.pending && s.pending[id].connectionId == connectionId
    requires s.acks[s.pending[id].ackId] == AckEntry(expected, received)
    requires expected >= 2 && received + 1 < expected
    ensures var (s', r) := Cancel(s, connectionId, id);
      && r == Success(false) && Valid(s')
      && s'.pending == s.pending && s'.tasks == s.tasks && s'.tasks[s.pending[id].task] == Running
      && s'.acks[s.pending[id].ackId] == AckEntry(expected, received + 1)
  {
    CompleteFromOwnConnection(s, connectionId, WithError(id, "Canceled"));
  }

  // ---------------------------------------------------------------- cleanup, removal, return types

  /** Visiting one more pending id adds it to the doomed set exactly when it belongs to the connection. */
  lemma OwnedByStep(s0: State, connectionId: string, keys: set<string>, k: string)
    requires k in s0.pending
    ensures OwnedBy(s0, connectionId, keys + {k})
         == if s0.pending[k].connectionId == connectionId then OwnedBy(s0, connectionId, keys) + {k}
            else OwnedBy(s0, connectionId, keys)
  {
  }

  /** The task of an unvisited invocation is not among the doomed tasks, so it is still running. */
  lemma UnvisitedTaskRunning(s0: State, connectionId: string, keys: set<string>, k: string)
    requires Valid(s0) && k in s0.pending && k !in keys
    ensures s0.pending[k].task !in DoomedTasks(s0, connectionId, keys)
    ensures var t := CleanupKeys(s0, connectionId, keys).tasks; s0.pending[k].task in t && t[s0.pending[k].task] == Running
  {
  }

  /** The pending table after one more step: the visited id leaves it when it belongs to the connection. */
  lemma CleanupPendingStep(s0: State, connectionId: string, keys: set<string>, k: string)
    requires k in s0.pending && k !in keys
    ensures var p := CleanupKeys(s0, connectionId, keys).pending;
      && k in p && p[k] == s0.pending[k]
      && CleanupKeys(s0, connectionId, keys + {k}).pending
         == if s0.pending[k].connectionId == connectionId then p - {k} else p
  {
    OwnedByStep(s0, connectionId, keys, k);
  }

  /** The task table after one more step: the visited invocation's task faults when it belongs to the connection. */
  lemma CleanupTasksStep(s0: State, connectionId: string, keys: set<string>, k: string)
    requires Valid(s0) && k in s0.pending && k !in keys
    ensures var t := CleanupKeys(s0, connectionId, keys).tasks;
      CleanupKeys(s0, connectionId, keys + {k}).tasks
      == if s0.pending[k].connectionId == connectionId then TrySet(t, s0.pending[k].task, DisconnectedFault(connectionId)) else t
  {
    var task := s0.pending[k].task;
    OwnedByStep(s0, connectionId, keys, k);
    UnvisitedTaskRunning(s0, connectionId, keys, k);
    if s0.pending[k].connectionId == connectionId {
      assert DoomedTasks(s0, connectionId, keys + {k}) == DoomedTasks(s0, connectionId, keys) + {task};
    } else {
      assert DoomedTasks(s0, connectionId, keys + {k}) == DoomedTasks(s0, connectionId, keys);
    }
  }

  /** One step of the cleanup loop: the next pending id is removed and faulted when it belongs to the connection. */
  lemma CleanupStep(s0: State, connectionId: string, keys: set<string>, k: string)
    requires Valid(s0) && k in s0.pending && k !in keys
    ensures var s := CleanupKeys(s0, connectionId, keys);
      k in s.pending && s.pending[k] == s0.pending[k]
      && CleanupKeys(s0, connectionId, keys + {k})
         == if s0.pending[k].connectionId == connectionId
            then State(s.pending - {k}, s.acks, TrySet(s.tasks, s.pending[k].task, DisconnectedFault(connectionId)))
            else s
  {
    CleanupPendingStep(s0, connectionId, keys, k);
    CleanupTasksStep(s0, connectionId, keys, k);
  }

  /**
   * CleanupInvocationsByConnection removes every pending invocation of the connection and
   * faults its task with "Connection '<id>' is disconnected."; the other connections'
   * invocations, their tasks and the acks stay as they were, and the invariant is kept.
   */
  lemma CleanupResolvesConnection(s: State, connectionId: string)
    requires Valid(s)
    ensures var s' := CleanupByConnection(s, connectionId);
      && Valid(s') && s'.acks == s.acks
      && (forall id :: id in s'.pending <==> id in s.pending && s.pending[id].connectionId != connectionId)
      && (forall id :: id in s'.pending ==> s'.pending[id] == s.pending[id] && s'.tasks[s.pending[id].task] == Running)
      && (forall id :: id in s.pending && s.pending[id].connectionId == connectionId ==>
            s'.tasks[s.pending[id].task] == Faulted(HubException(Some(DisconnectedMessage(connectionId))))
            && GetReturnType(s', id).Failure?)
  {
    var s' := CleanupByConnection(s, connectionId);
    var doomed := OwnedBy(s, connectionId, s.pending.Keys);
    var doomedTasks := DoomedTasks(s, connectionId, s.pending.Keys);
    forall id | id in s'.pending
      ensures s'.pending[id] == s.pending[id] && s'.tasks[s.pending[id].task] == Running
    {
      assert s.pending[id].task !in doomedTasks;
    }
    forall id | id in s.pending && s.pending[id].connectionId == connectionId
      ensures s'.tasks[s.pending[id].task] == Faulted(HubException(Some(DisconnectedMessage(connectionId))))
    {
      assert s.pending[id].task in doomedTasks;
    }
  }

  /** RemoveInvocation drops only that entry, resolves nothing and keeps the invariant. */
  lemma RemoveKeepsOthers(s: State, invocationId: string)
    requires Valid(s)
    ensures var s' := RemoveInvocation(s, invocationId);
      Valid(s') && invocationId !in s'.pending && s'.tasks == s.tasks && s'.acks == s.acks
      && (forall id :: id in s.pending && id != invocationId ==> id in s'.pending && s'.pending[id] == s.pending[id])
      && GetReturnType(s', invocationId).Failure?
  {
  }
}
