/**
 * The control messages an application server sends to the service to change or query group
 * membership (GroupMessage.cs) and to check existence with an acknowledgement
 * (CheckWithAckMessage.cs), as one closed datatype with a constructor per message class.
 *
 * Each constructor's parameters are the class's fields, in the order of the class's
 * constructor; a C# optional parameter is a Dafny default value. Every setter the source uses
 * afterwards (`TracingId`, `Ttl`) is a record update.
 */
module ServiceMessages {
  import opened Wrappers

  /** C# `int`. */
  type Int32 = x: int | -0x8000_0000 <= x < 0x8000_0000
  /** C# `ulong`. */
  type UInt64 = x: int | 0 <= x < 0x1_0000_0000_0000_0000
  /** C# `byte`. */
  type Byte = x: int | 0 <= x < 0x100

  /**
   * `GeneratePartitionKey` of the message base class, which is not part of this model: any
   * function from a nullable name to a byte. The model only fixes which field is passed to it.
   */
  type PartitionKeyGenerator = NullableString -> Byte

  datatype ServiceMessage =
    | JoinGroupMessage(connectionId: string, groupName: string, tracingId: Option<UInt64> := None)
      /** `groupNameOrAll == None` asks the service to remove the connection from every group. */
    | LeaveGroupMessage(connectionId: string, groupNameOrAll: NullableString, tracingId: Option<UInt64> := None)
      /** The constructor leaves `ttl` null; only the settable property gives it a value. */
    | UserJoinGroupMessage(userId: string, groupName: string, tracingId: Option<UInt64> := None, ttl: Option<Int32> := None)
    | UserLeaveGroupMessage(userId: string, groupNameOrAll: NullableString, tracingId: Option<UInt64> := None)
    | UserJoinGroupWithAckMessage(userId: string, groupName: string, ackId: Int32, ttl: Option<Int32> := None, tracingId: Option<UInt64> := None)
    | UserLeaveGroupWithAckMessage(userId: string, groupNameOrAll: NullableString, ackId: Int32, tracingId: Option<UInt64> := None)
    | JoinGroupWithAckMessage(connectionId: string, groupName: string, ackId: Int32, tracingId: Option<UInt64> := None)
    | LeaveGroupWithAckMessage(connectionId: string, groupNameOrAll: NullableString, ackId: Int32, tracingId: Option<UInt64> := None)
    | CheckUserInGroupWithAckMessage(userId: string, groupName: string, ackId: Int32 := 0, tracingId: Option<UInt64> := None)
    | CheckGroupExistenceWithAckMessage(groupName: string, ackId: Int32 := 0, tracingId: Option<UInt64> := None)
    | CheckConnectionExistenceWithAckMessage(connectionId: string, ackId: Int32 := 0, tracingId: Option<UInt64> := None)
    | CheckUserExistenceWithAckMessage(userId: string, ackId: Int32 := 0, tracingId: Option<UInt64> := None)
      /**
       * Built by the lifetime manager's CloseConnectionAsync; its class is not part of this
       * model, and it is taken here to carry only the constructor's two arguments.
       */
    | CloseConnectionMessage(connectionId: string, errorMessage: NullableString, tracingId: Option<UInt64> := None)

  /** The three-argument `JoinGroupWithAckMessage` constructor, which passes ack id 0 on. */
  function JoinGroupWithAck(connectionId: string, groupName: string, tracingId: Option<UInt64> := None): (m: ServiceMessage)
    ensures m.JoinGroupWithAckMessage? && m.ackId == 0
    ensures m.connectionId == connectionId && m.groupName == groupName && m.tracingId == tracingId
  {
    JoinGroupWithAckMessage(connectionId, groupName, 0, tracingId)
  }

  /** The three-argument `LeaveGroupWithAckMessage` constructor, which passes ack id 0 on. */
  function LeaveGroupWithAck(connectionId: string, groupName: NullableString, tracingId: Option<UInt64> := None): (m: ServiceMessage)
    ensures m.LeaveGroupWithAckMessage? && m.ackId == 0
    ensures m.connectionId == connectionId && m.groupNameOrAll == groupName && m.tracingId == tracingId
  {
    LeaveGroupWithAckMessage(connectionId, groupName, 0, tracingId)
  }

  /** The eight classes of GroupMessage.cs. */
  predicate IsGroupMessage(m: ServiceMessage)
  {
    m.JoinGroupMessage? || m.LeaveGroupMessage? || m.UserJoinGroupMessage? || m.UserLeaveGroupMessage?
    || m.UserJoinGroupWithAckMessage? || m.UserLeaveGroupWithAckMessage?
    || m.JoinGroupWithAckMessage? || m.LeaveGroupWithAckMessage?
  }

  /** The four subclasses of `CheckWithAckMessage`. */
  predicate IsCheckWithAck(m: ServiceMessage)
  {
    m.CheckUserInGroupWithAckMessage? || m.CheckGroupExistenceWithAckMessage?
    || m.CheckConnectionExistenceWithAckMessage? || m.CheckUserExistenceWithAckMessage?
  }

  /** The classes that implement `IAckableMessage`, that is, carry an `AckId`. */
  predicate IsAckable(m: ServiceMessage)
  {
    m.UserJoinGroupWithAckMessage? || m.UserLeaveGroupWithAckMessage?
    || m.JoinGroupWithAckMessage? || m.LeaveGroupWithAckMessage? || IsCheckWithAck(m)
  }

  /** The classes that implement `IPartitionableMessage`. */
  predicate IsPartitionable(m: ServiceMessage)
  {
    IsGroupMessage(m) || m.CheckUserInGroupWithAckMessage? || m.CheckGroupExistenceWithAckMessage?
    || m.CheckUserExistenceWithAckMessage?
  }

  /** The classes with a `GroupName` property. */
  predicate HasGroupName(m: ServiceMessage)
  {
    IsGroupMessage(m) || m.CheckUserInGroupWithAckMessage? || m.CheckGroupExistenceWithAckMessage?
  }

  /** `GroupName`, null only for the "all groups" form of the leave messages. */
  function GroupNameOf(m: ServiceMessage): (g: NullableString)
    requires HasGroupName(m)
    ensures g.None? ==> m.LeaveGroupMessage? || m.UserLeaveGroupMessage? || m.UserLeaveGroupWithAckMessage? || m.LeaveGroupWithAckMessage?
  {
    if m.LeaveGroupMessage? || m.UserLeaveGroupMessage? || m.UserLeaveGroupWithAckMessage? || m.LeaveGroupWithAckMessage?
    then m.groupNameOrAll
    else Some(m.groupName)
  }

  /**
   * `PartitionKey` of each partitionable class, written per class as the source writes it;
   * `None` for a class that has no such property.
   */
  function PartitionKey(m: ServiceMessage, generate: PartitionKeyGenerator): (k: Option<Byte>)
    ensures k.Some? <==> IsPartitionable(m)
    ensures HasGroupName(m) ==> k == Some(generate(GroupNameOf(m)))
    ensures m.CheckUserExistenceWithAckMessage? ==> k == Some(generate(Some(m.userId)))
  {
    match m
    case JoinGroupMessage(_, groupName, _) => Some(generate(Some(groupName)))
    case LeaveGroupMessage(_, groupName, _) => Some(generate(groupName))
    case UserJoinGroupMessage(_, groupName, _, _) => Some(generate(Some(groupName)))
    case UserLeaveGroupMessage(_, groupName, _) => Some(generate(groupName))
    case UserJoinGroupWithAckMessage(_, groupName, _, _, _) => Some(generate(Some(groupName)))
    case UserLeaveGroupWithAckMessage(_, groupName, _, _) => Some(generate(groupName))
    case JoinGroupWithAckMessage(_, groupName, _, _) => Some(generate(Some(groupName)))
    case LeaveGroupWithAckMessage(_, groupName, _, _) => Some(generate(groupName))
    case CheckUserInGroupWithAckMessage(_, groupName, _, _) => Some(generate(Some(groupName)))
    case CheckGroupExistenceWithAckMessage(groupName, _, _) => Some(generate(Some(groupName)))
    case CheckConnectionExistenceWithAckMessage(_, _, _) => None
    case CheckUserExistenceWithAckMessage(userId, _, _) => Some(generate(Some(userId)))
    case CloseConnectionMessage(_, _, _) => None
  }

  /** The `TracingId` setter of `IMessageWithTracingId`: only the tracing id changes. */
  function WithTracingId(m: ServiceMessage, tracingId: Option<UInt64>): (r: ServiceMessage)
    ensures r.tracingId == tracingId
    ensures r.(tracingId := m.tracingId) == m
  {
    m.(tracingId := tracingId)
  }

  /**
   * Messages that name the same group get the same partition key, whatever their kind and
   * whatever connection or user they carry, for every key generator.
   */
  lemma SameGroupSamePartitionKey(m1: ServiceMessage, m2: ServiceMessage, generate: PartitionKeyGenerator)
    requires HasGroupName(m1) && HasGroupName(m2) && GroupNameOf(m1) == GroupNameOf(m2)
    ensures PartitionKey(m1, generate) == PartitionKey(m2, generate)
  {
  }

  /**
   * The check-with-ack messages: the user-in-group and group-existence checks are keyed by their
   * group, the user-existence check by its user, and the connection-existence check has no key.
   */
  lemma CheckMessageKeys(m: ServiceMessage, generate: PartitionKeyGenerator)
    requires IsCheckWithAck(m)
    ensures m.CheckUserInGroupWithAckMessage? ==> PartitionKey(m, generate) == Some(generate(Some(m.groupName)))
    ensures m.CheckGroupExistenceWithAckMessage? ==> PartitionKey(m, generate) == Some(generate(Some(m.groupName)))
    ensures m.CheckUserExistenceWithAckMessage? ==> PartitionKey(m, generate) == Some(generate(Some(m.userId)))
    ensures m.CheckConnectionExistenceWithAckMessage? ==> PartitionKey(m, generate) == None
  {
  }

  /**
   * `CheckUserInGroupWithAckMessage` is keyed by its group and not by its user: there is a key
   * generator under which the same user in two groups lands on two partitions.
   */
  lemma CheckUserInGroupNotKeyedByUser()
    ensures var generate: PartitionKeyGenerator := (name: NullableString) => if name == Some("a") then 1 else 0;
            PartitionKey(CheckUserInGroupWithAckMessage("u", "a"), generate)
            != PartitionKey(CheckUserInGroupWithAckMessage("u", "b"), generate)
  {
  }

  /**
   * Omitted arguments: ack id 0 and no tracing id for the check messages and the three-argument
   * join/leave-with-ack constructors; no TTL on either user-join message.
   */
  lemma ConstructorDefaults(user: string, group: string, connection: string, ackId: Int32)
    ensures var m := CheckUserInGroupWithAckMessage(user, group); m.ackId == 0 && m.tracingId == None
    ensures var m := CheckGroupExistenceWithAckMessage(group); m.ackId == 0 && m.tracingId == None
    ensures var m := CheckConnectionExistenceWithAckMessage(connection); m.ackId == 0 && m.tracingId == None
    ensures var m := CheckUserExistenceWithAckMessage(user); m.ackId == 0 && m.tracingId == None
    ensures JoinGroupWithAck(connection, group).ackId == 0 && LeaveGroupWithAck(connection, Some(group)).ackId == 0
    ensures UserJoinGroupMessage(user, group).ttl == None
    ensures var m := UserJoinGroupWithAckMessage(user, group, ackId); m.ttl == None && m.tracingId == None
  {
  }
}
