/**
 * The acknowledgement handler the client-invocation correlator relies on. Its implementation is
 * not part of this model; what the correlator needs of it is stated here as an assumption: an
 * ack id maps to how many responses the ack waits for and how many have arrived, each trigger
 * counts one response, and the ack has completed successfully once the received count reaches
 * the expected count (at once when the expected count is zero or less). Timeouts are not
 * modelled, and completed entries stay in the table, where they stay completed.
 */
module Acks {

  datatype AckEntry = AckEntry(expected: int, received: nat)

  type AckTable = map<int, AckEntry>

  /** The ack has had as many responses as it waits for. */
  predicate Satisfied(e: AckEntry)
  {
    e.received >= e.expected
  }

  /** `IsCompletedSuccessfully` of the ack's task. */
  predicate CompletedSuccessfully(acks: AckTable, id: int)
  {
    id in acks && Satisfied(acks[id])
  }

  /** `CreateMultiAck`: a fresh entry that waits for one response until told otherwise. */
  function Opened(acks: AckTable, id: int): (r: AckTable)
    ensures id in r && r[id] == AckEntry(1, 0)
    ensures forall other :: other in acks && other != id ==> other in r && r[other] == acks[other]
    ensures r.Keys == acks.Keys + {id}
  {
    acks[id := AckEntry(1, 0)]
  }

  /** `SetExpectedCount`: an unknown id is ignored. */
  function WithExpected(acks: AckTable, id: int, count: int): (r: AckTable)
    ensures r.Keys == acks.Keys
    ensures id in acks ==> r[id] == acks[id].(expected := count)
    ensures forall other :: other in acks && other != id ==> r[other] == acks[other]
  {
    if id in acks then acks[id := acks[id].(expected := count)] else acks
  }

  /** `TriggerAck`: one more response; an unknown id is ignored. */
  function Triggered(acks: AckTable, id: int): (r: AckTable)
    ensures r.Keys == acks.Keys
    ensures id in acks ==> r[id] == AckEntry(acks[id].expected, acks[id].received + 1)
    ensures forall other :: other in acks && other != id ==> r[other] == acks[other]
  {
    if id in acks then acks[id := acks[id].(received := acks[id].received + 1)] else acks
  }

  /** `k` triggers of the same ack, one after the other. */
  function TriggeredTimes(acks: AckTable, id: int, k: nat): AckTable
  {
    if k == 0 then acks else Triggered(TriggeredTimes(acks, id, k - 1), id)
  }

  /**
   * A multi-ack that expects `n` responses completes after exactly `n` triggers: it has not
   * completed after fewer, and it has after `n` or more.
   */
  lemma {:induction false} MultiAckCompletesAfterExpectedTriggers(acks: AckTable, id: int, n: int, k: nat)
    ensures var t := TriggeredTimes(WithExpected(Opened(acks, id), id, n), id, k);
            id in t && t[id] == AckEntry(n, k) && (CompletedSuccessfully(t, id) <==> k >= n)
  {
    if k > 0 {
      MultiAckCompletesAfterExpectedTriggers(acks, id, n, k - 1);
    }
  }

  /** The stub handler: its table of acks and the last id it handed out. */
  class AckHandler {
    var acks: AckTable
    var lastAckId: int

    /** Every id in use was handed out already, so the next one is fresh. */
    ghost predicate Valid()
      reads this
    {
      forall id :: id in acks ==> id <= lastAckId
    }

    constructor ()
      ensures Valid() && acks == map[]
    {
      acks := map[];
      lastAckId := 0;
    }

    method CreateMultiAck() returns (id: int)
      requires Valid()
      modifies this
      ensures Valid()
      ensures id == lastAckId == old(lastAckId) + 1 && id !in old(acks)
      ensures acks == Opened(old(acks), id)
    {
      lastAckId := lastAckId + 1;
      id := lastAckId;
      acks := Opened(acks, id);
    }

    method SetExpectedCount(id: int, count: int)
      requires Valid()
      modifies this
      ensures Valid() && lastAckId == old(lastAckId)
      ensures acks == WithExpected(old(acks), id, count)
    {
      acks := WithExpected(acks, id, count);
    }

    method TriggerAck(id: int)
      requires Valid()
      modifies this
      ensures Valid() && lastAckId == old(lastAckId)
      ensures acks == Triggered(old(acks), id)
    {
      acks := Triggered(acks, id);
    }

    /** Whether the ack's task has completed successfully. */
    method IsCompletedSuccessfully(id: int) returns (done: bool)
      ensures done <==> CompletedSuccessfully(acks, id)
    {
      done := id in acks && acks[id].received >= acks[id].expected;
    }
  }
}
