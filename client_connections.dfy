/**
 * The ASP.NET ClientConnectionManager: the table of client connections keyed by connection id,
 * and the normalisation of the query string an open-connection message carries before it is
 * handed to OWIN.
 */
module ClientConnections {
  import opened Wrappers

  /** A client connection, by the two ids it exposes; its server connection is not modelled. */
  datatype ClientConnection = ClientConnection(connectionId: string, instanceId: string)

  /** Every entry is stored under its own connection id. */
  ghost predicate KeyedById(m: map<string, ClientConnection>)
  {
    forall id :: id in m ==> m[id].connectionId == id
  }

  /** In a table keyed by id no connection is stored twice, so there are as many connections as ids. */
  lemma {:induction false} ValuesMatchKeys(m: map<string, ClientConnection>)
    ensures KeyedById(m) ==> |m.Values| == |m.Keys|
    decreases |m.Keys|
  {
    if KeyedById(m) && m.Keys != {} {
      var id :| id in m.Keys;
      var rest := m - {id};
      ValuesMatchKeys(rest);
      assert m.Keys == rest.Keys + {id};
      assert m.Values == rest.Values + {m[id]};
      assert m[id] !in rest.Values;
    }
  }

  /** No two elements of the sequence have the same connection id. */
  ghost predicate DistinctIds(connections: seq<ClientConnection>)
  {
    forall i, j :: 0 <= i < j < |connections| ==> connections[i].connectionId != connections[j].connectionId
  }

  /** Every element is the connection stored under its id, and its id is among `ids`. */
  ghost predicate StoredUnder(m: map<string, ClientConnection>, ids: set<string>, connections: seq<ClientConnection>)
  {
    forall i :: 0 <= i < |connections| ==>
      connections[i].connectionId in ids && connections[i].connectionId in m && m[connections[i].connectionId] == connections[i]
  }

  /** Appending the entry of an id not yet enumerated keeps both properties. */
  lemma AppendEntry(m: map<string, ClientConnection>, ids: set<string>, connections: seq<ClientConnection>, id: string)
    requires KeyedById(m) && id in m && id !in ids
    requires DistinctIds(connections) && StoredUnder(m, ids, connections)
    ensures DistinctIds(connections + [m[id]]) && StoredUnder(m, ids + {id}, connections + [m[id]])
  {
  }

  /**
   * A sequence that holds, for every id of the table, the connection stored there, and only such
   * connections, holds exactly the stored connections, each once.
   */
  lemma EnumerationComplete(m: map<string, ClientConnection>, connections: seq<ClientConnection>)
    requires StoredUnder(m, m.Keys, connections) && DistinctIds(connections)
    requires forall id :: id in m ==> m[id] in connections
    ensures forall c :: c in connections <==> c in m.Values
    ensures forall i, j :: 0 <= i < j < |connections| ==> connections[i] != connections[j]
  {
    forall c | c in m.Values
      ensures c in connections
    {
      var id :| id in m && m[id] == c;
    }
  }

  class ClientConnectionManager {
    var clientConnections: map<string, ClientConnection>

    ghost predicate Valid()
      reads this
    {
      KeyedById(clientConnections)
    }

    constructor ()
      ensures Valid() && clientConnections == map[]
    {
      clientConnections := map[];
    }

    /** `Count`: the number of entries, which is also the number of distinct connections stored. */
    function Count(): (n: nat)
      reads this
      ensures Valid() ==> n == |clientConnections.Values|
    {
      ValuesMatchKeys(clientConnections);
      |clientConnections|
    }

    /** Adds the connection under its own id unless that id is taken; an existing entry is kept. */
    method TryAddClientConnection(connection: ClientConnection) returns (added: bool)
      requires Valid()
      modifies this
      ensures Valid()
      ensures added <==> connection.connectionId !in old(clientConnections)
      ensures added ==> clientConnections == old(clientConnections)[connection.connectionId := connection]
      ensures !added ==> clientConnections == old(clientConnections)
    {
      if connection.connectionId in clientConnections {
        return false;
      }
      clientConnections := clientConnections[connection.connectionId := connection];
      return true;
    }

    /** Removes and returns the entry for the id; false with null when there is none. */
    method TryRemoveClientConnection(connectionId: string) returns (removed: bool, connection: Option<ClientConnection>)
      requires Valid()
      modifies this
      ensures Valid()
      ensures removed <==> connectionId in old(clientConnections)
      ensures removed ==> connection == Some(old(clientConnections)[connectionId]) && connection.value.connectionId == connectionId
      ensures !removed ==> connection == None
      ensures connectionId !in clientConnections
      ensures clientConnections == old(clientConnections) - {connectionId}
    {
      if connectionId !in clientConnections {
        return false, None;
      }
      connection := Some(clientConnections[connectionId]);
      clientConnections := clientConnections - {connectionId};
      removed := true;
    }

    /** Looks the id up without changing the table. */
    method TryGetClientConnection(connectionId: string) returns (found: bool, connection: Option<ClientConnection>)
      requires Valid()
      ensures found <==> connectionId in clientConnections
      ensures found ==> connection == Some(clientConnections[connectionId]) && connection.value.connectionId == connectionId
      ensures !found ==> connection == None
    {
      if connectionId in clientConnections {
        return true, Some(clientConnections[connectionId]);
      }
      return false, None;
    }

    /** `ClientConnections`: every stored connection, each once. */
    method EnumerateClientConnections() returns (connections: seq<ClientConnection>)
      requires Valid()
      ensures |connections| == Count()
      ensures forall c :: c in connections <==> c in clientConnections.Values
      ensures forall i, j :: 0 <= i < j < |connections| ==> connections[i] != connections[j]
    {
      var ids := clientConnections.Keys;
      ghost var visited: set<string> := {};
      connections := [];
      while ids != {}
        invariant ids + visited == clientConnections.Keys && ids !! visited
        invariant |connections| == |visited|
        invariant StoredUnder(clientConnections, visited, connections) && DistinctIds(connections)
        invariant forall id :: id in visited ==> clientConnections[id] in connections
        decreases ids
      {
        var id :| id in ids;
        AppendEntry(clientConnections, visited, connections, id);
        connections := connections + [clientConnections[id]];
        ids := ids - {id};
        visited := visited + {id};
      }
      EnumerationComplete(clientConnections, connections);
    }
  }

  /**
   * The query string OWIN receives: none for an empty one, and otherwise the string with at most
   * one leading '?' removed.
   */
  function OwinQueryString(queryString: string): (r: Option<string>)
    ensures r.None? <==> queryString == ""
    ensures r.Some? ==> queryString == r.value || queryString == "?" + r.value
    ensures r.Some? && queryString[0] == '?' ==> |r.value| == |queryString| - 1
    ensures r.Some? && queryString[0] != '?' ==> r.value == queryString
  {
    if |queryString| > 0 then
      Some(if queryString[0] == '?' then queryString[1..] else queryString)
    else None
  }

  /** The service always prefixes a '?': removing it gives back exactly what followed it, even another '?'. */
  lemma StripsTheServicePrefix(query: string)
    ensures OwinQueryString("?" + query) == Some(query)
  {
    assert ("?" + query)[1..] == query;
  }

  /** A query string without a leading '?' reaches OWIN unchanged. */
  lemma BareQueryUnchanged(query: string)
    requires query != "" && query[0] != '?'
    ensures OwinQueryString(query) == Some(query)
  {
  }
}
