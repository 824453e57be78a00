/**
 * The client-id registry (`remoteConnections`): Netcode addresses peers by
 * `ulong` client ids, the transport by product user ids. The host is always
 * client 0; every other user is known by the 64-bit hash of its id string,
 * recorded the first time the transport reports an event from that user.
 */
module Registry {
  import opened Common

  /** `remoteConnections`: client id to product user id. */
  type Connections = map<U64, UserId>

  /** `ServerClientId`: the host's client id. */
  const ServerClientId: U64 := 0

  /**
   * `Utf8String.GetHashCodeUInt64`: a SHA-256 based hash of the user id's
   * UTF-8 bytes. It is a library call, so it enters as a parameter.
   */
  type UserHash = UserId -> U64

  datatype ClientIdResult = ClientIdResult(clientId: U64, connections: Connections)

  /**
   * `GetClientId`: the host is client 0 and is never recorded; any other
   * user is given its hash as client id and recorded under it, replacing
   * whatever that id mapped to before.
   */
  function GetClientId(host: Option<UserId>, connections: Connections, hash: UserHash, user: UserId): (r: ClientIdResult)
    ensures host == Some(user) ==> r.clientId == ServerClientId && r.connections == connections
    ensures host != Some(user) ==>
      && r.connections.Keys == connections.Keys + {r.clientId}
      && r.connections[r.clientId] == user
      && (forall id :: id in connections && id != r.clientId ==> r.connections[id] == connections[id])
    ensures host != Some(user) ==> r.clientId == hash(user)
  {
    if host == Some(user) then ClientIdResult(ServerClientId, connections)
    else ClientIdResult(hash(user), connections[hash(user) := user])
  }

  /**
   * `GetUserId`: client 0 is the configured host (which may be unset);
   * any other id must have been recorded, or the dictionary lookup throws.
   */
  function GetUserId(host: Option<UserId>, connections: Connections, clientId: U64): (r: Result<Option<UserId>>)
    ensures clientId == ServerClientId ==> r == Ok(host)
    ensures clientId != ServerClientId ==> (r.Ok? <==> clientId in connections)
    ensures clientId != ServerClientId && r.Ok? ==> r.value == Some(connections[clientId])
    ensures r.Threw? ==> r.error == KeyNotFound
  {
    if clientId == ServerClientId then Ok(host)
    else if clientId in connections then Ok(Some(connections[clientId]))
    else Threw(KeyNotFound)
  }

  /**
   * The round trip: looking up the id just handed out for a user gives
   * that user back, for the host and for every user whose hash is not 0.
   */
  lemma UserIdOfClientId(host: Option<UserId>, connections: Connections, hash: UserHash, user: UserId)
    requires host == Some(user) || hash(user) != ServerClientId
    ensures var r := GetClientId(host, connections, hash, user);
      GetUserId(host, r.connections, r.clientId) == Ok(Some(user))
  {
  }

  /**
   * The round trip fails for a non-host user whose hash is 0: that id is
   * the host's, so the lookup answers with the host instead.
   */
  lemma HashZeroAliasesHost(host: Option<UserId>, connections: Connections, hash: UserHash, user: UserId)
    requires host != Some(user) && hash(user) == ServerClientId
    ensures var r := GetClientId(host, connections, hash, user);
      && r.clientId == ServerClientId
      && GetUserId(host, r.connections, r.clientId) == Ok(host)
      && GetUserId(host, r.connections, r.clientId) != Ok(Some(user))
  {
  }

  /**
   * Two users with the same hash share a client id: the later one wins and
   * the earlier one's id now resolves to the later user.
   */
  lemma HashCollisionOverwrites(host: Option<UserId>, connections: Connections, hash: UserHash, u: UserId, v: UserId)
    requires host != Some(u) && host != Some(v) && u != v && hash(u) == hash(v) && hash(u) != ServerClientId
    ensures var ru := GetClientId(host, connections, hash, u);
      var rv := GetClientId(host, ru.connections, hash, v);
      && ru.clientId == rv.clientId
      && GetUserId(host, rv.connections, ru.clientId) == Ok(Some(v))
  {
  }

  /** A registry in which only remote users are recorded: client 0 is never a key. */
  predicate HostFree(connections: Connections)
  {
    ServerClientId !in connections
  }

  /** Recording users whose hash is not 0 keeps the registry free of the host's id. */
  lemma GetClientIdKeepsHostFree(host: Option<UserId>, connections: Connections, hash: UserHash, user: UserId)
    requires HostFree(connections) && hash(user) != ServerClientId
    ensures HostFree(GetClientId(host, connections, hash, user).connections)
  {
  }

  /**
   * `DisconnectRemoteClient`'s bookkeeping: the id is resolved first (an
   * unknown id throws before anything changes), then the mapping is removed
   * whether or not the SDK managed to close the connection.
   */
  function DisconnectRemoteClient(host: Option<UserId>, connections: Connections, clientId: U64): (r: Result<Connections>)
    ensures r.Ok? <==> GetUserId(host, connections, clientId).Ok?
    ensures r.Threw? ==> r.error == KeyNotFound
    ensures r.Ok? ==> r.value.Keys == connections.Keys - {clientId}
    ensures r.Ok? ==> forall id :: id in r.value ==> r.value[id] == connections[id]
  {
    match GetUserId(host, connections, clientId)
    case Threw(e) => Threw(e)
    case Ok(_) => Ok(connections - {clientId})
  }

  /** After a remote client is disconnected its id no longer resolves (unless it is the host's). */
  lemma DisconnectedIdUnknown(host: Option<UserId>, connections: Connections, clientId: U64)
    requires clientId != ServerClientId && clientId in connections
    ensures DisconnectRemoteClient(host, connections, clientId).Ok?
    ensures GetUserId(host, DisconnectRemoteClient(host, connections, clientId).value, clientId) == Threw(KeyNotFound)
  {
  }

  /**
   * `DisconnectLocalClient`'s bookkeeping: it removes the id `GetClientId`
   * gives the host, which is 0, so it leaves a host-free registry unchanged.
   */
  function DisconnectLocalClient(host: Option<UserId>, connections: Connections, hash: UserHash): (r: Connections)
    ensures r.Keys == connections.Keys - {ServerClientId}
    ensures forall id :: id in r ==> r[id] == connections[id]
  {
    match host
    case None => connections - {ServerClientId}  // a null host id equals the null host
    case Some(h) => connections - {GetClientId(host, connections, hash, h).clientId}
  }

  lemma DisconnectLocalClientNoOp(host: Option<UserId>, connections: Connections, hash: UserHash)
    requires HostFree(connections)
    ensures DisconnectLocalClient(host, connections, hash) == connections
  {
  }
}
