/**
 * The reassembly key (RecievedPacketInfo): which socket, which remote user
 * and which channel a received datagram came from, with the value equality
 * the reassembly table relies on.
 */
module PacketInfo {
  import opened Common

  datatype ReceivedPacketInfo = ReceivedPacketInfo(socketName: string, remoteUserId: UserId, channel: byte)

  /** A C# `object` as seen by `Equals(object)`: a packet info, or anything else. */
  datatype Boxed = BoxedInfo(info: ReceivedPacketInfo) | OtherObject

  /** `Equals(RecievedPacketInfo)`: socket names, user-id strings and channels all agree. */
  predicate Equals(a: ReceivedPacketInfo, b: ReceivedPacketInfo)
  {
    && a.socketName == b.socketName
    && a.remoteUserId == b.remoteUserId
    && a.channel == b.channel
  }

  /** `Equals(object)`: false for anything that is not a packet info. */
  predicate EqualsObject(a: ReceivedPacketInfo, obj: Boxed)
  {
    match obj
    case BoxedInfo(other) => Equals(a, other)
    case OtherObject => false
  }

  /** `operator ==`. */
  predicate OpEquals(a: ReceivedPacketInfo, b: ReceivedPacketInfo)
  {
    Equals(a, b)
  }

  /** `operator !=`. */
  predicate OpNotEquals(a: ReceivedPacketInfo, b: ReceivedPacketInfo)
  {
    !OpEquals(a, b)
  }

  /**
   * Key equality is exactly value equality of the triple, so a Dafny map
   * keyed by the triple partitions datagrams the way the source's dictionary does.
   */
  lemma EqualsIsValueEquality(a: ReceivedPacketInfo, b: ReceivedPacketInfo)
    ensures Equals(a, b) <==> a == b
    ensures Equals(a, b) <==> (a.socketName, a.remoteUserId, a.channel) == (b.socketName, b.remoteUserId, b.channel)
  {
  }

  lemma EqualsIsEquivalence(a: ReceivedPacketInfo, b: ReceivedPacketInfo, c: ReceivedPacketInfo)
    ensures Equals(a, a)
    ensures Equals(a, b) <==> Equals(b, a)
    ensures Equals(a, b) && Equals(b, c) ==> Equals(a, c)
  {
  }

  lemma OperatorsAgreeWithEquals(a: ReceivedPacketInfo, b: ReceivedPacketInfo)
    ensures OpEquals(a, b) <==> Equals(a, b)
    ensures OpNotEquals(a, b) <==> !Equals(a, b)
    ensures EqualsObject(a, BoxedInfo(b)) <==> Equals(a, b)
    ensures !EqualsObject(a, OtherObject)
  {
  }

  /** Streams that differ only in channel, or only in remote user, are kept apart. */
  lemma DistinctStreams(a: ReceivedPacketInfo, c: byte, u: UserId)
    ensures c != a.channel ==> !Equals(a, a.(channel := c))
    ensures u != a.remoteUserId ==> !Equals(a, a.(remoteUserId := u))
  {
  }
}
