/**
 * The parts of the Epic Online Services P2P SDK the transport consumes,
 * reduced to values: result codes, reliability and relay settings, the
 * notification-id convention and the payloads of the connection callbacks.
 * The SDK's behaviour itself is never modelled; it enters the model as
 * parameters (result codes, completion oracle, received datagrams).
 */
module Eos {
  import opened Common

  /** `Epic.OnlineServices.Result`: success, "nothing queued", or any other code. */
  datatype EosResult = Success | NotFound | Other(code: int)

  /**
   * `Common.IsOperationComplete`, which the SDK defines per result code.
   * Passed as a parameter wherever it is consulted.
   */
  type CompletionOracle = EosResult -> bool

  /** The SDK's `Common.InvalidNotificationid`. */
  const InvalidNotificationId: U64 := 0

  datatype PacketReliability = UnreliableUnordered | ReliableUnordered | ReliableOrdered

  datatype RelayControl = NoRelays | AllowRelays | ForceRelays

  datatype ConnectionEstablishedType = NewConnection | Reconnection

  /** Payload of the peer-connection-request callback. */
  datatype ConnectionRequestInfo = ConnectionRequestInfo(localUserId: UserId, remoteUserId: UserId, socketName: string)

  /** Payload of the connection-established callback. */
  datatype EstablishedInfo = EstablishedInfo(remoteUserId: UserId, socketName: string, connectionType: ConnectionEstablishedType)

  /** Payload of the connection-interrupted callback. */
  datatype InterruptedInfo = InterruptedInfo(remoteUserId: UserId, socketName: string)

  /** Payload of the remote-connection-closed callback. */
  datatype ClosedInfo = ClosedInfo(remoteUserId: UserId, socketName: string)
}
