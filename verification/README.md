# EpicTransport for Unity Netcode, modelled in Dafny

`EpicTransport` is a Unity Netcode for GameObjects transport. It carries
Netcode's messages over the peer-to-peer sockets of Epic Online Services
(EOS). This project models the transport's core as pure Dafny functions
and proves what it promises:

- **Wire format.** `Packets` models the packet codec. A datagram is a
  4-byte little-endian flags header (`None`, `Fragment`, `LastFragment`)
  followed by the payload, and the SDK caps a datagram at 1170 bytes.
- **Sending.** `Fragmenting` models the split policy of `Send`. The
  `ReliableFragmentedSequenced` tier cuts the payload into slices of 1166
  bytes. Every other tier sends a single unflagged packet. `Transport.Send`
  then makes one SDK call per packet.
- **Receiving.** `Reassembly` and `Receive` model the reassembly loop of
  `GetNextPacket`. Fragments are buffered per (socket, remote user,
  channel) key, which is the key `RecievedPacketInfo` defines in
  `PacketInfo`. The buffered fragments are joined at the `LastFragment`
  packet. The loop gives up after 101 datagrams per call, and buffered
  fragments carry over to later calls.
- **Events.** `Events` models the four SDK connection callbacks and the two
  event queues they fill. `Transport.PollEvent` drains those queues before
  it asks the SDK for data.
- **Client ids.** `Registry` models the mapping between Netcode client ids
  and product user ids. The host is client 0. Any other user gets a 64-bit
  hash of its id string as its client id.
- **Life cycle.** `Lifecycle` models the property setters that are frozen
  while the transport runs, `StartClient`, `StartServer`, the notification
  subscriptions they register, and `Shutdown`.
- **Socket names.** `SocketIds` models the socket name: the category, then
  the instance id in eight upper-case hex digits, then the suffix.
- **SDK adapter.** `P2PWrapper` models `EpicP2PWrapper`, which turns SDK
  result codes into booleans, exceptions or "no packet".
- **End to end.** `RoundTrip` joins the two sides. When the datagrams that
  one transport's `Send` hands to the SDK arrive in order at a peer, the
  peer's `PollEvent` reports the original payload.

Modelling conventions:

- **The SDK.** Its behaviour is never modelled. Each SDK call enters the
  model as data:
  - a result code, or a function from call number to result code for
    `SendPacket`;
  - the `IsOperationComplete` classification, as a `CompletionOracle`
    parameter;
  - the notification ids granted by `AddNotify…`, as a `NotifyGrant`;
  - the sequence of receive attempts, as the receive queue.
- **The receive queue.** Each entry holds the datagram already decoded by
  `Packet.FromBytes`. `Receive.Arrival` builds an entry from raw bytes. The
  codec is a bijection between datagrams of at least 4 bytes and packets,
  so nothing is lost by decoding early.
- **Hashes.** `Utf8String.GetHashCodeUInt64` (SHA-256 of the UTF-8 bytes)
  and `string.GetHashCode` are library calls. They enter as function
  parameters (`UserHash`, `StringHash`). `string.GetHashCode` is
  deterministic on Unity's runtime; client and server both name the
  transport socket with it, and the model assumes one hash shared by both.
- **Ids.** A `ProductUserId` is identified by its string form. A null id
  is `None`.
- **Clock.** The engine clock (`Time.realtimeSinceStartup`, a `float`)
  enters as a `real` timestamp. The transport stores it and passes it
  through without doing arithmetic on it.
- **Exceptions.** An exception the source lets escape is a `Threw(…)`
  result, or a `raised` field, naming the exception type.

`PollEvent` reports established connections, then disconnections, then
data (EpicTransport.cs:485-514).

`EpicTransport` and `EpicP2PWrapper` each define a `CheckResult` with
identical bodies apart from logging; the model uses one definition,
`P2PWrapper.CheckResult`, for both.

## Model

| member | source | states |
|---|---|---|
| Packets.EncodeHeader | netcode.transport.epic/Runtime/EpicTransport.cs:48-60 | the header occupies exactly 4 bytes (one int-backed flags enum) |
| Packets.DecodeHeader | netcode.transport.epic/Runtime/EpicTransport.cs:67-75 | the header read from a datagram re-encodes to the datagram's first 4 bytes |
| Packets.DecodeEncodeHeader | netcode.transport.epic/Runtime/EpicTransport.cs:67-75 | decoding an encoded header gives the same flags back |
| Packets.ToBytes | netcode.transport.epic/Runtime/EpicTransport.cs:83-105 | the encoding is 4 + payload bytes long, and the payload follows the header verbatim |
| Packets.FromBytes | netcode.transport.epic/Runtime/EpicTransport.cs:67-81 | the decoded payload is as long as the datagram less the 4-byte header; that it is exactly those bytes follows from the round trip `ToBytesFromBytes` |
| Packets.ToBytesFromBytes | netcode.transport.epic/Runtime/EpicTransport.cs:67-105 | re-encoding a decoded datagram gives back exactly its bytes |
| Packets.FromBytesToBytes | netcode.transport.epic/Runtime/EpicTransport.cs:67-105 | decoding an encoded packet restores its header and payload |
| Packets.FlagsSurviveWire | netcode.transport.epic/Runtime/EpicTransport.cs:536-545 | the `Fragment` and `LastFragment` tests give the same answer after the wire as before |
| PacketInfo.EqualsIsValueEquality | netcode.transport.epic/Runtime/RecievedPacketInfo.cs:25-30 | two keys are equal exactly when socket name, user-id string and channel all agree |
| PacketInfo.EqualsIsEquivalence | netcode.transport.epic/Runtime/RecievedPacketInfo.cs:25-30 | key equality is reflexive, symmetric and transitive, as a dictionary key needs |
| PacketInfo.OperatorsAgreeWithEquals | netcode.transport.epic/Runtime/RecievedPacketInfo.cs:16-45 | `==`, `!=` and `Equals(object)` agree with `Equals`, and no other kind of object is equal to a key |
| PacketInfo.DistinctStreams | netcode.transport.epic/Runtime/RecievedPacketInfo.cs:25-30 | two keys that differ only in channel, or only in remote user, are different keys |
| P2PWrapper.CheckResult | netcode.transport.epic/Runtime/EpicP2PWrapper.cs:119-135 | success passes and a completed failure fails; an incomplete result passes exactly when completion is not required |
| P2PWrapper.CheckResultStrict | netcode.transport.epic/Runtime/EpicP2PWrapper.cs:119-135 | with completion required, only `Success` passes (the transport's own copy at EpicTransport.cs:727-743 has the same body) |
| P2PWrapper.AssertSuccess | netcode.transport.epic/Runtime/EpicP2PWrapper.cs:137-147 | returns normally exactly on success; otherwise raises `EpicP2PException`, marked failed or incomplete |
| P2PWrapper.SendPacket | netcode.transport.epic/Runtime/EpicP2PWrapper.cs:36-40 | sending returns normally exactly on success and otherwise raises an `EpicP2PException` |
| P2PWrapper.TryRequestOrAcceptConnection | netcode.transport.epic/Runtime/EpicP2PWrapper.cs:19-23 | reports success exactly when the SDK returned `Success` |
| P2PWrapper.TryCloseConnection | netcode.transport.epic/Runtime/EpicP2PWrapper.cs:102-106 | reports success exactly when the SDK returned `Success` |
| P2PWrapper.TryReceivePacket | netcode.transport.epic/Runtime/EpicP2PWrapper.cs:74-79 | `NotFound` means no more packets and skips the result check; a packet is received exactly on `Success` |
| P2PWrapper.TryGetNextReceivedPacketSize | netcode.transport.epic/Runtime/EpicP2PWrapper.cs:56-71 | asks with no channel set (`RequestedChannel = default`, the SDK's null channel option), whatever channel was requested; succeeds exactly on `Success` and then reports the SDK's size |
| P2PWrapper.SizeQueryIgnoresChannel | netcode.transport.epic/Runtime/EpicP2PWrapper.cs:63-71 | the answer is the same for every requested channel |
| Fragmenting.GetPacketReliability | netcode.transport.epic/Runtime/EpicTransport.cs:713-725 | `UnreliableSequenced` throws NotImplemented and an undefined tier throws ArgumentOutOfRange; every other tier maps to a reliability that is guaranteed and ordered exactly when the tier is |
| Fragmenting.SlicePacket | netcode.transport.epic/Runtime/EpicTransport.cs:439-454 | the slice at offset `i` carries `payload[i..min(i+1166, n)]`, is flagged `Fragment`, and is flagged `LastFragment` exactly when it reaches the end |
| Fragmenting.FragmentFlags | netcode.transport.epic/Runtime/EpicTransport.cs:444-449 | `Fragment` is always set, and `LastFragment` exactly on the last slice |
| Fragmenting.SliceContents | netcode.transport.epic/Runtime/EpicTransport.cs:439-454 | slice `k` covers bytes `[k*1166, min((k+1)*1166, n))`, and there are just enough slices to cover the payload |
| Fragmenting.SliceFlags | netcode.transport.epic/Runtime/EpicTransport.cs:439-449 | every slice is a `Fragment`, and exactly the final one is a `LastFragment` |
| Fragmenting.SliceSizes | netcode.transport.epic/Runtime/EpicTransport.cs:433-441 | no slice is empty, and none exceeds 1166 bytes |
| Fragmenting.FragmentsConcatenate | netcode.transport.epic/Runtime/EpicTransport.cs:439-454 | the slices' payloads joined in order give back the payload |
| Fragmenting.FragmentedTierPolicy | netcode.transport.epic/Runtime/EpicTransport.cs:433-465 | the fragmented tier never fails and sends nothing only for an empty payload; its datagrams fit 1170 bytes and rejoin into the payload; a short payload is one packet flagged both `Fragment` and `LastFragment` |
| Fragmenting.SingleTierPolicy | netcode.transport.epic/Runtime/EpicTransport.cs:466-480 | any other tier sends exactly one unflagged packet holding the whole payload when it fits one datagram, and throws `ArgumentException` when it does not |
| Transport.SliceCount | netcode.transport.epic/Runtime/EpicTransport.cs:439 | the fragmented tier sends ceil(n / 1166) slices |
| Transport.Transmit | netcode.transport.epic/Runtime/EpicTransport.cs:455-462 | packets go to the SDK in order on channel 0; the first failed call raises `EpicP2PException` and no later packet is sent |
| Transport.Send | netcode.transport.epic/Runtime/EpicTransport.cs:428-481 | an unknown client id throws `KeyNotFound` before any SDK call; a tier or size error throws before any SDK call; otherwise the calls carry the resolved user, the transport socket, channel 0, the plan's reliability and the encoded packets in order, and the send completes exactly when every call succeeds |
| Transport.FragmentedSendOnWire | netcode.transport.epic/Runtime/EpicTransport.cs:433-465 | a completed fragmented send makes ceil(n/1166) calls, each datagram at most 1170 bytes, ordered and reliable on channel 0; decoding them gives a fragmented message whose payloads rejoin into the original |
| Reassembly.AbsorbSpec | netcode.transport.epic/Runtime/EpicTransport.cs:536-568 | a whole packet passes through and leaves the table alone; a fragment is appended to its key's list; a last fragment delivers the buffered fragments joined in order, followed by its own payload, and empties the list; no other key changes |
| Reassembly.CombineFragments | netcode.transport.epic/Runtime/EpicTransport.cs:553-561 | the copy loop produces exactly the fragments concatenated in order, empty fragments included |
| Receive.Arrival | netcode.transport.epic/Runtime/EpicTransport.cs:575-587 | the queued packet re-encodes to the received bytes |
| Receive.ArrivalDecodes | netcode.transport.epic/Runtime/EpicTransport.cs:575-587 | a datagram built by `ToBytes` is queued as that very packet |
| Receive.ReceiveLoop | netcode.transport.epic/Runtime/EpicTransport.cs:522-571 | the loop takes a prefix of the SDK queue, failed receives included, no longer than what is left of the 101-answer budget, and counts at most that many datagrams |
| Receive.GetNextPacket | netcode.transport.epic/Runtime/EpicTransport.cs:516-572 | one call takes at most 101 answers from the front of the SDK queue and leaves the rest in order; an empty queue, or a first receive that fails, returns false with the buffered fragments untouched and (for the failure) that one answer consumed |
| Receive.FailedReceiveKeepsFragments | netcode.transport.epic/Runtime/EpicTransport.cs:524-532 | a call that returns false (empty queue, failed receive or tripped guard) never discards buffered fragments: each key's list only grows |
| Receive.InnerStep | netcode.transport.epic/Runtime/EpicTransport.cs:536-549 | a fragment that does not end its message is buffered, and the loop reads the next datagram |
| Receive.LastStep | netcode.transport.epic/Runtime/EpicTransport.cs:550-562 | the fragment that ends its message is delivered with the buffered fragments in front of it, and the key's list is emptied |
| Receive.MessageDelivered | netcode.transport.epic/Runtime/EpicTransport.cs:522-571 | a fragmented message within the guard's budget is delivered by this call: buffered bytes then the message's payloads, one datagram per fragment, the key's list emptied and the rest of the queue untouched |
| Receive.GuardTrips | netcode.transport.epic/Runtime/EpicTransport.cs:522-528 | inner fragments that use up the guard's budget are all buffered in order, then the call returns false and leaves the rest of the queue |
| Receive.CallsNeededClosedForm | netcode.transport.epic/Runtime/EpicTransport.cs:522-528 | a message of `c` fragments needs ceil(c/101) calls, and the last call takes the remainder |
| Receive.PollsPending | netcode.transport.epic/Runtime/EpicTransport.cs:522-548 | a call that returns false after 101 datagrams, followed by calls that complete the message, completes it one call later |
| Receive.LongMessageFirstCall | netcode.transport.epic/Runtime/EpicTransport.cs:522-548 | on a message of more than 101 fragments the first call buffers 101 of them, returns false and leaves the rest queued |
| Receive.MessageInOneCall | netcode.transport.epic/Runtime/EpicTransport.cs:522-571 | a message of at most 101 fragments is delivered by the first call |
| Receive.MessageAcrossCalls | netcode.transport.epic/Runtime/EpicTransport.cs:522-571 | fragments persist across calls: every call before the last returns false after 101 datagrams, and the last delivers the buffered bytes followed by the whole message |
| Receive.LongMessageAcrossCalls | netcode.transport.epic/Runtime/EpicTransport.cs:522-571 | the same for messages of more than 101 fragments: one call that buffers, then the rest of the message |
| Registry.GetClientId | netcode.transport.epic/Runtime/EpicTransport.cs:697-704 | the host is client 0 and is not recorded; any other user gets its hash as client id and is recorded under it, overwriting that id, and other ids are untouched |
| Registry.GetUserId | netcode.transport.epic/Runtime/EpicTransport.cs:706-711 | client 0 is the host, possibly unset; any other id resolves exactly when recorded, and otherwise throws `KeyNotFound` |
| Registry.UserIdOfClientId | netcode.transport.epic/Runtime/EpicTransport.cs:697-711 | looking up the id just given to a user returns that user, for the host and for every user whose hash is not 0 |
| Registry.HashZeroAliasesHost | netcode.transport.epic/Runtime/EpicTransport.cs:697-711 | a non-host user whose hash is 0 gets the host's id, which resolves to the host instead |
| Registry.HashCollisionOverwrites | netcode.transport.epic/Runtime/EpicTransport.cs:701-702 | two users with equal hashes share a client id, and the id resolves to the later one |
| Registry.GetClientIdKeepsHostFree | netcode.transport.epic/Runtime/EpicTransport.cs:697-704 | recording users whose hash is not 0 never records anything under id 0 |
| Registry.DisconnectRemoteClient | netcode.transport.epic/Runtime/EpicTransport.cs:606-616 | an unknown id throws before anything changes; otherwise exactly that id is removed, whether or not the SDK closed the connection |
| Registry.DisconnectedIdUnknown | netcode.transport.epic/Runtime/EpicTransport.cs:606-616 | a disconnected remote id no longer resolves |
| Registry.DisconnectLocalClient | netcode.transport.epic/Runtime/EpicTransport.cs:595-604 | removes only id 0, the host's |
| Registry.DisconnectLocalClientNoOp | netcode.transport.epic/Runtime/EpicTransport.cs:595-604 | on a registry where nothing is recorded under id 0 it changes nothing |
| Events.OnPeerConnectionEstablished | netcode.transport.epic/Runtime/EpicTransport.cs:673-679 | a new connection is queued at the back, with the callback's time; a reconnection changes nothing |
| Events.OnPeerConnectionClosed | netcode.transport.epic/Runtime/EpicTransport.cs:686-691 | every close is queued at the back, with the callback's time |
| Events.OnPeerConnectionInterrupted | netcode.transport.epic/Runtime/EpicTransport.cs:681-684 | an interruption queues nothing |
| Events.OnPeerConnectionRequest | netcode.transport.epic/Runtime/EpicTransport.cs:654-671 | a request queues nothing, whatever the SDK answers to the accept |
| Events.EstablishedRecords | netcode.transport.epic/Runtime/EpicTransport.cs:673-679 | only new connections produce established records |
| Events.CallbacksAppendRecords | netcode.transport.epic/Runtime/EpicTransport.cs:654-691 | over any run of callbacks each queue grows by exactly its records, in callback order |
| Events.QuietCallbacks | netcode.transport.epic/Runtime/EpicTransport.cs:654-684 | requests and interruptions leave both queues unchanged |
| Transport.PollEvent | netcode.transport.epic/Runtime/EpicTransport.cs:483-514 | reports a queued connection first, then a queued disconnection, each with its callback time and the reported user's client id; only with both queues empty does it receive data, stamped with the current time; otherwise `Nothing` with default outputs |
| Transport.PolledClientResolves | netcode.transport.epic/Runtime/EpicTransport.cs:483-514 | the client id reported resolves back to the event's user, unless that user's hash is 0 |
| Transport.PollEventsTail | netcode.transport.epic/Runtime/EpicTransport.cs:483-514 | each later poll continues from the state and queue the first one left |
| Transport.DisconnectionsInOrder | netcode.transport.epic/Runtime/EpicTransport.cs:494-501 | with no connection queued, disconnections are reported one per call in callback order, without touching the receive side |
| Transport.ConnectsInOrder | netcode.transport.epic/Runtime/EpicTransport.cs:485-492 | queued connections are reported first, in callback order |
| Transport.DisconnectsAfterConnects | netcode.transport.epic/Runtime/EpicTransport.cs:485-501 | disconnections follow the connections, in callback order |
| Transport.QueuesDrained | netcode.transport.epic/Runtime/EpicTransport.cs:485-501 | after every queued event is reported, both queues are empty |
| Transport.ConnectionEventsFirst | netcode.transport.epic/Runtime/EpicTransport.cs:483-514 | all connections, then all disconnections, are reported in order before any data is received, and then the queues are empty |
| Transport.Shutdown | netcode.transport.epic/Runtime/EpicTransport.cs:618-648 | stops and clears every notification id, but keeps the event queues, the client registry and the reassembly table |
| Transport.StaleEventSurvivesShutdown | netcode.transport.epic/Runtime/EpicTransport.cs:618-648 | a connection queued before `Shutdown` is still the first event reported after it |
| SocketIds.HexValue | netcode.transport.epic/Runtime/EpicTransport.cs:783 | each hex digit of the `X8` alphabet has a value below 16 that names it |
| SocketIds.ParseHexDigits | netcode.transport.epic/Runtime/EpicTransport.cs:783 | reading back zero-padded hex digits gives the value |
| SocketIds.Hex8 | netcode.transport.epic/Runtime/EpicTransport.cs:783 | the `X8` format is exactly eight upper-case hex digits |
| SocketIds.Hex8RoundTrip | netcode.transport.epic/Runtime/EpicTransport.cs:783 | eight digits hold every `uint`, so the value can be read back |
| SocketIds.Hex8Injective | netcode.transport.epic/Runtime/EpicTransport.cs:783 | distinct instance ids print differently |
| SocketIds.GetSocketId | netcode.transport.epic/Runtime/EpicTransport.cs:779-785 | the name is the category, a dot, eight hex digits, a dot and the suffix |
| SocketIds.ParseGetSocketId | netcode.transport.epic/Runtime/EpicTransport.cs:779-785 | from a category without dots, the name gives back the category, the instance id as `uint`, and the suffix |
| SocketIds.FirstDot | netcode.transport.epic/Runtime/EpicTransport.cs:783 | finds the first dot, or reports that there is none |
| Lifecycle.SetIfNotRunning | netcode.transport.epic/Runtime/EpicTransport.cs:133-174 | a setter succeeds exactly when the transport is stopped; it then assigns its property and nothing else, and otherwise changes nothing |
| Lifecycle.FrozenWhileRunning | netcode.transport.epic/Runtime/EpicTransport.cs:155-164 | while running, no sequence of assignments changes the transport |
| Lifecycle.LastAssignmentWins | netcode.transport.epic/Runtime/EpicTransport.cs:155-174 | while stopped, each assignment overrides the previous value and the transport stays stopped |
| Lifecycle.SetHost | netcode.transport.epic/Runtime/EpicTransport.cs:203-216 | throws `InvalidOperationException` exactly while running; otherwise it is the `HostUserId` setter |
| Lifecycle.SetLocalUser | netcode.transport.epic/Runtime/EpicTransport.cs:223-236 | throws `InvalidOperationException` exactly while running; otherwise it is the `LocalUserId` setter |
| Lifecycle.AcceptPeerConnectionRequestsOn | netcode.transport.epic/Runtime/EpicTransport.cs:350-370 | succeeds exactly when the id is valid, and records only a valid id |
| Lifecycle.EstablishPeerConnectionsOn | netcode.transport.epic/Runtime/EpicTransport.cs:372-425 | subscribes in order and stops at the first invalid id; ids granted before the failure stay recorded |
| Lifecycle.StartClient | netcode.transport.epic/Runtime/EpicTransport.cs:304-327 | refuses while running and throws without a host; otherwise names the socket after the host and starts exactly when the three subscriptions and the connection request succeed |
| Lifecycle.StartServer | netcode.transport.epic/Runtime/EpicTransport.cs:329-348 | refuses while running and throws without a local user; otherwise names the socket after the local user and starts exactly when all four subscriptions succeed; the id lists are the request subscription's, followed, if it succeeded, by those of the other three, so a partial failure keeps the ids already granted |
| Lifecycle.Shutdown | netcode.transport.epic/Runtime/EpicTransport.cs:618-648 | removes each recorded notification id exactly as often as it is recorded (the removed ids are a permutation of the four lists), clears the lists and stops, keeping the configuration and the socket |
| Lifecycle.NoRestart | netcode.transport.epic/Tests/Editor/EpicTransportTests.cs:85-111 | a running transport refuses to start again in either role and stays as it was |
| Lifecycle.NotBothServerAndClient | netcode.transport.epic/Tests/Editor/EpicTransportTests.cs:114-140 | after a successful start in one role, starting in the other role is refused |
| Lifecycle.RestartSucceedsAfterFailure | netcode.transport.epic/Tests/Editor/EpicTransportTests.cs:143-161 | a failed server start leaves the transport stopped, so a start with working subscriptions then succeeds, with the ids granted before the failure still recorded: the failed start leaves exactly the ids its subscriptions granted, and each of its lists is a prefix of the list after the restart |
| Lifecycle.ShutdownAfterStart | netcode.transport.epic/Runtime/EpicTransport.cs:618-648 | after any server start attempt, `Shutdown` removes every id recorded and leaves a transport that can start again |
| RoundTrip.Deliver | netcode.transport.epic/Runtime/EpicTransport.cs:575-587 | in-order delivery queues one successful receipt per sent datagram, and each decodes to that datagram's bytes |
| RoundTrip.DeliveredAsSent | netcode.transport.epic/Runtime/EpicTransport.cs:575-587 | a delivered datagram is queued as the packet whose encoding it is |
| RoundTrip.SentAsQueued | netcode.transport.epic/Runtime/EpicTransport.cs:428-465 | the datagrams of a completed fragmented send, delivered in order, queue a fragmented message whose payloads rejoin into the payload |
| RoundTrip.WholePacketDelivered | netcode.transport.epic/Runtime/EpicTransport.cs:564-571 | a packet without the `Fragment` flag is delivered by the call that receives it, with the table untouched |
| RoundTrip.QuietPolls | netcode.transport.epic/Runtime/EpicTransport.cs:483-514 | with no connection event queued, each `PollEvent` mirrors its `GetNextPacket` call |
| RoundTrip.MessagePolled | netcode.transport.epic/Runtime/EpicTransport.cs:483-572 | a fragmented message reaches `PollEvent` as `Nothing` until the last needed poll, which reports the buffered bytes followed by the message |
| RoundTrip.FragmentedRoundTrip | netcode.transport.epic/Runtime/EpicTransport.cs:428-572 | a completed fragmented send, delivered in order to an idle peer, comes out of the peer's polls as exactly the payload, with the key's list emptied and the rest of the queue left |
| RoundTrip.UnfragmentedRoundTrip | netcode.transport.epic/Runtime/EpicTransport.cs:428-572 | a completed send on any other tier is one datagram, which the peer's next poll reports as the payload with the current time |

## Left out

- Payload and buffer lengths are unbounded. The source's 32-bit index arithmetic in `Send` (`int i`, `i += splitSize`, `Math.Min(i + splitSize, …)`) and the checked `Sum` of fragment lengths in `GetNextPacket` are assumed not to overflow, so payloads near `int.MaxValue` bytes are not modelled.
- On the .NET Core runtime `string.GetHashCode` is randomised per process, which would give client and server different socket names. The model assumes Unity's deterministic hash, shared by both sides.

- `Initialize` is not modelled. It finds the platform interface and the local user through Unity component lookup, and applies the relay setting to the SDK handle. The relay setting is modelled only as a stored property.
- `PlatformInterface` and its setter are not modelled: the SDK handle has no behaviour in this model.
- Logging (`Log`, `LogWarning`, `LogError`, `LogDeveloper`) is not modelled: it writes only to the Unity console.
- `GetCurrentRtt` is not modelled: it always returns 0 and touches no state.
- The SDK's own behaviour is not modelled. Result codes, notification ids and received datagrams are inputs, and `IsOperationComplete` is a parameter.
- The result of `CloseConnections` in `Shutdown` is not modelled because it is only logged; the `error` flag there has no effect.
- The results of `TryCloseConnection` in the disconnect calls are not modelled because they are only logged.
- `Utf8StringExtensions.GetHashCodeUInt64` and `string.GetHashCode` are parameters, not SHA-256 or the .NET string hash.
- `ProductUserId.FromString` is not modelled: an id string is taken to be a valid id.
- The property getters' lazy parsing of the serialized id string (`GetOrCreateProductUserId`) is not modelled.
- `Timestamped<T>` stores a `float` engine time. The model uses an exact `real`; the transport only copies it.
- A received datagram shorter than the 4-byte header makes `Packet.FromBytes` throw in the source. That exception is not modelled: the model's datagrams (`Receive.Datagram`) always hold a header, as every datagram a peer transport sends does.
- The fixed receive buffer of 1170 bytes (`tempRecievePacketBytes`) is not modelled: the SDK never hands over more than that.
- `RecievedPacketInfo.GetHashCode` is not modelled. Its only role is as a dictionary hash, and the model's map uses key equality directly.
- Concurrency is not modelled. The SDK runs the connection callbacks between the transport's calls, so the callbacks between two polls are modelled as a sequence (`Events.OnCallbacks`).
