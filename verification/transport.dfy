/**
 * The transport as Netcode drives it: its whole state, `Send` (split policy
 * plus one SDK call per datagram), `PollEvent` (queued connection events
 * first, then received data) and `Shutdown`.
 */
module Transport {
  import opened Common
  import opened Eos
  import opened P2PWrapper
  import opened Packets
  import opened PacketInfo
  import opened Fragmenting
  import opened Reassembly
  import opened Receive
  import opened Registry
  import opened Events
  import opened SocketIds
  import opened Lifecycle

  /** Everything one `EpicTransport` instance keeps between calls. */
  datatype TransportState = TransportState(
    life: LifecycleState,
    events: EventQueues,
    connections: Connections,
    fragments: Table)

  /** A newly created transport. */
  const Fresh := TransportState(Initial, NoEvents, map[], map[])

  /** `OutboundChannel`: every datagram is sent on channel 0. */
  const OutboundChannel: byte := 0

  /** One `SendPacket` call made to the SDK. */
  datatype SendCall = SendCall(
    remoteUserId: Option<UserId>,
    socket: Option<SocketId>,
    data: seq<byte>,
    channel: byte,
    reliability: PacketReliability)

  /** The SDK's answer to the `i`-th `SendPacket` call of one `Send`. */
  type SendResults = nat -> EosResult

  /** The SDK calls a `Send` made, and the exception it ended with, if any. */
  datatype SendOutcome = SendOutcome(calls: seq<SendCall>, raised: Option<Exception>)

  /**
   * Hands `packets` to the SDK one by one, starting with call number `from`.
   * Each call's answer goes through `AssertSuccess`, so the first failing
   * call raises and the packets after it are never sent.
   */
  function Transmit(remote: Option<UserId>, socket: Option<SocketId>, packets: seq<Packet>, rel: PacketReliability,
                    results: SendResults, isComplete: CompletionOracle, from: nat): (r: SendOutcome)
    decreases |packets|
    ensures |r.calls| <= |packets|
    ensures forall k :: 0 <= k < |r.calls| ==>
      r.calls[k] == SendCall(remote, socket, ToBytes(packets[k]), OutboundChannel, rel)
    ensures forall i :: from <= i < from + |r.calls| - 1 ==> results(i) == Success
    ensures r.raised.None? <==> |r.calls| == |packets| && forall i :: from <= i < from + |packets| ==> results(i) == Success
    ensures r.raised.Some? ==>
      && |r.calls| > 0
      && results(from + |r.calls| - 1) != Success
      && r.raised.value == EpicP2P(!isComplete(results(from + |r.calls| - 1)))
  {
    if |packets| == 0 then SendOutcome([], None)
    else
      var call := SendCall(remote, socket, ToBytes(packets[0]), OutboundChannel, rel);
      match SendPacket(results(from), isComplete)
      case Some(e) => SendOutcome([call], Some(e))
      case None =>
        var r := Transmit(remote, socket, packets[1..], rel, results, isComplete, from + 1);
        assert forall k :: 1 <= k < |packets| ==> packets[1..][k - 1] == packets[k];
        SendOutcome([call] + r.calls, r.raised)
  }

  /**
   * `Send`: resolves the client id (an unknown id throws before anything is
   * sent), applies the split policy (which may throw before anything is
   * sent), then transmits the packets to that user on the transport socket.
   */
  function Send(tr: TransportState, clientId: U64, payload: seq<byte>, delivery: NetworkDelivery,
                results: SendResults, isComplete: CompletionOracle): (r: SendOutcome)
    ensures GetUserId(tr.life.hostUserId, tr.connections, clientId).Threw? ==> r == SendOutcome([], Some(KeyNotFound))
    ensures GetUserId(tr.life.hostUserId, tr.connections, clientId).Ok? && SendPlan(payload, delivery).Threw? ==>
      r == SendOutcome([], Some(SendPlan(payload, delivery).error))
    ensures GetUserId(tr.life.hostUserId, tr.connections, clientId).Ok? && SendPlan(payload, delivery).Ok? ==>
      var plan := SendPlan(payload, delivery).value;
      && |r.calls| <= |plan.packets|
      && (forall k :: 0 <= k < |r.calls| ==>
            && r.calls[k].remoteUserId == GetUserId(tr.life.hostUserId, tr.connections, clientId).value
            && r.calls[k].socket == tr.life.transportSocket
            && r.calls[k].data == ToBytes(plan.packets[k])
            && r.calls[k].channel == OutboundChannel
            && r.calls[k].reliability == plan.reliability)
      && (r.raised.None? <==> |r.calls| == |plan.packets| && forall i :: 0 <= i < |plan.packets| ==> results(i) == Success)
    ensures r.raised.Some? && |r.calls| > 0 ==> r.raised.value.EpicP2P?
    ensures forall k :: 0 <= k < |r.calls| ==> |r.calls[k].data| >= HeaderSize
  {
    match GetUserId(tr.life.hostUserId, tr.connections, clientId)
    case Threw(e) => SendOutcome([], Some(e))
    case Ok(remote) =>
      match SendPlan(payload, delivery)
      case Threw(e) => SendOutcome([], Some(e))
      case Ok(plan) => Transmit(remote, tr.life.transportSocket, plan.packets, plan.reliability, results, isComplete, 0)
  }

  /**
   * A fragmented send that completes makes one SDK call per slice, each
   * datagram fitting the SDK's 1170-byte limit and travelling ordered and
   * reliable on channel 0; decoding the datagrams gives back a fragmented
   * message whose payloads join into the original payload.
   */
  lemma FragmentedSendOnWire(tr: TransportState, clientId: U64, payload: seq<byte>,
                             results: SendResults, isComplete: CompletionOracle)
    requires |payload| > 0
    requires Send(tr, clientId, payload, ReliableFragmentedSequenced, results, isComplete).raised.None?
    ensures var calls := Send(tr, clientId, payload, ReliableFragmentedSequenced, results, isComplete).calls;
      && |calls| == (|payload| - 1) / SplitSize + 1
      && (forall k :: 0 <= k < |calls| ==>
            && |calls[k].data| <= MaxPacketSize
            && calls[k].channel == OutboundChannel
            && calls[k].reliability == ReliableOrdered)
      && var ps := SendPlan(payload, ReliableFragmentedSequenced).value.packets;
      && (forall k :: 0 <= k < |calls| ==> FromBytes(calls[k].data) == ps[k])
      && FragmentedMessage(ps)
      && Concat(Payloads(ps)) == payload
  {
    FragmentedTierPolicy(payload);
    var ps := SendPlan(payload, ReliableFragmentedSequenced).value.packets;
    SliceSizes(payload, 0);
    SliceCount(payload, 0);
    forall k | 0 <= k < |ps|
      ensures FromBytes(ToBytes(ps[k])) == ps[k]
    {
      FromBytesToBytes(ps[k]);
    }
  }

  /** The fragmented tier cuts a payload into ceil(|payload| / 1166) slices. */
  lemma {:induction false} SliceCount(payload: seq<byte>, i: nat)
    requires i < |payload|
    ensures |FragmentPackets(payload, i)| == (|payload| - i - 1) / SplitSize + 1
    decreases |payload| - i
  {
    if i + SplitSize < |payload| {
      SliceCount(payload, i + SplitSize);
    }
  }

  /** The events `PollEvent` reports. */
  datatype NetworkEvent = Connect | Disconnect | Data | Nothing

  /** One `PollEvent` call: its outputs, the state after it, and the SDK answers not consumed. */
  datatype Polled = Polled(
    event: NetworkEvent,
    clientId: U64,
    payload: seq<byte>,
    receiveTime: Timestamp,
    state: TransportState,
    rest: seq<ReceiveAttempt>)

  /**
   * `PollEvent`: a queued established connection is reported first, then a
   * queued disconnection, each with the time its callback ran; only when
   * both queues are empty is the SDK asked for data, stamped with `now`.
   * Reporting a user records its client id. `hash` is the user-id hash.
   */
  function PollEvent(tr: TransportState, inbox: seq<ReceiveAttempt>, hash: UserHash,
                     isComplete: CompletionOracle, now: Timestamp): (r: Polled)
    ensures r.event == Connect <==> |tr.events.established| > 0
    ensures r.event == Disconnect <==> |tr.events.established| == 0 && |tr.events.disconnections| > 0
    ensures r.event.Connect? ==>
      var e := tr.events.established[0];
      && r.receiveTime == e.timestamp && r.payload == []
      && GetClientId(tr.life.hostUserId, tr.connections, hash, e.value.remoteUserId) == ClientIdResult(r.clientId, r.state.connections)
      && r.state.events == tr.events.(established := tr.events.established[1..])
    ensures r.event.Disconnect? ==>
      var e := tr.events.disconnections[0];
      && r.receiveTime == e.timestamp && r.payload == []
      && GetClientId(tr.life.hostUserId, tr.connections, hash, e.value.remoteUserId) == ClientIdResult(r.clientId, r.state.connections)
      && r.state.events == tr.events.(disconnections := tr.events.disconnections[1..])
    ensures r.event.Connect? || r.event.Disconnect? ==> r.rest == inbox && r.state.fragments == tr.fragments
    ensures r.event.Data? || r.event.Nothing? ==>
      var n := GetNextPacket(tr.fragments, inbox, isComplete);
      && r.state.events == tr.events
      && r.state.fragments == n.table && r.rest == n.rest
      && (r.event.Data? <==> n.delivered.Some?)
      && (r.event.Data? ==>
            && r.payload == n.delivered.value.payload && r.receiveTime == now
            && GetClientId(tr.life.hostUserId, tr.connections, hash, n.delivered.value.remoteUserId)
                 == ClientIdResult(r.clientId, r.state.connections))
      && (r.event.Nothing? ==>
            r.clientId == 0 && r.payload == [] && r.receiveTime == 0.0 && r.state.connections == tr.connections)
    ensures r.state.life == tr.life
  {
    var host := tr.life.hostUserId;
    if |tr.events.established| > 0 then
      var e := tr.events.established[0];
      var c := GetClientId(host, tr.connections, hash, e.value.remoteUserId);
      Polled(Connect, c.clientId, [], e.timestamp,
             tr.(events := tr.events.(established := tr.events.established[1..]), connections := c.connections), inbox)
    else if |tr.events.disconnections| > 0 then
      var e := tr.events.disconnections[0];
      var c := GetClientId(host, tr.connections, hash, e.value.remoteUserId);
      Polled(Disconnect, c.clientId, [], e.timestamp,
             tr.(events := tr.events.(disconnections := tr.events.disconnections[1..]), connections := c.connections), inbox)
    else
      var n := GetNextPacket(tr.fragments, inbox, isComplete);
      match n.delivered
      case Some(d) =>
        var c := GetClientId(host, tr.connections, hash, d.remoteUserId);
        Polled(Data, c.clientId, d.payload, now, tr.(connections := c.connections, fragments := n.table), n.rest)
      case None =>
        Polled(Nothing, 0, [], 0.0, tr.(fragments := n.table), n.rest)
  }

  /**
   * The client id `PollEvent` reports resolves back to the user the event
   * came from, unless that user's hash collides with the host's id 0.
   */
  lemma PolledClientResolves(tr: TransportState, inbox: seq<ReceiveAttempt>, hash: UserHash,
                             isComplete: CompletionOracle, now: Timestamp, user: UserId)
    requires var r := PollEvent(tr, inbox, hash, isComplete, now);
      || (r.event.Connect? && user == tr.events.established[0].value.remoteUserId)
      || (r.event.Disconnect? && user == tr.events.disconnections[0].value.remoteUserId)
      || (r.event.Data? && user == GetNextPacket(tr.fragments, inbox, isComplete).delivered.value.remoteUserId)
    requires tr.life.hostUserId == Some(user) || hash(user) != ServerClientId
    ensures var r := PollEvent(tr, inbox, hash, isComplete, now);
      GetUserId(tr.life.hostUserId, r.state.connections, r.clientId) == Ok(Some(user))
  {
    UserIdOfClientId(tr.life.hostUserId, tr.connections, hash, user);
  }

  /** `n` consecutive `PollEvent` calls, all at time `now`. */
  function PollEvents(tr: TransportState, inbox: seq<ReceiveAttempt>, hash: UserHash,
                      isComplete: CompletionOracle, now: Timestamp, n: nat): (rs: seq<Polled>)
    decreases n
    ensures |rs| == n
  {
    if n == 0 then []
    else
      var r := PollEvent(tr, inbox, hash, isComplete, now);
      [r] + PollEvents(r.state, r.rest, hash, isComplete, now, n - 1)
  }

  /** Every call after the first continues from the state and queue the first one left. */
  lemma PollEventsTail(tr: TransportState, inbox: seq<ReceiveAttempt>, hash: UserHash,
                       isComplete: CompletionOracle, now: Timestamp, n: nat)
    requires n > 0
    ensures var r := PollEvent(tr, inbox, hash, isComplete, now);
      var rs := PollEvents(tr, inbox, hash, isComplete, now, n);
      var later := PollEvents(r.state, r.rest, hash, isComplete, now, n - 1);
      rs[0] == r && forall k :: 1 <= k < n ==> rs[k] == later[k - 1]
  {
  }

  /** A poll that reported a queued event and left the receive side alone. */
  predicate ReportedQueued(r: Polled, event: NetworkEvent, time: Timestamp, inbox: seq<ReceiveAttempt>, fragments: Table)
  {
    r.event == event && r.receiveTime == time && r.rest == inbox && r.state.fragments == fragments
  }

  /**
   * With no established connection queued, the queued disconnections are
   * reported one per call in the order their callbacks ran, without touching
   * the SDK's receive queue or the reassembly table.
   */
  lemma {:induction false} DisconnectionsInOrder(tr: TransportState, inbox: seq<ReceiveAttempt>, hash: UserHash,
                                                 isComplete: CompletionOracle, now: Timestamp)
    requires |tr.events.established| == 0
    ensures var ds := tr.events.disconnections;
      var rs := PollEvents(tr, inbox, hash, isComplete, now, |ds|);
      forall k :: 0 <= k < |ds| ==> ReportedQueued(rs[k], Disconnect, ds[k].timestamp, inbox, tr.fragments)
    ensures var n := |tr.events.disconnections|;
      n > 0 ==> PollEvents(tr, inbox, hash, isComplete, now, n)[n - 1].state.events == NoEvents
    decreases |tr.events.disconnections|
  {
    var ds := tr.events.disconnections;
    var n := |ds|;
    if n > 0 {
      var r := PollEvent(tr, inbox, hash, isComplete, now);
      DisconnectionsInOrder(r.state, inbox, hash, isComplete, now);
      PollEventsTail(tr, inbox, hash, isComplete, now, n);
      var rs := PollEvents(tr, inbox, hash, isComplete, now, n);
      var later := PollEvents(r.state, inbox, hash, isComplete, now, n - 1);
      forall k | 0 <= k < n
        ensures ReportedQueued(rs[k], Disconnect, ds[k].timestamp, inbox, tr.fragments)
      {
        if k > 0 {
          assert rs[k] == later[k - 1];
          assert r.state.events.disconnections[k - 1] == ds[k];
        }
      }
    }
  }

  /** The queued established connections are reported first, in callback order. */
  lemma {:induction false} ConnectsInOrder(tr: TransportState, inbox: seq<ReceiveAttempt>, hash: UserHash,
                                           isComplete: CompletionOracle, now: Timestamp, n: nat)
    requires |tr.events.established| <= n
    ensures var es := tr.events.established;
      var rs := PollEvents(tr, inbox, hash, isComplete, now, n);
      forall k :: 0 <= k < |es| ==> ReportedQueued(rs[k], Connect, es[k].timestamp, inbox, tr.fragments)
    decreases n
  {
    var es := tr.events.established;
    if |es| > 0 {
      var r := PollEvent(tr, inbox, hash, isComplete, now);
      ConnectsInOrder(r.state, inbox, hash, isComplete, now, n - 1);
      PollEventsTail(tr, inbox, hash, isComplete, now, n);
      var rs := PollEvents(tr, inbox, hash, isComplete, now, n);
      var later := PollEvents(r.state, inbox, hash, isComplete, now, n - 1);
      forall k | 0 <= k < |es|
        ensures ReportedQueued(rs[k], Connect, es[k].timestamp, inbox, tr.fragments)
      {
        if k > 0 {
          assert rs[k] == later[k - 1];
          assert r.state.events.established[k - 1] == es[k];
        }
      }
    }
  }

  /** A poll with an established connection queued reports it and touches nothing else. */
  lemma ConnectPoll(tr: TransportState, inbox: seq<ReceiveAttempt>, hash: UserHash,
                    isComplete: CompletionOracle, now: Timestamp)
    requires |tr.events.established| > 0
    ensures var r := PollEvent(tr, inbox, hash, isComplete, now);
      && r.rest == inbox && r.state.fragments == tr.fragments
      && r.state.events.established == tr.events.established[1..]
      && r.state.events.disconnections == tr.events.disconnections
  {
  }

  /**
   * From call `e` on, the calls `rs` report the disconnections `ds` one by
   * one, in order, leaving the receive queue and the reassembly table alone.
   */
  predicate DisconnectsFrom(rs: seq<Polled>, e: nat, ds: seq<Timestamped<ClosedInfo>>,
                            inbox: seq<ReceiveAttempt>, fragments: Table)
  {
    && e + |ds| <= |rs|
    && forall k :: e <= k < e + |ds| ==> ReportedQueued(rs[k], Disconnect, ds[k - e].timestamp, inbox, fragments)
  }

  /** Calls `rs` that continue as `later` after one call report from `e` what `later` reports from `e - 1`. */
  lemma DisconnectsShift(rs: seq<Polled>, later: seq<Polled>, e: nat, ds: seq<Timestamped<ClosedInfo>>,
                         inbox: seq<ReceiveAttempt>, fragments: Table)
    requires e > 0 && |rs| == |later| + 1
    requires forall k :: 1 <= k < |rs| ==> rs[k] == later[k - 1]
    requires DisconnectsFrom(later, e - 1, ds, inbox, fragments)
    ensures DisconnectsFrom(rs, e, ds, inbox, fragments)
  {
    forall k | e <= k < e + |ds|
      ensures ReportedQueued(rs[k], Disconnect, ds[k - e].timestamp, inbox, fragments)
    {
      assert rs[k] == later[k - 1];
    }
  }

  /** After the established connections, the queued disconnections follow in callback order. */
  lemma {:induction false} DisconnectsAfterConnects(tr: TransportState, inbox: seq<ReceiveAttempt>, hash: UserHash,
                                                    isComplete: CompletionOracle, now: Timestamp)
    ensures DisconnectsFrom(PollEvents(tr, inbox, hash, isComplete, now, |tr.events.established| + |tr.events.disconnections|),
                            |tr.events.established|, tr.events.disconnections, inbox, tr.fragments)
    decreases |tr.events.established|
  {
    var e := |tr.events.established|;
    var ds := tr.events.disconnections;
    var n := e + |ds|;
    var rs := PollEvents(tr, inbox, hash, isComplete, now, n);
    if e == 0 {
      DisconnectionsInOrder(tr, inbox, hash, isComplete, now);
      forall k | e <= k < n
        ensures ReportedQueued(rs[k], Disconnect, ds[k - e].timestamp, inbox, tr.fragments)
      {
      }
    } else {
      var r := PollEvent(tr, inbox, hash, isComplete, now);
      ConnectPoll(tr, inbox, hash, isComplete, now);
      DisconnectsAfterConnects(r.state, inbox, hash, isComplete, now);
      PollEventsTail(tr, inbox, hash, isComplete, now, n);
      DisconnectsShift(rs, PollEvents(r.state, inbox, hash, isComplete, now, n - 1), e, ds, inbox, tr.fragments);
    }
  }

  /** A poll with a connection event queued takes exactly one event and reads no datagram. */
  lemma EventPoll(tr: TransportState, inbox: seq<ReceiveAttempt>, hash: UserHash,
                  isComplete: CompletionOracle, now: Timestamp)
    requires |tr.events.established| + |tr.events.disconnections| > 0
    ensures var r := PollEvent(tr, inbox, hash, isComplete, now);
      && r.rest == inbox
      && |r.state.events.established| + |r.state.events.disconnections|
         == |tr.events.established| + |tr.events.disconnections| - 1
  {
  }

  /** Once every queued event has been reported, both queues are empty. */
  lemma {:induction false} QueuesDrained(tr: TransportState, inbox: seq<ReceiveAttempt>, hash: UserHash,
                                         isComplete: CompletionOracle, now: Timestamp)
    requires |tr.events.established| + |tr.events.disconnections| > 0
    ensures var n := |tr.events.established| + |tr.events.disconnections|;
      PollEvents(tr, inbox, hash, isComplete, now, n)[n - 1].state.events == NoEvents
    decreases |tr.events.established| + |tr.events.disconnections|
  {
    var n := |tr.events.established| + |tr.events.disconnections|;
    var r := PollEvent(tr, inbox, hash, isComplete, now);
    EventPoll(tr, inbox, hash, isComplete, now);
    PollEventsTail(tr, inbox, hash, isComplete, now, n);
    if n > 1 {
      QueuesDrained(r.state, inbox, hash, isComplete, now);
      assert PollEvents(tr, inbox, hash, isComplete, now, n)[n - 1]
          == PollEvents(r.state, inbox, hash, isComplete, now, n - 1)[n - 2];
    } else {
      assert r.state.events == NoEvents;
    }
  }

  /**
   * Queued established connections are all reported, in callback order,
   * before any disconnection; then the disconnections follow in order, after
   * which both queues are empty. No data is received while either queue
   * holds an event.
   */
  lemma ConnectionEventsFirst(tr: TransportState, inbox: seq<ReceiveAttempt>, hash: UserHash,
                              isComplete: CompletionOracle, now: Timestamp)
    ensures var es := tr.events.established;
      var ds := tr.events.disconnections;
      var rs := PollEvents(tr, inbox, hash, isComplete, now, |es| + |ds|);
      && (forall k :: 0 <= k < |es| ==> ReportedQueued(rs[k], Connect, es[k].timestamp, inbox, tr.fragments))
      && (forall k :: |es| <= k < |es| + |ds| ==>
            ReportedQueued(rs[k], Disconnect, ds[k - |es|].timestamp, inbox, tr.fragments))
      && (|es| + |ds| > 0 ==> rs[|es| + |ds| - 1].state.events == NoEvents)
  {
    ConnectsInOrder(tr, inbox, hash, isComplete, now, |tr.events.established| + |tr.events.disconnections|);
    DisconnectsAfterConnects(tr, inbox, hash, isComplete, now);
    assert DisconnectsFrom(PollEvents(tr, inbox, hash, isComplete, now, |tr.events.established| + |tr.events.disconnections|),
                           |tr.events.established|, tr.events.disconnections, inbox, tr.fragments);
    if |tr.events.established| + |tr.events.disconnections| > 0 {
      QueuesDrained(tr, inbox, hash, isComplete, now);
    }
  }

  /** Result of `Shutdown` on the whole transport. */
  datatype ShutdownOutcome = ShutdownOutcome(state: TransportState, removed: seq<U64>)

  /**
   * `Shutdown` stops the transport and removes its notifications, but keeps
   * the event queues, the client-id registry and the reassembly table: what
   * was queued before a stop is still reported after the next start.
   */
  function Shutdown(tr: TransportState): (r: ShutdownOutcome)
    ensures !r.state.life.running && r.state.life.ids == NoNotificationIds
    ensures r.state.events == tr.events && r.state.connections == tr.connections && r.state.fragments == tr.fragments
    ensures r.removed == Lifecycle.Shutdown(tr.life).removed
  {
    var stopped := Lifecycle.Shutdown(tr.life);
    ShutdownOutcome(tr.(life := stopped.state), stopped.removed)
  }

  /**
   * An established connection queued before `Shutdown` is the first event
   * reported after it, even though the SDK connection it came from is gone.
   */
  lemma StaleEventSurvivesShutdown(tr: TransportState, inbox: seq<ReceiveAttempt>, hash: UserHash,
                                   isComplete: CompletionOracle, now: Timestamp)
    requires |tr.events.established| > 0
    ensures var r := PollEvent(Shutdown(tr).state, inbox, hash, isComplete, now);
      r.event == Connect && r.receiveTime == tr.events.established[0].timestamp
  {
  }
}
