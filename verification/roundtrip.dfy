/**
 * Sender and receiver together: the datagrams one transport's `Send` hands
 * to the SDK, delivered intact and in order to a peer, come out of the
 * peer's `PollEvent` as the original payload.
 */
module RoundTrip {
  import opened Common
  import opened Eos
  import opened Packets
  import opened PacketInfo
  import opened Fragmenting
  import opened Reassembly
  import opened Receive
  import opened Registry
  import opened Events
  import opened Transport

  /** Every SDK call carries at least a packet header. */
  predicate Framed(calls: seq<SendCall>)
  {
    forall k :: 0 <= k < |calls| ==> |calls[k].data| >= HeaderSize
  }

  /**
   * The peer's receive queue when the network delivers every sent datagram
   * intact and in order, all from the reassembly key `key`.
   */
  function Deliver(key: ReceivedPacketInfo, calls: seq<SendCall>): (inbox: seq<ReceiveAttempt>)
    requires Framed(calls)
    ensures |inbox| == |calls|
    ensures forall k :: 0 <= k < |calls| ==> ToBytes(inbox[k].packet) == calls[k].data
    ensures forall k :: 0 <= k < |calls| ==> inbox[k].result == Success && inbox[k].info == key
  {
    if |calls| == 0 then [] else [Arrival(Success, key, calls[0].data)] + Deliver(key, calls[1..])
  }

  /** A datagram without the `Fragment` flag is delivered by the call that receives it. */
  lemma WholePacketDelivered(t: Table, key: ReceivedPacketInfo, p: Packet, inbox: seq<ReceiveAttempt>,
                             isComplete: CompletionOracle)
    requires |inbox| > 0 && inbox[0] == ReceiveAttempt(Success, key, p) && !p.IsFragment()
    ensures GetNextPacket(t, inbox, isComplete) == NextPacket(Some(Delivered(key.remoteUserId, p.payload)), t, inbox[1..], 1)
  {
    AbsorbSpec(t, key, p);
  }

  /**
   * One `PollEvent` call with no connection event queued mirrors the
   * `GetNextPacket` call it makes: data exactly when a message is delivered,
   * the same payload, table and remaining queue.
   */
  predicate Mirrors(r: Polled, p: NextPacket)
  {
    && r.state.events == NoEvents
    && r.state.fragments == p.table && r.rest == p.rest
    && (r.event.Data? || r.event.Nothing?)
    && (r.event.Data? <==> p.delivered.Some?)
    && (r.event.Data? ==> r.payload == p.delivered.value.payload)
  }

  /** With no connection event queued, one `PollEvent` is its `GetNextPacket` call. */
  lemma QuietPoll(tr: TransportState, inbox: seq<ReceiveAttempt>, hash: UserHash,
                  isComplete: CompletionOracle, now: Timestamp)
    requires tr.events == NoEvents
    ensures Mirrors(PollEvent(tr, inbox, hash, isComplete, now), GetNextPacket(tr.fragments, inbox, isComplete))
  {
  }

  /** Two runs of calls of the same length, mirroring each other call by call. */
  predicate AllMirror(rs: seq<Polled>, ps: seq<NextPacket>)
  {
    |rs| == |ps| && forall k :: 0 <= k < |rs| ==> Mirrors(rs[k], ps[k])
  }

  /** Mirroring pairwise survives putting one mirrored pair in front. */
  lemma MirrorsCons(r: Polled, g: NextPacket, rs: seq<Polled>, ps: seq<NextPacket>)
    requires Mirrors(r, g) && AllMirror(rs, ps)
    ensures AllMirror([r] + rs, [g] + ps)
  {
    forall k | 0 <= k < |rs| + 1
      ensures Mirrors(([r] + rs)[k], ([g] + ps)[k])
    {
      if k > 0 {
        assert ([r] + rs)[k] == rs[k - 1] && ([g] + ps)[k] == ps[k - 1];
      }
    }
  }

  /** With no connection event queued, `PollEvent` is `GetNextPacket`, call after call. */
  lemma {:induction false} QuietPolls(tr: TransportState, inbox: seq<ReceiveAttempt>, hash: UserHash,
                                      isComplete: CompletionOracle, now: Timestamp, n: nat)
    requires tr.events == NoEvents
    ensures AllMirror(PollEvents(tr, inbox, hash, isComplete, now, n), Polls(tr.fragments, inbox, isComplete, n))
    decreases n
  {
    if n > 0 {
      var r := PollEvent(tr, inbox, hash, isComplete, now);
      var g := GetNextPacket(tr.fragments, inbox, isComplete);
      QuietPoll(tr, inbox, hash, isComplete, now);
      assert r.state.events == NoEvents && r.state.fragments == g.table && r.rest == g.rest;
      QuietPolls(r.state, r.rest, hash, isComplete, now, n - 1);
      MirrorsCons(r, g, PollEvents(r.state, r.rest, hash, isComplete, now, n - 1),
                  Polls(g.table, g.rest, isComplete, n - 1));
    }
  }

  /**
   * Of `m` successive polls, all report nothing but the last, which reports
   * data carrying `payload` and leaves `rest` in the receive queue.
   */
  predicate DataOnLastPoll(rs: seq<Polled>, m: nat, payload: seq<byte>, rest: seq<ReceiveAttempt>)
  {
    && 0 < m == |rs|
    && (forall k :: 0 <= k < m - 1 ==> rs[k].event == Nothing)
    && rs[m - 1].event == Data
    && rs[m - 1].payload == payload
    && rs[m - 1].rest == rest
  }

  /**
   * A fragmented message at the head of the queue of a peer with no
   * connection event queued: the first `CallsNeeded` polls report nothing
   * but the last, which reports the buffered bytes and the message.
   */
  lemma MessagePolled(tr: TransportState, key: ReceivedPacketInfo, ps: seq<Packet>, inbox: seq<ReceiveAttempt>,
                      hash: UserHash, isComplete: CompletionOracle, now: Timestamp)
    requires tr.events == NoEvents
    requires FragmentedMessage(ps) && Queued(inbox, key, ps)
    ensures var m := CallsNeeded(|ps|);
      var rs := PollEvents(tr, inbox, hash, isComplete, now, m);
      && DataOnLastPoll(rs, m, Concat(Buffered(tr.fragments, key)) + Concat(Payloads(ps)), inbox[|ps|..])
      && rs[m - 1].state.fragments == tr.fragments[key := []]
  {
    var m := CallsNeeded(|ps|);
    MessageAcrossCalls(tr.fragments, key, ps, inbox, isComplete);
    QuietPolls(tr, inbox, hash, isComplete, now, m);
    var rs := PollEvents(tr, inbox, hash, isComplete, now, m);
    var polls := Polls(tr.fragments, inbox, isComplete, m);
    assert AllMirror(rs, polls);
    assert Mirrors(rs[m - 1], polls[m - 1]);
    forall k | 0 <= k < m - 1
      ensures rs[k].event == Nothing
    {
      assert Mirrors(rs[k], polls[k]) && polls[k].delivered == None;
    }
  }

  /**
   * A fragmented send that completes, delivered to a peer with nothing
   * queued and nothing buffered under the key: the peer's first
   * `CallsNeeded` polls report nothing but the last, which reports the whole
   * payload, empties the key's list and leaves what followed in the queue.
   */
  lemma FragmentedRoundTrip(sender: TransportState, clientId: U64, payload: seq<byte>,
                            results: SendResults, isComplete: CompletionOracle,
                            receiver: TransportState, key: ReceivedPacketInfo, later: seq<ReceiveAttempt>,
                            hash: UserHash, now: Timestamp)
    requires |payload| > 0
    requires Send(sender, clientId, payload, ReliableFragmentedSequenced, results, isComplete).raised.None?
    requires receiver.events == NoEvents && Buffered(receiver.fragments, key) == []
    ensures var calls := Send(sender, clientId, payload, ReliableFragmentedSequenced, results, isComplete).calls;
      && |calls| > 0
      && var m := CallsNeeded(|calls|);
      var rs := PollEvents(receiver, Deliver(key, calls) + later, hash, isComplete, now, m);
      && DataOnLastPoll(rs, m, payload, later)
      && Buffered(rs[m - 1].state.fragments, key) == []
  {
    var calls := Send(sender, clientId, payload, ReliableFragmentedSequenced, results, isComplete).calls;
    var ps := SendPlan(payload, ReliableFragmentedSequenced).value.packets;
    var inbox := Deliver(key, calls) + later;
    SentAsQueued(sender, clientId, payload, results, isComplete, key, later);
    MessagePolled(receiver, key, ps, inbox, hash, isComplete, now);
    assert Concat(Buffered(receiver.fragments, key)) + Concat(Payloads(ps)) == payload by {
      assert Concat<byte>([]) == [];
    }
    var m := CallsNeeded(|ps|);
    var rs := PollEvents(receiver, inbox, hash, isComplete, now, m);
    assert DataOnLastPoll(rs, m, payload, later);
    assert rs[m - 1].state.fragments == receiver.fragments[key := []];
  }

  /**
   * The datagrams of a completed fragmented send, delivered in order, queue
   * the fragmented message whose payloads join into what was sent.
   */
  lemma SentAsQueued(sender: TransportState, clientId: U64, payload: seq<byte>,
                     results: SendResults, isComplete: CompletionOracle,
                     key: ReceivedPacketInfo, later: seq<ReceiveAttempt>)
    requires |payload| > 0
    requires Send(sender, clientId, payload, ReliableFragmentedSequenced, results, isComplete).raised.None?
    ensures var calls := Send(sender, clientId, payload, ReliableFragmentedSequenced, results, isComplete).calls;
      var ps := SendPlan(payload, ReliableFragmentedSequenced).value.packets;
      var inbox := Deliver(key, calls) + later;
      && |calls| == |ps|
      && FragmentedMessage(ps)
      && Concat(Payloads(ps)) == payload
      && Queued(inbox, key, ps)
      && inbox[|ps|..] == later
  {
    var calls := Send(sender, clientId, payload, ReliableFragmentedSequenced, results, isComplete).calls;
    FragmentedSendOnWire(sender, clientId, payload, results, isComplete);
    var ps := SendPlan(payload, ReliableFragmentedSequenced).value.packets;
    var inbox := Deliver(key, calls) + later;
    forall k | 0 <= k < |ps|
      ensures inbox[k] == ReceiveAttempt(Success, key, ps[k])
    {
      DeliveredAsSent(key, calls, k, ps[k]);
    }
    assert inbox[|ps|..] == later;
  }

  /** A delivered datagram is queued as the packet whose encoding it is. */
  lemma DeliveredAsSent(key: ReceivedPacketInfo, calls: seq<SendCall>, k: nat, p: Packet)
    requires Framed(calls) && k < |calls| && calls[k].data == ToBytes(p)
    ensures Deliver(key, calls)[k] == ReceiveAttempt(Success, key, p)
  {
    var a := Deliver(key, calls)[k];
    FromBytesToBytes(p);
    FromBytesToBytes(a.packet);
  }

  /**
   * A send on any other tier that completes, delivered to a peer with
   * nothing queued, is reported by the peer's next poll as the payload,
   * with the reassembly table untouched.
   */
  lemma UnfragmentedRoundTrip(sender: TransportState, clientId: U64, payload: seq<byte>, delivery: NetworkDelivery,
                              results: SendResults, isComplete: CompletionOracle,
                              receiver: TransportState, key: ReceivedPacketInfo, later: seq<ReceiveAttempt>,
                              hash: UserHash, now: Timestamp)
    requires delivery != ReliableFragmentedSequenced
    requires Send(sender, clientId, payload, delivery, results, isComplete).raised.None?
    requires receiver.events == NoEvents
    ensures var calls := Send(sender, clientId, payload, delivery, results, isComplete).calls;
      var r := PollEvent(receiver, Deliver(key, calls) + later, hash, isComplete, now);
      && |calls| == 1
      && r.event == Data && r.payload == payload && r.receiveTime == now
      && r.rest == later && r.state.fragments == receiver.fragments
  {
    var calls := Send(sender, clientId, payload, delivery, results, isComplete).calls;
    var p := Packet(PacketHeader(FlagNone), payload);
    assert |calls| == 1 && calls[0].data == ToBytes(p);
    var inbox := Deliver(key, calls) + later;
    FromBytesToBytes(p);
    assert inbox[0] == ReceiveAttempt(Success, key, p);
    WholePacketDelivered(receiver.fragments, key, p, inbox, isComplete);
    assert inbox[1..] == later;
  }
}
