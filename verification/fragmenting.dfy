/**
 * The sender's split policy (the body of `Send` before transmission):
 * only the ReliableFragmentedSequenced tier cuts the payload into slices of
 * `SplitSize` bytes, each flagged `Fragment` and the last also
 * `LastFragment`; every other tier sends one unflagged packet.
 */
module Fragmenting {
  import opened Common
  import opened Eos
  import opened Packets

  /** An integer that is not one of the five declared `NetworkDelivery` values 0 to 4. */
  type UndeclaredDelivery = v: int | !(0 <= v <= 4) witness 5

  /** Netcode's `NetworkDelivery`; `Undefined` is any other value of the enum's integer type. */
  datatype NetworkDelivery =
    | Unreliable
    | UnreliableSequenced
    | Reliable
    | ReliableSequenced
    | ReliableFragmentedSequenced
    | Undefined(value: UndeclaredDelivery)

  predicate Guaranteed(r: PacketReliability) { r != UnreliableUnordered }
  predicate Ordered(r: PacketReliability) { r == ReliableOrdered }

  /**
   * `GetPacketReliability`: every defined tier except UnreliableSequenced gets
   * an SDK reliability with the same delivery and ordering guarantees.
   */
  function GetPacketReliability(delivery: NetworkDelivery): (r: Result<PacketReliability>)
    ensures r.Threw? <==> delivery.UnreliableSequenced? || delivery.Undefined?
    ensures delivery.UnreliableSequenced? ==> r == Threw(NotImplemented)
    ensures delivery.Undefined? ==> r == Threw(ArgumentOutOfRange)
    ensures r.Ok? ==> (Guaranteed(r.value) <==> delivery != Unreliable)
    ensures r.Ok? ==> (Ordered(r.value) <==> delivery in {ReliableSequenced, ReliableFragmentedSequenced})
  {
    match delivery
    case Unreliable => Ok(UnreliableUnordered)
    case UnreliableSequenced => Threw(NotImplemented)
    case Reliable => Ok(ReliableUnordered)
    case ReliableSequenced => Ok(ReliableOrdered)
    case ReliableFragmentedSequenced => Ok(ReliableOrdered)
    case Undefined(_) => Threw(ArgumentOutOfRange)
  }

  /** The payloads carried by a list of packets, in order. */
  function Payloads(ps: seq<Packet>): (bufs: seq<seq<byte>>)
    ensures |bufs| == |ps|
    ensures forall k :: 0 <= k < |ps| ==> bufs[k] == ps[k].payload
  {
    if |ps| == 0 then [] else [ps[0].payload] + Payloads(ps[1..])
  }

  lemma PayloadsCons(p: Packet, rest: seq<Packet>)
    ensures Payloads([p] + rest) == [p.payload] + Payloads(rest)
  {
    assert ([p] + rest)[1..] == rest;
  }

  lemma PayloadsAppend(a: seq<Packet>, b: seq<Packet>)
    ensures Payloads(a + b) == Payloads(a) + Payloads(b)
  {
  }

  /** Flags of one slice: always `Fragment`, plus `LastFragment` on the final one. */
  function FragmentFlags(last: bool): (flags: bv32)
    ensures HasFlag(flags, FlagFragment)
    ensures HasFlag(flags, FlagLastFragment) <==> last
  {
    if last then FlagFragment | FlagLastFragment else FlagFragment
  }

  /** The slice of the fragmented tier that starts at offset `i`. */
  function SlicePacket(payload: seq<byte>, i: nat): (p: Packet)
    requires i < |payload|
    ensures p.payload == payload[i .. Min(i + SplitSize, |payload|)]
    ensures p.IsFragment()
    ensures p.IsLastFragment() <==> i + SplitSize >= |payload|
  {
    var to := Min(i + SplitSize, |payload|);
    Packet(PacketHeader(FragmentFlags(to == |payload|)), payload[i..to])
  }

  /** The loop of the fragmented tier, from offset `i` on. */
  function FragmentPackets(payload: seq<byte>, i: nat): (ps: seq<Packet>)
    decreases |payload| - i
    ensures i >= |payload| <==> ps == []
  {
    if i >= |payload| then []
    else [SlicePacket(payload, i)] + FragmentPackets(payload, i + SplitSize)
  }

  /**
   * Packet `k` carries `payload[i + k*SplitSize .. min(i + (k+1)*SplitSize, n)]`,
   * and there are just enough packets to cover the payload.
   */
  lemma {:induction false} SliceContents(payload: seq<byte>, i: nat)
    ensures var ps := FragmentPackets(payload, i);
      && (ps == [] || (|ps| - 1) * SplitSize < |payload| - i <= |ps| * SplitSize)
      && forall k :: 0 <= k < |ps| ==>
           ps[k].payload == payload[i + k * SplitSize .. Min(i + (k + 1) * SplitSize, |payload|)]
    decreases |payload| - i
  {
    if i < |payload| {
      var ps := FragmentPackets(payload, i);
      var rest := FragmentPackets(payload, i + SplitSize);
      SliceContents(payload, i + SplitSize);
      assert ps == [SlicePacket(payload, i)] + rest;
      forall k | 1 <= k < |ps|
        ensures ps[k].payload == payload[i + k * SplitSize .. Min(i + (k + 1) * SplitSize, |payload|)]
      {
        assert ps[k] == rest[k - 1];
      }
    }
  }

  /** Every packet is flagged `Fragment`; exactly the final one is also flagged `LastFragment`. */
  lemma {:induction false} SliceFlags(payload: seq<byte>, i: nat)
    ensures forall k :: 0 <= k < |FragmentPackets(payload, i)| ==> FragmentPackets(payload, i)[k].IsFragment()
    ensures forall k :: 0 <= k < |FragmentPackets(payload, i)| ==>
      (FragmentPackets(payload, i)[k].IsLastFragment() <==> k == |FragmentPackets(payload, i)| - 1)
    decreases |payload| - i
  {
    if i < |payload| {
      var ps := FragmentPackets(payload, i);
      var rest := FragmentPackets(payload, i + SplitSize);
      SliceFlags(payload, i + SplitSize);
      assert ps == [SlicePacket(payload, i)] + rest;
      forall k | 1 <= k < |ps|
        ensures ps[k].IsFragment() && (ps[k].IsLastFragment() <==> k == |ps| - 1)
      {
        assert ps[k] == rest[k - 1];
        assert rest[k - 1].IsFragment() && (rest[k - 1].IsLastFragment() <==> k - 1 == |rest| - 1);
      }
    }
  }

  /** No slice is empty and none exceeds one datagram's payload capacity. */
  lemma {:induction false} SliceSizes(payload: seq<byte>, i: nat)
    ensures forall k :: 0 <= k < |FragmentPackets(payload, i)| ==> 0 < |FragmentPackets(payload, i)[k].payload| <= SplitSize
    decreases |payload| - i
  {
    if i < |payload| {
      var ps := FragmentPackets(payload, i);
      var rest := FragmentPackets(payload, i + SplitSize);
      SliceSizes(payload, i + SplitSize);
      assert ps == [SlicePacket(payload, i)] + rest;
      forall k | 1 <= k < |ps|
        ensures 0 < |ps[k].payload| <= SplitSize
      {
        assert ps[k] == rest[k - 1];
        assert 0 < |rest[k - 1].payload| <= SplitSize;
      }
    }
  }

  /** The slices of the fragmented tier lay end to end into the payload. */
  lemma {:induction false} FragmentsConcatenate(payload: seq<byte>, i: nat)
    requires i <= |payload|
    ensures Concat(Payloads(FragmentPackets(payload, i))) == payload[i..]
    decreases |payload| - i
  {
    if i < |payload| {
      var head := SlicePacket(payload, i);
      var rest := FragmentPackets(payload, i + SplitSize);
      assert FragmentPackets(payload, i) == [head] + rest;
      PayloadsCons(head, rest);
      ConcatCons(head.payload, Payloads(rest));
      if i + SplitSize <= |payload| {
        FragmentsConcatenate(payload, i + SplitSize);
        assert payload[i..] == head.payload + payload[i + SplitSize..];
      } else {
        assert rest == [];
        assert Payloads(rest) == [];
        assert Concat(Payloads(rest)) == [];
        assert head.payload == payload[i..];
      }
    }
  }

  /** The packets to transmit for one `Send`, and the SDK reliability they travel with. */
  datatype Plan = Plan(packets: seq<Packet>, reliability: PacketReliability)

  /**
   * The split policy of `Send`. A non-fragmented payload that does not fit the
   * 1170-byte send buffer makes the buffer slice throw before the reliability
   * is looked up.
   */
  function SendPlan(payload: seq<byte>, delivery: NetworkDelivery): (r: Result<Plan>)
  {
    if delivery == ReliableFragmentedSequenced then
      Ok(Plan(FragmentPackets(payload, 0), ReliableOrdered))
    else if HeaderSize + |payload| > MaxPacketSize then
      Threw(Argument)
    else
      match GetPacketReliability(delivery)
      case Threw(e) => Threw(e)
      case Ok(rel) => Ok(Plan([Packet(PacketHeader(FlagNone), payload)], rel))
  }

  /**
   * The fragmented tier never fails; it emits nothing for an empty payload
   * and otherwise slices whose wire form fits one datagram and which concatenate
   * back to the payload, flagged `Fragment` throughout and `LastFragment`
   * exactly at the end, even when there is only one slice.
   */
  lemma FragmentedTierPolicy(payload: seq<byte>)
    ensures SendPlan(payload, ReliableFragmentedSequenced).Ok?
    ensures var ps := SendPlan(payload, ReliableFragmentedSequenced).value.packets;
      && (|ps| == 0 <==> |payload| == 0)
      && Concat(Payloads(ps)) == payload
      && (forall k :: 0 <= k < |ps| ==> |ToBytes(ps[k])| <= MaxPacketSize)
      && (forall k :: 0 <= k < |ps| ==> ps[k].IsFragment())
      && (forall k :: 0 <= k < |ps| ==> (ps[k].IsLastFragment() <==> k == |ps| - 1))
      && (0 < |payload| <= SplitSize ==> |ps| == 1 && ps[0].IsFragment() && ps[0].IsLastFragment())
  {
    FragmentsConcatenate(payload, 0);
    SliceSizes(payload, 0);
    SliceFlags(payload, 0);
  }

  /**
   * Every other tier sends exactly one unflagged packet carrying the whole
   * payload when it fits; otherwise the send throws.
   */
  lemma SingleTierPolicy(payload: seq<byte>, delivery: NetworkDelivery)
    requires delivery != ReliableFragmentedSequenced
    ensures |payload| > SplitSize ==> SendPlan(payload, delivery) == Threw(Argument)
    ensures |payload| <= SplitSize && GetPacketReliability(delivery).Ok? ==>
      && SendPlan(payload, delivery).Ok?
      && |SendPlan(payload, delivery).value.packets| == 1
      && SendPlan(payload, delivery).value.packets[0].payload == payload
      && !SendPlan(payload, delivery).value.packets[0].IsFragment()
      && !SendPlan(payload, delivery).value.packets[0].IsLastFragment()
      && |ToBytes(SendPlan(payload, delivery).value.packets[0])| <= MaxPacketSize
  {
  }
}
