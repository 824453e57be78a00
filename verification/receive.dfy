/**
 * `GetNextPacket`: pulls datagrams from the SDK until one completes a
 * message, the queue runs dry, or the loop guard trips after 101 datagrams.
 * The SDK's receive queue is an input: the sequence of answers its
 * `ReceivePacket` gives to successive calls.
 */
module Receive {
  import opened Common
  import opened Eos
  import opened P2PWrapper
  import opened Packets
  import opened PacketInfo
  import opened Fragmenting
  import opened Reassembly

  /**
   * The bytes of a received datagram. Every datagram the peer transport sends
   * holds at least a header; a shorter one would make `Packet.FromBytes` throw.
   */
  type Datagram = s: seq<byte> | |s| >= HeaderSize witness [0, 0, 0, 0]

  /**
   * What one `TryRecieveNextPacket` call sees: the SDK's result code and, on
   * success, where the datagram came from and what `Packet.FromBytes` makes
   * of its bytes. Decoding is pure, so the queue holds datagrams already
   * decoded; `Arrival` builds an entry from raw bytes.
   */
  datatype ReceiveAttempt = ReceiveAttempt(result: EosResult, info: ReceivedPacketInfo, packet: Packet)

  /** The queue entry for a datagram whose SDK result is `result` and whose bytes are `bytes`. */
  function Arrival(result: EosResult, info: ReceivedPacketInfo, bytes: Datagram): (a: ReceiveAttempt)
    ensures ToBytes(a.packet) == bytes
  {
    ToBytesFromBytes(bytes);
    ReceiveAttempt(result, info, FromBytes(bytes))
  }

  /** The loop guard: `frag_loop++ > 100` aborts. */
  const FragLoopLimit: nat := 100

  /** A completed message and the user it came from. */
  datatype Delivered = Delivered(remoteUserId: UserId, payload: seq<byte>)

  /**
   * Outcome of one `GetNextPacket` call: the message (None for a false return),
   * the table afterwards, the SDK answers not yet consumed, and how many
   * datagrams were taken off the queue.
   */
  datatype NextPacket = NextPacket(delivered: Option<Delivered>, table: Table, rest: seq<ReceiveAttempt>, datagrams: nat)

  /**
   * `rest` is what is left of the SDK's queue `inbox` after at most `budget`
   * answers were taken from its front, failed receives included.
   */
  predicate TakesAtMost(inbox: seq<ReceiveAttempt>, rest: seq<ReceiveAttempt>, budget: nat)
  {
    |rest| <= |inbox| && rest == inbox[|inbox| - |rest|..] && |inbox| - |rest| <= budget
  }

  /**
   * The body of `GetNextPacket` from the label `RecievePacket` on, after
   * `fragLoop` datagrams have already been consumed in this call.
   */
  function ReceiveLoop(t: Table, inbox: seq<ReceiveAttempt>, isComplete: CompletionOracle, fragLoop: nat): (r: NextPacket)
    requires fragLoop <= FragLoopLimit + 1
    decreases |inbox|
    ensures fragLoop + r.datagrams <= FragLoopLimit + 1
    ensures TakesAtMost(inbox, r.rest, FragLoopLimit + 1 - fragLoop)
  {
    if fragLoop > FragLoopLimit then
      NextPacket(None, t, inbox, 0)
    else if |inbox| == 0 then
      NextPacket(None, t, [], 0)
    else if !TryReceivePacket(inbox[0].result, isComplete).Received() then
      NextPacket(None, t, inbox[1..], 0)
    else
      var a := Absorb(t, inbox[0].info, inbox[0].packet);
      match a.completed
      case Some(payload) =>
        NextPacket(Some(Delivered(inbox[0].info.remoteUserId, payload)), a.table, inbox[1..], 1)
      case None =>
        var r := ReceiveLoop(a.table, inbox[1..], isComplete, fragLoop + 1);
        r.(datagrams := r.datagrams + 1)
  }

  /** `GetNextPacket`: the loop with its guard counter at zero. */
  function GetNextPacket(t: Table, inbox: seq<ReceiveAttempt>, isComplete: CompletionOracle): (r: NextPacket)
    ensures r.datagrams <= FragLoopLimit + 1
    ensures TakesAtMost(inbox, r.rest, FragLoopLimit + 1)
    ensures |inbox| == 0 ==> r == NextPacket(None, t, [], 0)
    ensures |inbox| > 0 && inbox[0].result != Success ==> r == NextPacket(None, t, inbox[1..], 0)
  {
    ReceiveLoop(t, inbox, isComplete, 0)
  }

  /** `b` extends `a`: every buffered list of `a` is a prefix of the one in `b`. */
  ghost predicate KeepsBuffered(a: Table, b: Table)
  {
    forall key :: key in a ==> key in b && a[key] <= b[key]
  }

  /**
   * A call that returns no message (queue empty, receive failure or guard
   * tripped) never discards buffered fragments: each key's list only grows.
   */
  lemma {:induction false} FailedReceiveKeepsFragments(t: Table, inbox: seq<ReceiveAttempt>, isComplete: CompletionOracle, fragLoop: nat)
    requires fragLoop <= FragLoopLimit + 1
    ensures ReceiveLoop(t, inbox, isComplete, fragLoop).delivered.None? ==>
      KeepsBuffered(t, ReceiveLoop(t, inbox, isComplete, fragLoop).table)
    decreases |inbox|
  {
    if fragLoop <= FragLoopLimit && |inbox| > 0 && TryReceivePacket(inbox[0].result, isComplete).Received() {
      var a := Absorb(t, inbox[0].info, inbox[0].packet);
      AbsorbSpec(t, inbox[0].info, inbox[0].packet);
      if a.completed.None? {
        FailedReceiveKeepsFragments(a.table, inbox[1..], isComplete, fragLoop + 1);
        var key := inbox[0].info;
        forall k | k in t
          ensures k in a.table && t[k] <= a.table[k]
        {
          if k != key {
            assert k in t - {key};
          }
        }
      }
    }
  }

  /** The first `|ps|` entries of `inbox` are successful receipts from `key` of the packets `ps`, in order. */
  predicate Queued(inbox: seq<ReceiveAttempt>, key: ReceivedPacketInfo, ps: seq<Packet>)
  {
    && |ps| <= |inbox|
    && forall k :: 0 <= k < |ps| ==> inbox[k] == ReceiveAttempt(Success, key, ps[k])
  }

  /** A packet the peer encoded with `ToBytes` is queued as that very packet. */
  lemma ArrivalDecodes(key: ReceivedPacketInfo, p: Packet)
    ensures Arrival(Success, key, ToBytes(p)) == ReceiveAttempt(Success, key, p)
  {
    FromBytesToBytes(p);
  }

  /** The packets of one fragmented message: all flagged `Fragment`, only the final one `LastFragment`. */
  predicate FragmentedMessage(ps: seq<Packet>)
  {
    && |ps| > 0
    && (forall k :: 0 <= k < |ps| ==> ps[k].IsFragment())
    && (forall k :: 0 <= k < |ps| ==> (ps[k].IsLastFragment() <==> k == |ps| - 1))
  }

  /** Fragments that do not end a message. */
  predicate InnerFragments(ps: seq<Packet>)
  {
    forall k :: 0 <= k < |ps| ==> ps[k].IsFragment() && !ps[k].IsLastFragment()
  }

  /** Past the first queued packet, the rest of the queue holds the rest of the packets. */
  lemma QueuedTail(inbox: seq<ReceiveAttempt>, key: ReceivedPacketInfo, ps: seq<Packet>)
    requires Queued(inbox, key, ps) && |ps| > 0
    ensures Queued(inbox[1..], key, ps[1..])
    ensures inbox[1..][|ps| - 1..] == inbox[|ps|..]
  {
    forall k | 0 <= k < |ps| - 1
      ensures inbox[1..][k] == ReceiveAttempt(Success, key, ps[1..][k])
    {
      assert inbox[1..][k] == inbox[k + 1];
    }
  }

  /** One trip round the loop on a fragment that does not end its message: it is buffered and the loop goes on. */
  lemma InnerStep(t: Table, key: ReceivedPacketInfo, p: Packet, inbox: seq<ReceiveAttempt>,
                  isComplete: CompletionOracle, fragLoop: nat)
    requires fragLoop <= FragLoopLimit
    requires |inbox| > 0 && inbox[0] == ReceiveAttempt(Success, key, p)
    requires p.IsFragment() && !p.IsLastFragment()
    ensures ReceiveLoop(t, inbox, isComplete, fragLoop) ==
      var r := ReceiveLoop(t[key := Buffered(t, key) + [p.payload]], inbox[1..], isComplete, fragLoop + 1);
      r.(datagrams := r.datagrams + 1)
  {
    AbsorbSpec(t, key, p);
    assert Absorb(t, key, p) == Absorbed(t[key := Buffered(t, key) + [p.payload]], None);
  }

  /** One trip round the loop on the fragment that ends its message: the buffered fragments and it are delivered. */
  lemma LastStep(t: Table, key: ReceivedPacketInfo, p: Packet, inbox: seq<ReceiveAttempt>,
                 isComplete: CompletionOracle, fragLoop: nat)
    requires fragLoop <= FragLoopLimit
    requires |inbox| > 0 && inbox[0] == ReceiveAttempt(Success, key, p)
    requires p.IsFragment() && p.IsLastFragment()
    ensures ReceiveLoop(t, inbox, isComplete, fragLoop) ==
      NextPacket(Some(Delivered(key.remoteUserId, Concat(Buffered(t, key)) + p.payload)), t[key := []], inbox[1..], 1)
  {
    AbsorbSpec(t, key, p);
  }

  /** Appending `a` and then `b` to a key's list appends `a + b`. */
  lemma BufferTwice(t: Table, key: ReceivedPacketInfo, a: seq<seq<byte>>, b: seq<seq<byte>>)
    ensures var t' := t[key := Buffered(t, key) + a];
      t'[key := Buffered(t', key) + b] == t[key := Buffered(t, key) + (a + b)]
  {
    assert (Buffered(t, key) + a) + b == Buffered(t, key) + (a + b);
  }

  /**
   * Buffering the list `xs` under `key` and later delivering the key's list
   * followed by `more` delivers what the list held before, then the bytes of
   * `xs`, then `more`; either way the key's list ends up empty.
   */
  lemma BufferRunThenDeliver(t: Table, key: ReceivedPacketInfo, xs: seq<seq<byte>>, more: seq<byte>)
    ensures var t' := t[key := Buffered(t, key) + xs];
      && Concat(Buffered(t', key)) + more == Concat(Buffered(t, key)) + (Concat(xs) + more)
      && t'[key := []] == t[key := []]
  {
    ConcatAppend(Buffered(t, key), xs);
  }

  /** Dropping the first fragment of a message keeps the rest a message. */
  lemma MessageTail(ps: seq<Packet>)
    requires FragmentedMessage(ps) && |ps| > 1
    ensures FragmentedMessage(ps[1..])
    ensures ps[0].IsFragment() && !ps[0].IsLastFragment()
  {
    forall k | 0 <= k < |ps| - 1
      ensures ps[1..][k].IsFragment() && (ps[1..][k].IsLastFragment() <==> k == |ps| - 2)
    {
      assert ps[1..][k] == ps[k + 1];
    }
  }

  /** Dropping the first of some inner fragments leaves inner fragments. */
  lemma InnerTail(ps: seq<Packet>)
    requires InnerFragments(ps) && |ps| > 0
    ensures InnerFragments(ps[1..])
  {
    forall k | 0 <= k < |ps| - 1
      ensures ps[1..][k].IsFragment() && !ps[1..][k].IsLastFragment()
    {
      assert ps[1..][k] == ps[k + 1];
    }
  }

  /** The payloads of `ps`: the first one, then those of the rest. */
  lemma PayloadsHead(ps: seq<Packet>)
    requires |ps| > 0
    ensures Payloads(ps) == [ps[0].payload] + Payloads(ps[1..])
    ensures Concat(Payloads(ps)) == ps[0].payload + Concat(Payloads(ps[1..]))
  {
    ConcatCons(ps[0].payload, Payloads(ps[1..]));
  }

  /**
   * A whole fragmented message at the head of the queue that fits in what is
   * left of the guard's budget is delivered by this call: the bytes already
   * buffered under its key followed by the message's payloads in order. The
   * key's list is emptied, one datagram is consumed per fragment and the
   * queue behind the message is left alone.
   */
  lemma {:induction false} MessageDelivered(t: Table, key: ReceivedPacketInfo, ps: seq<Packet>,
                                            inbox: seq<ReceiveAttempt>, isComplete: CompletionOracle, fragLoop: nat)
    requires FragmentedMessage(ps) && Queued(inbox, key, ps)
    requires fragLoop + |ps| <= FragLoopLimit + 1
    ensures ReceiveLoop(t, inbox, isComplete, fragLoop) ==
      NextPacket(Some(Delivered(key.remoteUserId, Concat(Buffered(t, key)) + Concat(Payloads(ps)))),
                 t[key := []], inbox[|ps|..], |ps|)
    decreases |ps|
  {
    PayloadsHead(ps);
    if |ps| == 1 {
      LastStep(t, key, ps[0], inbox, isComplete, fragLoop);
      assert Payloads(ps[1..]) == [];
      assert Concat(Payloads(ps)) == ps[0].payload;
      assert inbox[1..] == inbox[|ps|..];
    } else {
      var t' := t[key := Buffered(t, key) + [ps[0].payload]];
      MessageTail(ps);
      QueuedTail(inbox, key, ps);
      InnerStep(t, key, ps[0], inbox, isComplete, fragLoop);
      MessageDelivered(t', key, ps[1..], inbox[1..], isComplete, fragLoop + 1);
      BufferRunThenDeliver(t, key, [ps[0].payload], Concat(Payloads(ps[1..])));
      ConcatSingleton(ps[0].payload);
      assert inbox[1..][|ps| - 1..] == inbox[|ps|..];
    }
  }

  /**
   * Inner fragments at the head of the queue that exactly exhaust the guard's
   * budget are consumed and buffered, in order, behind what the key already
   * held; the call then returns no message and leaves the rest of the queue
   * untouched.
   */
  lemma {:induction false} GuardTrips(t: Table, key: ReceivedPacketInfo, ps: seq<Packet>,
                                      inbox: seq<ReceiveAttempt>, isComplete: CompletionOracle, fragLoop: nat)
    requires InnerFragments(ps) && Queued(inbox, key, ps)
    requires 0 < |ps| && fragLoop + |ps| == FragLoopLimit + 1
    ensures ReceiveLoop(t, inbox, isComplete, fragLoop) ==
      NextPacket(None, t[key := Buffered(t, key) + Payloads(ps)], inbox[|ps|..], |ps|)
    decreases |ps|
  {
    var t' := t[key := Buffered(t, key) + [ps[0].payload]];
    PayloadsHead(ps);
    QueuedTail(inbox, key, ps);
    InnerStep(t, key, ps[0], inbox, isComplete, fragLoop);
    if |ps| == 1 {
      assert ReceiveLoop(t', inbox[1..], isComplete, fragLoop + 1) == NextPacket(None, t', inbox[1..], 0);
      assert Payloads(ps) == [ps[0].payload];
    } else {
      InnerTail(ps);
      GuardTrips(t', key, ps[1..], inbox[1..], isComplete, fragLoop + 1);
      BufferTwice(t, key, [ps[0].payload], Payloads(ps[1..]));
    }
  }

  /** `n` consecutive `GetNextPacket` calls, each starting from the table and queue the previous one left. */
  function Polls(t: Table, inbox: seq<ReceiveAttempt>, isComplete: CompletionOracle, n: nat): (rs: seq<NextPacket>)
    decreases n
    ensures |rs| == n
  {
    if n == 0 then []
    else
      var r := GetNextPacket(t, inbox, isComplete);
      [r] + Polls(r.table, r.rest, isComplete, n - 1)
  }

  /** How many calls a message of `count` fragments needs: each call takes at most 101 datagrams. */
  function CallsNeeded(count: nat): (calls: nat)
    requires count > 0
    decreases count
    ensures calls >= 1
  {
    if count <= FragLoopLimit + 1 then 1 else 1 + CallsNeeded(count - (FragLoopLimit + 1))
  }

  /** How many datagrams the last of those calls takes. */
  function LastCallDatagrams(count: nat): (last: nat)
    requires count > 0
    decreases count
    ensures 0 < last <= FragLoopLimit + 1
  {
    if count <= FragLoopLimit + 1 then count else LastCallDatagrams(count - (FragLoopLimit + 1))
  }

  /** In closed form: one call per 101 datagrams rounded up, the last taking what is left over. */
  lemma {:induction false} CallsNeededClosedForm(count: nat)
    requires count > 0
    ensures CallsNeeded(count) == (count - 1) / (FragLoopLimit + 1) + 1
    ensures LastCallDatagrams(count) == count - (CallsNeeded(count) - 1) * (FragLoopLimit + 1)
    decreases count
  {
    if count > FragLoopLimit + 1 {
      CallsNeededClosedForm(count - (FragLoopLimit + 1));
    }
  }

  /** Every call before the `m`-th returns no message after taking a full 101 datagrams. */
  predicate Pending(rs: seq<NextPacket>, m: nat)
    requires m <= |rs|
  {
    forall k :: 0 <= k < m ==> rs[k].delivered == None && rs[k].datagrams == FragLoopLimit + 1
  }

  /**
   * A first call that returns nothing after a full 101 datagrams, followed by
   * `n` calls of which all but the last are pending, makes `n + 1` calls of
   * which all but the last are pending, ending with the same call.
   */
  lemma PollsPending(t: Table, inbox: seq<ReceiveAttempt>, isComplete: CompletionOracle, n: nat,
                     t1: Table, rest: seq<ReceiveAttempt>, last: NextPacket)
    requires n > 0
    requires GetNextPacket(t, inbox, isComplete) == NextPacket(None, t1, rest, FragLoopLimit + 1)
    requires Pending(Polls(t1, rest, isComplete, n), n - 1)
    requires Polls(t1, rest, isComplete, n)[n - 1] == last
    ensures Pending(Polls(t, inbox, isComplete, n + 1), n)
    ensures Polls(t, inbox, isComplete, n + 1)[n] == last
  {
    var r := GetNextPacket(t, inbox, isComplete);
    var later := Polls(t1, rest, isComplete, n);
    var all := Polls(t, inbox, isComplete, n + 1);
    assert all == [r] + later;
    forall k | 0 < k <= n
      ensures all[k] == later[k - 1]
    {
    }
  }

  /**
   * The first call on a message of more than 101 fragments takes 101 of
   * them, buffers their payloads behind what the key held, returns no
   * message and leaves the remaining fragments queued.
   */
  lemma LongMessageFirstCall(t: Table, key: ReceivedPacketInfo, ps: seq<Packet>,
                             inbox: seq<ReceiveAttempt>, isComplete: CompletionOracle)
    requires FragmentedMessage(ps) && Queued(inbox, key, ps)
    requires |ps| > FragLoopLimit + 1
    ensures FragmentedMessage(ps[FragLoopLimit + 1..])
    ensures Queued(inbox[FragLoopLimit + 1..], key, ps[FragLoopLimit + 1..])
    ensures GetNextPacket(t, inbox, isComplete) ==
      NextPacket(None, t[key := Buffered(t, key) + Payloads(ps[..FragLoopLimit + 1])],
                 inbox[FragLoopLimit + 1..], FragLoopLimit + 1)
  {
    var a := ps[..FragLoopLimit + 1];
    var b := ps[FragLoopLimit + 1..];
    assert InnerFragments(a) && Queued(inbox, key, a) by {
      forall k | 0 <= k < |a|
        ensures a[k].IsFragment() && !a[k].IsLastFragment() && inbox[k] == ReceiveAttempt(Success, key, a[k])
      {
        assert a[k] == ps[k];
      }
    }
    assert FragmentedMessage(b) && Queued(inbox[FragLoopLimit + 1..], key, b) by {
      forall k | 0 <= k < |b|
        ensures && b[k].IsFragment() && (b[k].IsLastFragment() <==> k == |b| - 1)
                && inbox[FragLoopLimit + 1..][k] == ReceiveAttempt(Success, key, b[k])
      {
        assert b[k] == ps[k + FragLoopLimit + 1];
      }
    }
    GuardTrips(t, key, a, inbox, isComplete, 0);
  }

  /** A message of at most 101 fragments is delivered by the first call. */
  lemma MessageInOneCall(t: Table, key: ReceivedPacketInfo, ps: seq<Packet>,
                         inbox: seq<ReceiveAttempt>, isComplete: CompletionOracle)
    requires FragmentedMessage(ps) && Queued(inbox, key, ps)
    requires |ps| <= FragLoopLimit + 1
    ensures CallsNeeded(|ps|) == 1 && LastCallDatagrams(|ps|) == |ps|
    ensures Polls(t, inbox, isComplete, 1)[0] ==
      NextPacket(Some(Delivered(key.remoteUserId, Concat(Buffered(t, key)) + Concat(Payloads(ps)))), t[key := []],
                 inbox[|ps|..], |ps|)
  {
    MessageDelivered(t, key, ps, inbox, isComplete, 0);
    assert Polls(t, inbox, isComplete, 1) == [GetNextPacket(t, inbox, isComplete)];
  }

  /**
   * Fragments persist across calls: a fragmented message at the head of the
   * queue is absorbed 101 datagrams per call, every call before the last
   * returns no message, and the last one delivers the bytes already buffered
   * under the key followed by the whole message, empties the key's list and
   * leaves the queue behind the message untouched.
   */
  lemma {:induction false} MessageAcrossCalls(t: Table, key: ReceivedPacketInfo, ps: seq<Packet>,
                                              inbox: seq<ReceiveAttempt>, isComplete: CompletionOracle)
    requires FragmentedMessage(ps) && Queued(inbox, key, ps)
    ensures Pending(Polls(t, inbox, isComplete, CallsNeeded(|ps|)), CallsNeeded(|ps|) - 1)
    ensures Polls(t, inbox, isComplete, CallsNeeded(|ps|))[CallsNeeded(|ps|) - 1] ==
      NextPacket(Some(Delivered(key.remoteUserId, Concat(Buffered(t, key)) + Concat(Payloads(ps)))), t[key := []],
                 inbox[|ps|..], LastCallDatagrams(|ps|))
    decreases |ps|, 1
  {
    if |ps| <= FragLoopLimit + 1 {
      MessageInOneCall(t, key, ps, inbox, isComplete);
    } else {
      LongMessageAcrossCalls(t, key, ps, inbox, isComplete);
    }
  }

  /**
   * What the call that completes the rest of a long message delivers, once
   * the first 101 fragments are buffered, is what the whole message delivers.
   */
  lemma LongMessageLast(t: Table, key: ReceivedPacketInfo, ps: seq<Packet>, inbox: seq<ReceiveAttempt>)
    requires FragLoopLimit + 1 < |ps| <= |inbox|
    ensures var t1 := t[key := Buffered(t, key) + Payloads(ps[..FragLoopLimit + 1])];
      var b := ps[FragLoopLimit + 1..];
      NextPacket(Some(Delivered(key.remoteUserId, Concat(Buffered(t1, key)) + Concat(Payloads(b)))), t1[key := []],
                 inbox[FragLoopLimit + 1..][|b|..], LastCallDatagrams(|b|))
      == NextPacket(Some(Delivered(key.remoteUserId, Concat(Buffered(t, key)) + Concat(Payloads(ps)))), t[key := []],
                    inbox[|ps|..], LastCallDatagrams(|ps|))
  {
    var a := ps[..FragLoopLimit + 1];
    var b := ps[FragLoopLimit + 1..];
    assert Concat(Payloads(ps)) == Concat(Payloads(a)) + Concat(Payloads(b)) by {
      assert ps == a + b;
      PayloadsAppend(a, b);
      ConcatAppend(Payloads(a), Payloads(b));
    }
    BufferRunThenDeliver(t, key, Payloads(a), Concat(Payloads(b)));
    assert inbox[FragLoopLimit + 1..][|b|..] == inbox[|ps|..];
  }

  /** `MessageAcrossCalls` for a message of more than 101 fragments: one pending call, then the rest of the message. */
  lemma {:induction false} LongMessageAcrossCalls(t: Table, key: ReceivedPacketInfo, ps: seq<Packet>,
                                                  inbox: seq<ReceiveAttempt>, isComplete: CompletionOracle)
    requires FragmentedMessage(ps) && Queued(inbox, key, ps)
    requires |ps| > FragLoopLimit + 1
    ensures Pending(Polls(t, inbox, isComplete, CallsNeeded(|ps|)), CallsNeeded(|ps|) - 1)
    ensures Polls(t, inbox, isComplete, CallsNeeded(|ps|))[CallsNeeded(|ps|) - 1] ==
      NextPacket(Some(Delivered(key.remoteUserId, Concat(Buffered(t, key)) + Concat(Payloads(ps)))), t[key := []],
                 inbox[|ps|..], LastCallDatagrams(|ps|))
    decreases |ps|, 0
  {
    var b := ps[FragLoopLimit + 1..];
    var t1 := t[key := Buffered(t, key) + Payloads(ps[..FragLoopLimit + 1])];
    var rest := inbox[FragLoopLimit + 1..];
    assert |b| == |ps| - (FragLoopLimit + 1);
    assert CallsNeeded(|ps|) == CallsNeeded(|b|) + 1;
    LongMessageFirstCall(t, key, ps, inbox, isComplete);
    MessageAcrossCalls(t1, key, b, rest, isComplete);
    PollsPending(t, inbox, isComplete, CallsNeeded(|b|), t1, rest,
                 NextPacket(Some(Delivered(key.remoteUserId, Concat(Buffered(t1, key)) + Concat(Payloads(b)))), t1[key := []],
                            rest[|b|..], LastCallDatagrams(|b|)));
    LongMessageLast(t, key, ps, inbox);
  }
}
