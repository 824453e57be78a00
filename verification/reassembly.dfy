/**
 * The reassembly table (`fragmentedPackets`): per reassembly key, the
 * payloads of the fragments received so far, in arrival order. A key is
 * created by its first fragment and never removed; completing a message
 * empties its list.
 */
module Reassembly {
  import opened Common
  import opened Packets
  import opened PacketInfo

  type Table = map<ReceivedPacketInfo, seq<seq<byte>>>

  /** The fragments buffered under `key`; a missing key buffers nothing. */
  function Buffered(t: Table, key: ReceivedPacketInfo): seq<seq<byte>>
  {
    if key in t then t[key] else []
  }

  /** The table after one datagram, and the message it completed, if any. */
  datatype Absorbed = Absorbed(table: Table, completed: Option<seq<byte>>)

  /**
   * One pass of `GetNextPacket`'s body over a decoded datagram from `key`:
   * a whole message is passed through, a fragment is appended to its key's
   * list, and a `LastFragment` joins the list into the completed message.
   */
  function Absorb(t: Table, key: ReceivedPacketInfo, p: Packet): Absorbed
  {
    if !p.IsFragment() then
      Absorbed(t, Some(p.payload))
    else
      var fragments := Buffered(t, key) + [p.payload];
      if !p.IsLastFragment() then
        Absorbed(t[key := fragments], None)
      else
        Absorbed(t[key := []], Some(Concat(fragments)))
  }

  /**
   * A packet without `Fragment` is a whole message and leaves the table
   * alone; a fragment is appended to its key's list; a `LastFragment`
   * completes the message with the in-order concatenation of that list and
   * empties it. No other key is touched.
   */
  lemma AbsorbSpec(t: Table, key: ReceivedPacketInfo, p: Packet)
    ensures Absorb(t, key, p).table - {key} == t - {key}
    ensures !p.IsFragment() ==> Absorb(t, key, p) == Absorbed(t, Some(p.payload))
    ensures p.IsFragment() ==> key in Absorb(t, key, p).table
    ensures p.IsFragment() && !p.IsLastFragment() ==>
      Absorb(t, key, p).completed == None && Absorb(t, key, p).table[key] == Buffered(t, key) + [p.payload]
    ensures p.IsFragment() && p.IsLastFragment() ==>
      Absorb(t, key, p).completed == Some(Concat(Buffered(t, key)) + p.payload) && Absorb(t, key, p).table[key] == []
  {
    if p.IsFragment() && p.IsLastFragment() {
      ConcatAppend(Buffered(t, key), [p.payload]);
      ConcatSingleton(p.payload);
    }
  }

  lemma {:induction false} TotalLengthAppend<T>(a: seq<seq<T>>, b: seq<seq<T>>)
    ensures TotalLength(a + b) == TotalLength(a) + TotalLength(b)
    decreases |b|
  {
    if |b| == 0 {
      assert a + b == a;
    } else {
      assert (a + b)[..|a + b| - 1] == a + b[..|b| - 1];
      TotalLengthAppend(a, b[..|b| - 1]);
    }
  }

  /**
   * The copy loop that joins a key's fragments into one buffer: it sums the
   * lengths, then copies fragment `index` to offset `i`, advancing `i` by that
   * fragment's length. Empty fragments are allowed and contribute nothing.
   */
  method CombineFragments(fragments: seq<seq<byte>>) returns (combined: seq<byte>)
    ensures combined == Concat(fragments)
  {
    var length := TotalLength(fragments);
    combined := seq(length, _ => 0 as byte);
    var index := 0;
    var i := 0;
    while i < length
      invariant 0 <= index <= |fragments|
      invariant i == TotalLength(fragments[..index])
      invariant i <= length
      invariant |combined| == length
      invariant combined[..i] == Concat(fragments[..index])
      decreases |fragments| - index
    {
      assert fragments[..|fragments|] == fragments;
      assert index < |fragments|;
      var f := fragments[index];
      TotalLengthAppend(fragments[..index + 1], fragments[index + 1..]);
      assert fragments[..index + 1] + fragments[index + 1..] == fragments;
      assert fragments[..index + 1][..index] == fragments[..index];
      combined := combined[..i] + f + combined[i + |f|..];
      i := i + |f|;
      index := index + 1;
    }
    TotalLengthAppend(fragments[..index], fragments[index..]);
    assert fragments[..index] + fragments[index..] == fragments;
    ConcatAppend(fragments[..index], fragments[index..]);
    ConcatLength(fragments[index..]);
    assert combined == combined[..i];
  }
}
