/**
 * Wire format of one datagram: a `PacketHeader` followed by the payload.
 * The header is a single int-backed `[Flags]` enum, so it occupies four
 * bytes, laid out little-endian by the marshaller.
 */
module Packets {
  import opened Common

  /** The SDK's maximum datagram size. */
  const MaxPacketSize: nat := 1170

  /** `sizeof(PacketHeader)`: one 32-bit enum field. */
  const HeaderSize: nat := 4

  /** Payload capacity of one datagram; the slice size of the fragmented tier. */
  const SplitSize: nat := MaxPacketSize - HeaderSize

  const FlagNone: bv32 := 0
  const FlagFragment: bv32 := 1
  const FlagLastFragment: bv32 := 2

  /** `Enum.HasFlag`: every bit of `flag` is set in `flags`. */
  predicate HasFlag(flags: bv32, flag: bv32)
  {
    flags & flag == flag
  }

  datatype PacketHeader = PacketHeader(flags: bv32)

  datatype Packet = Packet(header: PacketHeader, payload: seq<byte>)
  {
    predicate IsFragment() { HasFlag(header.flags, FlagFragment) }
    predicate IsLastFragment() { HasFlag(header.flags, FlagLastFragment) }
  }

  /** Little-endian layout of the header's flags field. */
  function EncodeHeader(h: PacketHeader): (bytes: seq<byte>)
    ensures |bytes| == HeaderSize
  {
    [ (h.flags & 0xFF) as byte,
      ((h.flags >> 8) & 0xFF) as byte,
      ((h.flags >> 16) & 0xFF) as byte,
      ((h.flags >> 24) & 0xFF) as byte ]
  }

  /** Reads the header from the first four bytes. */
  function DecodeHeader(bytes: seq<byte>): (h: PacketHeader)
    requires |bytes| >= HeaderSize
    ensures EncodeHeader(h) == bytes[..HeaderSize]
  {
    PacketHeader(
      (bytes[0] as bv32)
      | ((bytes[1] as bv32) << 8)
      | ((bytes[2] as bv32) << 16)
      | ((bytes[3] as bv32) << 24))
  }

  /** Decoding an encoded header gives the header back. */
  lemma DecodeEncodeHeader(h: PacketHeader)
    ensures DecodeHeader(EncodeHeader(h)) == h
  {
  }

  /** `Packet.ToBytes`: header bytes, then the payload verbatim. */
  function ToBytes(p: Packet): (bytes: seq<byte>)
    ensures |bytes| == HeaderSize + |p.payload|
    ensures bytes[HeaderSize..] == p.payload
  {
    EncodeHeader(p.header) + p.payload
  }

  /**
   * `Packet.FromBytes`. A datagram shorter than the header makes the source
   * throw, so callers must hand in at least `HeaderSize` bytes.
   */
  function FromBytes(bytes: seq<byte>): (p: Packet)
    requires |bytes| >= HeaderSize
    ensures |p.payload| == |bytes| - HeaderSize
  {
    Packet(DecodeHeader(bytes), bytes[HeaderSize..])
  }

  /** Nothing is lost in decoding: re-encoding a decoded datagram gives its bytes back. */
  lemma ToBytesFromBytes(bytes: seq<byte>)
    requires |bytes| >= HeaderSize
    ensures ToBytes(FromBytes(bytes)) == bytes
  {
    assert bytes == bytes[..HeaderSize] + bytes[HeaderSize..];
  }

  /** The codec round trip: decoding an encoded packet restores header and payload. */
  lemma FromBytesToBytes(p: Packet)
    ensures FromBytes(ToBytes(p)) == p
  {
    DecodeEncodeHeader(p.header);
  }

  /** The flags a sender sets survive the wire. */
  lemma FlagsSurviveWire(p: Packet)
    ensures FromBytes(ToBytes(p)).IsFragment() <==> p.IsFragment()
    ensures FromBytes(ToBytes(p)).IsLastFragment() <==> p.IsLastFragment()
  {
    FromBytesToBytes(p);
  }
}
