/**
 * Shared vocabulary of the EpicTransport model: bytes, the fixed-width
 * integers the transport exposes, an Option type, the exceptions the
 * transport can raise, and concatenation of byte buffers.
 */
module Common {

  /** One octet on the wire. */
  type byte = bv8

  /** C# `ulong`: client ids and notification ids. */
  type U64 = x: int | 0 <= x < 0x1_0000_0000_0000_0000

  /** C# `int`: the result of `string.GetHashCode`. */
  type I32 = x: int | -0x8000_0000 <= x < 0x8000_0000

  /** C# `uint`. */
  type U32 = x: int | 0 <= x < 0x1_0000_0000

  /** A product user id, identified by its canonical string form. */
  type UserId = string

  /** The engine clock reading carried by events; never inspected. */
  type Timestamp = real

  datatype Option<+T> = None | Some(value: T)

  /** A value, or the exception the source raises instead of returning one. */
  datatype Result<+T> = Ok(value: T) | Threw(error: Exception)

  function Min(a: int, b: int): int { if a < b then a else b }

  /** The exceptions the transport lets escape to its caller. */
  datatype Exception =
    | InvalidOperation      // starting a client without a host, SetHost/SetLocalUser while running
    | KeyNotFound           // looking up a client id that was never recorded
    | NotImplemented        // the UnreliableSequenced delivery tier
    | ArgumentOutOfRange    // a delivery value outside the enum
    | Argument              // a packet that does not fit the 1170-byte send buffer
    | NullReference         // starting a server without a local user id
    | EpicP2P(incomplete: bool)  // an SDK call that had to succeed did not

  /** C# `(uint)` applied to an `int`: two's complement reinterpretation. */
  function ToUnsigned(x: I32): (r: U32)
    ensures x >= 0 ==> r == x
    ensures x < 0 ==> r - x == 0x1_0000_0000
  {
    if x < 0 then x + 0x1_0000_0000 else x
  }

  /** The buffers of `ss` laid end to end, in order. */
  function Concat<T>(ss: seq<seq<T>>): seq<T>
  {
    if |ss| == 0 then [] else Concat(ss[..|ss| - 1]) + ss[|ss| - 1]
  }

  /** Total number of elements over all buffers. */
  function TotalLength<T>(ss: seq<seq<T>>): nat
  {
    if |ss| == 0 then 0 else TotalLength(ss[..|ss| - 1]) + |ss[|ss| - 1]|
  }

  lemma {:induction false} ConcatLength<T>(ss: seq<seq<T>>)
    ensures |Concat(ss)| == TotalLength(ss)
  {
    if |ss| > 0 {
      ConcatLength(ss[..|ss| - 1]);
    }
  }

  /** Concatenation distributes over appending lists of buffers. */
  lemma {:induction false} ConcatAppend<T>(a: seq<seq<T>>, b: seq<seq<T>>)
    ensures Concat(a + b) == Concat(a) + Concat(b)
    decreases |b|
  {
    if |b| == 0 {
      assert a + b == a;
    } else {
      var last := |b| - 1;
      assert (a + b)[..|a + b| - 1] == a + b[..last];
      ConcatAppend(a, b[..last]);
    }
  }

  lemma ConcatSingleton<T>(x: seq<T>)
    ensures Concat([x]) == x
  {
    assert [x][..0] == [];
  }

  /** Prepending one buffer prepends its elements. */
  lemma ConcatCons<T>(x: seq<T>, rest: seq<seq<T>>)
    ensures Concat([x] + rest) == x + Concat(rest)
  {
    ConcatAppend([x], rest);
    assert [x][..0] == [];
  }
}
