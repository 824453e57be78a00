/**
 * The synchronous adapter over the SDK's P2P interface (EpicP2PWrapper).
 * Each SDK call is represented by the result code it returned; the adapter
 * turns that code into a boolean, an exception, or "no packet".
 */
module P2PWrapper {
  import opened Common
  import opened Eos

  /**
   * Classifies an SDK result: success is always accepted, a completed
   * failure never is, and an incomplete operation is accepted exactly when
   * the caller does not insist on completion.
   */
  function CheckResult(result: EosResult, requireCompletion: bool, isComplete: CompletionOracle): (ok: bool)
    ensures result == Success ==> ok
    ensures result != Success && isComplete(result) ==> !ok
    ensures result != Success && !isComplete(result) ==> (ok <==> !requireCompletion)
  {
    if result != Success && isComplete(result) then false
    else if result != Success then !requireCompletion
    else true
  }

  /** With completion required, only success passes, whatever the oracle says. */
  lemma CheckResultStrict(result: EosResult, isComplete: CompletionOracle)
    ensures CheckResult(result, true, isComplete) <==> result == Success
  {
  }

  /**
   * Returns normally (None) on success and raises `EpicP2PException`
   * otherwise, distinguishing failed from incomplete operations.
   */
  function AssertSuccess(result: EosResult, isComplete: CompletionOracle): (raised: Option<Exception>)
    ensures raised.None? <==> result == Success
    ensures raised.Some? ==> raised.value == EpicP2P(!isComplete(result))
  {
    if result != Success && isComplete(result) then Some(EpicP2P(false))
    else if result != Success then Some(EpicP2P(true))
    else None
  }

  /**
   * Sending either succeeds or raises: its only outcome besides normal
   * return is an `EpicP2P` exception, never a failure flag.
   */
  function SendPacket(result: EosResult, isComplete: CompletionOracle): (raised: Option<Exception>)
    ensures raised.None? <==> result == Success
    ensures raised.Some? ==> raised.value.EpicP2P?
  {
    AssertSuccess(result, isComplete)
  }

  /** Accepting or requesting a connection succeeds only on `Success`. */
  function TryRequestOrAcceptConnection(result: EosResult, isComplete: CompletionOracle): (ok: bool)
    ensures ok <==> result == Success
  {
    CheckResult(result, true, isComplete)
  }

  /** Closing one connection succeeds only on `Success`. */
  function TryCloseConnection(result: EosResult, isComplete: CompletionOracle): (ok: bool)
    ensures ok <==> result == Success
  {
    CheckResult(result, true, isComplete)
  }

  /**
   * How a receive attempt ended: `NoMorePackets` is the NotFound shortcut
   * taken before any result checking; `Checked` carries CheckResult's verdict.
   */
  datatype ReceiveStatus = NoMorePackets | Checked(ok: bool) {
    predicate Received() { Checked? && ok }
  }

  /** Receiving a datagram: NotFound means "queue empty" and bypasses CheckResult. */
  function TryReceivePacket(result: EosResult, isComplete: CompletionOracle): (status: ReceiveStatus)
    ensures status == NoMorePackets <==> result == NotFound
    ensures status.Received() <==> result == Success
  {
    if result == NotFound then NoMorePackets
    else Checked(CheckResult(result, true, isComplete))
  }

  /**
   * The SDK's size query, as a function of its requested-channel option:
   * `None` asks about no particular channel, `Some(c)` about channel `c`.
   * It gives the result code and the size the SDK reports.
   */
  type SizeQuery = Option<byte> -> (EosResult, U32)

  /**
   * Size of the next queued datagram. The requested channel is not passed
   * on: the SDK is asked with its channel option left at its default, no
   * channel.
   */
  function TryGetNextReceivedPacketSize(requestedChannel: byte, query: SizeQuery, isComplete: CompletionOracle): (r: (bool, U32))
    ensures r.0 <==> query(None).0 == Success
    ensures r.0 ==> r.1 == query(None).1
  {
    var (result, size) := query(None);
    if result == NotFound then (false, size)
    else (CheckResult(result, true, isComplete), size)
  }

  /** The answer does not depend on which channel the caller asked about. */
  lemma SizeQueryIgnoresChannel(c1: byte, c2: byte, query: SizeQuery, isComplete: CompletionOracle)
    ensures TryGetNextReceivedPacketSize(c1, query, isComplete) == TryGetNextReceivedPacketSize(c2, query, isComplete)
  {
  }
}
