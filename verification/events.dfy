/**
 * The connection-event queues the SDK callbacks fill and `PollEvent`
 * drains: established connections and closed connections, each a FIFO of
 * records stamped with the time the callback ran.
 */
module Events {
  import opened Common
  import opened Eos

  /** `Timestamped<T>`: a value and the engine time it was recorded at. */
  datatype Timestamped<T> = Timestamped(value: T, timestamp: Timestamp)

  datatype EventQueues = EventQueues(
    established: seq<Timestamped<EstablishedInfo>>,
    disconnections: seq<Timestamped<ClosedInfo>>)

  const NoEvents := EventQueues([], [])

  /**
   * `OnPeerConnectionEstablished`: a new connection is queued with the
   * callback's time; a reconnection of an already known peer is dropped.
   */
  function OnPeerConnectionEstablished(q: EventQueues, data: EstablishedInfo, now: Timestamp): (r: EventQueues)
    ensures r.disconnections == q.disconnections
    ensures data.connectionType == Reconnection ==> r == q
    ensures data.connectionType == NewConnection ==>
      |r.established| == |q.established| + 1
      && r.established[..|q.established|] == q.established
      && r.established[|q.established|] == Timestamped(data, now)
  {
    if data.connectionType == Reconnection then q
    else q.(established := q.established + [Timestamped(data, now)])
  }

  /** `OnPeerConnectionClosed`: every close is queued with the callback's time. */
  function OnPeerConnectionClosed(q: EventQueues, data: ClosedInfo, now: Timestamp): (r: EventQueues)
    ensures r.established == q.established
    ensures |r.disconnections| == |q.disconnections| + 1
    ensures r.disconnections[..|q.disconnections|] == q.disconnections
    ensures r.disconnections[|q.disconnections|] == Timestamped(data, now)
  {
    q.(disconnections := q.disconnections + [Timestamped(data, now)])
  }

  /** `OnPeerConnectionInterrupted` only logs. */
  function OnPeerConnectionInterrupted(q: EventQueues, data: InterruptedInfo): (r: EventQueues)
    ensures r == q
  {
    q
  }

  /**
   * `OnPeerConnectionRequest` accepts the connection through the SDK; the
   * SDK's answer is only logged, and nothing is queued either way.
   */
  function OnPeerConnectionRequest(q: EventQueues, data: ConnectionRequestInfo,
                                   acceptResult: EosResult, isComplete: CompletionOracle): (r: EventQueues)
    ensures r == q
  {
    q
  }

  /** One SDK callback, as delivered to the transport. */
  datatype Callback =
    | Request(request: ConnectionRequestInfo, acceptResult: EosResult)
    | Established(established: EstablishedInfo)
    | Interrupted(interrupted: InterruptedInfo)
    | Closed(closed: ClosedInfo)

  /** Dispatches one callback that ran at time `now`. */
  function OnCallback(q: EventQueues, c: Callback, now: Timestamp, isComplete: CompletionOracle): (r: EventQueues)
  {
    match c
    case Request(data, result) => OnPeerConnectionRequest(q, data, result, isComplete)
    case Established(data) => OnPeerConnectionEstablished(q, data, now)
    case Interrupted(data) => OnPeerConnectionInterrupted(q, data)
    case Closed(data) => OnPeerConnectionClosed(q, data, now)
  }

  /** A callback stamped with the engine time at which it ran. */
  datatype TimedCallback = TimedCallback(callback: Callback, time: Timestamp)

  /** The queues after a run of callbacks, applied in order. */
  function OnCallbacks(q: EventQueues, cs: seq<TimedCallback>, isComplete: CompletionOracle): (r: EventQueues)
    decreases |cs|
  {
    if |cs| == 0 then q
    else OnCallbacks(OnCallback(q, cs[0].callback, cs[0].time, isComplete), cs[1..], isComplete)
  }

  /** The established-connection records a run of callbacks produces, in order. */
  function EstablishedRecords(cs: seq<TimedCallback>): (rs: seq<Timestamped<EstablishedInfo>>)
    ensures forall k :: 0 <= k < |rs| ==> rs[k].value.connectionType == NewConnection
  {
    if |cs| == 0 then []
    else
      var rest := EstablishedRecords(cs[1..]);
      match cs[0].callback
      case Established(data) =>
        if data.connectionType == NewConnection then [Timestamped(data, cs[0].time)] + rest else rest
      case _ => rest
  }

  /** The closed-connection records a run of callbacks produces, in order. */
  function ClosedRecords(cs: seq<TimedCallback>): (rs: seq<Timestamped<ClosedInfo>>)
    ensures forall k :: 0 <= k < |rs| ==>
      exists j :: 0 <= j < |cs| && cs[j] == TimedCallback(Closed(rs[k].value), rs[k].timestamp)
  {
    if |cs| == 0 then []
    else
      var rest := ClosedRecords(cs[1..]);
      match cs[0].callback
      case Closed(data) => [Timestamped(data, cs[0].time)] + rest
      case _ => rest
  }

  /**
   * Over any run of callbacks, each queue grows by exactly its records in
   * callback order: every new connection and every close, stamped with its
   * callback's time, and nothing for reconnections, interruptions or requests.
   */
  lemma {:induction false} CallbacksAppendRecords(q: EventQueues, cs: seq<TimedCallback>, isComplete: CompletionOracle)
    ensures OnCallbacks(q, cs, isComplete) ==
      EventQueues(q.established + EstablishedRecords(cs), q.disconnections + ClosedRecords(cs))
    decreases |cs|
  {
    if |cs| > 0 {
      var q1 := OnCallback(q, cs[0].callback, cs[0].time, isComplete);
      CallbacksAppendRecords(q1, cs[1..], isComplete);
      match cs[0].callback
      case Request(_, _) =>
      case Interrupted(_) =>
      case Established(data) =>
        assert q1.established + EstablishedRecords(cs[1..]) == q.established + EstablishedRecords(cs);
      case Closed(data) =>
        assert q1.disconnections + ClosedRecords(cs[1..]) == q.disconnections + ClosedRecords(cs);
    }
  }

  /** Callbacks that are only requests and interruptions leave both queues as they were. */
  lemma {:induction false} QuietCallbacks(q: EventQueues, cs: seq<TimedCallback>, isComplete: CompletionOracle)
    requires forall k :: 0 <= k < |cs| ==> cs[k].callback.Request? || cs[k].callback.Interrupted?
    ensures OnCallbacks(q, cs, isComplete) == q
    decreases |cs|
  {
    if |cs| > 0 {
      QuietCallbacks(q, cs[1..], isComplete);
    }
  }
}
