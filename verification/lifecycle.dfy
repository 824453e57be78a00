/**
 * The transport's configuration and start/stop life cycle: the properties
 * that may only change while stopped, `StartClient`, `StartServer` and
 * `Shutdown`, and the SDK notification ids they register and remove.
 */
module Lifecycle {
  import opened Common
  import opened Eos
  import opened P2PWrapper
  import opened SocketIds

  /** `transportSocketSuffix`. */
  const TransportSocketSuffix: string := "transport"

  /** The serialized default of `SocketCategory`. */
  const DefaultSocketCategory: string := "default"

  /**
   * `string.GetHashCode`, deterministic on Unity's runtime. Client and server
   * both name the socket with it, so the model assumes one hash shared by
   * both sides; it enters as a parameter.
   */
  type StringHash = string -> I32

  /** The four SDK notifications the transport subscribes to. */
  datatype NotifyKind = RequestNotify | EstablishedNotify | InterruptedNotify | ClosedNotify

  /**
   * The id the SDK hands back for each `AddNotify…` call made during one
   * start; `InvalidNotificationId` means the subscription failed.
   */
  type NotifyGrant = NotifyKind -> U64

  /** The four notification-id lists. */
  datatype NotificationIds = NotificationIds(request: seq<U64>, established: seq<U64>, interrupted: seq<U64>, closed: seq<U64>)
  {
    function Of(kind: NotifyKind): seq<U64>
    {
      match kind
      case RequestNotify => request
      case EstablishedNotify => established
      case InterruptedNotify => interrupted
      case ClosedNotify => closed
    }

    /** Every id held, in the order `Shutdown` removes them. */
    function All(): seq<U64>
    {
      request + established + interrupted + closed
    }
  }

  const NoNotificationIds := NotificationIds([], [], [], [])

  /** The life-cycle part of the transport's state. */
  datatype LifecycleState = LifecycleState(
    running: bool,
    socketCategory: string,
    relayControl: RelayControl,
    localUserId: Option<UserId>,
    hostUserId: Option<UserId>,
    transportSocket: Option<SocketId>,
    ids: NotificationIds)

  /** A freshly created transport: stopped, default category, relays allowed, nothing assigned. */
  const Initial := LifecycleState(false, DefaultSocketCategory, AllowRelays, None, None, None, NoNotificationIds)

  /** The properties guarded by `SetIfNotRunning`, with the value assigned. */
  datatype Setting =
    | SocketCategory(category: string)
    | Relays(relayControl: RelayControl)
    | LocalUser(localUserId: Option<UserId>)
    | HostUser(hostUserId: Option<UserId>)

  /** The configuration as the property getters report it. */
  datatype Config = Config(socketCategory: string, relayControl: RelayControl, localUserId: Option<UserId>, hostUserId: Option<UserId>)

  function ConfigOf(s: LifecycleState): Config
  {
    Config(s.socketCategory, s.relayControl, s.localUserId, s.hostUserId)
  }

  /** The configuration with one property replaced. */
  function Assign(c: Config, setting: Setting): Config
  {
    match setting
    case SocketCategory(v) => c.(socketCategory := v)
    case Relays(v) => c.(relayControl := v)
    case LocalUser(v) => c.(localUserId := v)
    case HostUser(v) => c.(hostUserId := v)
  }

  datatype SetOutcome = SetOutcome(ok: bool, state: LifecycleState)

  /**
   * A property setter, through `SetIfNotRunning`: while running it refuses
   * and changes nothing; while stopped it assigns the property and touches
   * nothing else.
   */
  function SetIfNotRunning(s: LifecycleState, setting: Setting): (r: SetOutcome)
    ensures r.ok <==> !s.running
    ensures !r.ok ==> r.state == s
    ensures r.ok ==> ConfigOf(r.state) == Assign(ConfigOf(s), setting)
    ensures r.state.running == s.running && r.state.ids == s.ids && r.state.transportSocket == s.transportSocket
  {
    if s.running then SetOutcome(false, s)
    else
      var s' := match setting
        case SocketCategory(v) => s.(socketCategory := v)
        case Relays(v) => s.(relayControl := v)
        case LocalUser(v) => s.(localUserId := v)
        case HostUser(v) => s.(hostUserId := v);
      SetOutcome(true, s')
  }

  /** A run of property assignments, each through its setter. */
  function SetAll(s: LifecycleState, settings: seq<Setting>): LifecycleState
    decreases |settings|
  {
    if |settings| == 0 then s else SetAll(SetIfNotRunning(s, settings[0]).state, settings[1..])
  }

  /** While running, no sequence of assignments changes the transport. */
  lemma {:induction false} FrozenWhileRunning(s: LifecycleState, settings: seq<Setting>)
    requires s.running
    ensures SetAll(s, settings) == s
    decreases |settings|
  {
    if |settings| > 0 {
      FrozenWhileRunning(SetIfNotRunning(s, settings[0]).state, settings[1..]);
    }
  }

  /** While stopped, the last assignment to a property wins and the transport stays stopped. */
  lemma {:induction false} LastAssignmentWins(s: LifecycleState, settings: seq<Setting>, last: Setting)
    requires !s.running
    ensures !SetAll(s, settings + [last]).running
    ensures ConfigOf(SetAll(s, settings + [last])) == Assign(ConfigOf(SetAll(s, settings)), last)
    decreases |settings|
  {
    if |settings| == 0 {
      assert SetAll(s, [last]) == SetIfNotRunning(s, last).state;
    } else {
      assert (settings + [last])[1..] == settings[1..] + [last];
      LastAssignmentWins(SetIfNotRunning(s, settings[0]).state, settings[1..], last);
    }
  }

  /**
   * `SetHost`: throws while running, otherwise assigns the host user id
   * parsed from the string (None for a null string).
   */
  function SetHost(s: LifecycleState, hostUserIdString: Option<string>): (r: Result<LifecycleState>)
    ensures r.Threw? <==> s.running
    ensures r.Threw? ==> r.error == InvalidOperation
    ensures r.Ok? ==> r.value == SetIfNotRunning(s, HostUser(hostUserIdString)).state
  {
    if s.running then Threw(InvalidOperation) else Ok(s.(hostUserId := hostUserIdString))
  }

  /** `SetLocalUser`: the same for the local user id. */
  function SetLocalUser(s: LifecycleState, localUserIdString: Option<string>): (r: Result<LifecycleState>)
    ensures r.Threw? <==> s.running
    ensures r.Threw? ==> r.error == InvalidOperation
    ensures r.Ok? ==> r.value == SetIfNotRunning(s, LocalUser(localUserIdString)).state
  {
    if s.running then Threw(InvalidOperation) else Ok(s.(localUserId := localUserIdString))
  }

  /** Whether the subscriptions of one start succeeded, and the id lists afterwards. */
  datatype Registration = Registration(ok: bool, ids: NotificationIds)

  /** The id `grant` gave for `kind`, as a list of the ids to record: empty when the call failed. */
  function Granted(grant: NotifyGrant, kind: NotifyKind): seq<U64>
  {
    if grant(kind) == InvalidNotificationId then [] else [grant(kind)]
  }

  /**
   * `AcceptPeerConnectionRequestsOn`: subscribes to connection requests and
   * records the id, or reports failure and records nothing.
   */
  function AcceptPeerConnectionRequestsOn(ids: NotificationIds, grant: NotifyGrant): (r: Registration)
    ensures r.ok <==> grant(RequestNotify) != InvalidNotificationId
    ensures r.ids == ids.(request := ids.request + Granted(grant, RequestNotify))
  {
    var id := grant(RequestNotify);
    if id == InvalidNotificationId then Registration(false, ids)
    else Registration(true, ids.(request := ids.request + [id]))
  }

  /**
   * `EstablishPeerConnectionsOn`: subscribes to established, interrupted
   * and closed notifications in that order and stops at the first failure.
   * The ids recorded before the failure stay recorded.
   */
  function EstablishPeerConnectionsOn(ids: NotificationIds, grant: NotifyGrant): (r: Registration)
    ensures r.ok <==> Granted(grant, EstablishedNotify) != [] && Granted(grant, InterruptedNotify) != []
                      && Granted(grant, ClosedNotify) != []
    ensures r.ids.request == ids.request
    ensures r.ids.established == ids.established + Granted(grant, EstablishedNotify)
    ensures r.ids.interrupted == ids.interrupted +
      (if Granted(grant, EstablishedNotify) == [] then [] else Granted(grant, InterruptedNotify))
    ensures r.ids.closed == ids.closed +
      (if Granted(grant, EstablishedNotify) == [] || Granted(grant, InterruptedNotify) == [] then []
       else Granted(grant, ClosedNotify))
  {
    var e := grant(EstablishedNotify);
    if e == InvalidNotificationId then Registration(false, ids)
    else
      var ids1 := ids.(established := ids.established + [e]);
      var i := grant(InterruptedNotify);
      if i == InvalidNotificationId then Registration(false, ids1)
      else
        var ids2 := ids1.(interrupted := ids1.interrupted + [i]);
        var c := grant(ClosedNotify);
        if c == InvalidNotificationId then Registration(false, ids2)
        else Registration(true, ids2.(closed := ids2.closed + [c]))
  }

  /** Every subscription a start attempts succeeds. */
  predicate AllGranted(grant: NotifyGrant)
  {
    forall kind :: grant(kind) != InvalidNotificationId
  }

  /** The socket a transport keyed by `user` listens on. */
  function TransportSocketFor(s: LifecycleState, hash: StringHash, user: UserId): SocketId
  {
    GetSocketId(s.socketCategory, hash(user), TransportSocketSuffix)
  }

  /** The four subscriptions succeeding one by one is `AllGranted`. */
  lemma GrantedEverywhere(grant: NotifyGrant)
    requires Granted(grant, RequestNotify) != [] && Granted(grant, EstablishedNotify) != []
    requires Granted(grant, InterruptedNotify) != [] && Granted(grant, ClosedNotify) != []
    ensures AllGranted(grant)
  {
    forall kind: NotifyKind
      ensures grant(kind) != InvalidNotificationId
    {
      match kind
      case RequestNotify =>
      case EstablishedNotify =>
      case InterruptedNotify =>
      case ClosedNotify =>
    }
  }

  /** Whether a start returned true, and the state it left. */
  datatype Start = Start(started: bool, state: LifecycleState)

  /**
   * `StartClient`. Refuses while running; throws without a host. Otherwise it
   * names the socket after the host, subscribes to established, interrupted
   * and closed notifications, and asks the SDK to connect to the host;
   * `acceptResult` is the SDK's answer. Failure returns false with the
   * socket named and whatever ids were granted left recorded.
   */
  function StartClient(s: LifecycleState, hash: StringHash, grant: NotifyGrant, acceptResult: EosResult,
                       isComplete: CompletionOracle): (r: Result<Start>)
    ensures s.running ==> r == Ok(Start(false, s))
    ensures r.Threw? <==> !s.running && s.hostUserId.None?
    ensures r.Threw? ==> r.error == InvalidOperation
    ensures r.Ok? && !s.running ==>
      && ConfigOf(r.value.state) == ConfigOf(s)
      && r.value.state.transportSocket == Some(TransportSocketFor(s, hash, s.hostUserId.value))
      && r.value.state.ids == EstablishPeerConnectionsOn(s.ids, grant).ids
      && (r.value.started <==> r.value.state.running)
      && (r.value.started <==>
            EstablishPeerConnectionsOn(s.ids, grant).ok && acceptResult == Success)
  {
    if s.running then Ok(Start(false, s))
    else if s.hostUserId.None? then Threw(InvalidOperation)
    else
      var s1 := s.(transportSocket := Some(TransportSocketFor(s, hash, s.hostUserId.value)));
      var reg := EstablishPeerConnectionsOn(s1.ids, grant);
      var s2 := s1.(ids := reg.ids);
      if !reg.ok then Ok(Start(false, s2))
      else if !TryRequestOrAcceptConnection(acceptResult, isComplete) then Ok(Start(false, s2))
      else Ok(Start(true, s2.(running := true)))
  }

  /**
   * `StartServer`. Refuses while running; a missing local user makes naming
   * the socket throw. Otherwise it subscribes to connection requests, then
   * to established, interrupted and closed notifications, and starts;
   * failure returns false and leaves the granted ids recorded.
   */
  function StartServer(s: LifecycleState, hash: StringHash, grant: NotifyGrant): (r: Result<Start>)
    ensures s.running ==> r == Ok(Start(false, s))
    ensures r.Threw? <==> !s.running && s.localUserId.None?
    ensures r.Threw? ==> r.error == NullReference
    ensures r.Ok? && !s.running ==>
      && ConfigOf(r.value.state) == ConfigOf(s)
      && r.value.state.transportSocket == Some(TransportSocketFor(s, hash, s.localUserId.value))
      && (r.value.started <==> r.value.state.running)
      && (r.value.started <==> AllGranted(grant))
      && r.value.state.ids.request == s.ids.request + Granted(grant, RequestNotify)
      && (Granted(grant, RequestNotify) == [] ==> r.value.state.ids == s.ids)
    ensures r.Ok? && !s.running ==>
      var req := AcceptPeerConnectionRequestsOn(s.ids, grant);
      r.value.state.ids == (if req.ok then EstablishPeerConnectionsOn(req.ids, grant).ids else req.ids)
  {
    if s.running then Ok(Start(false, s))
    else if s.localUserId.None? then Threw(NullReference)
    else
      var s1 := s.(transportSocket := Some(TransportSocketFor(s, hash, s.localUserId.value)));
      var req := AcceptPeerConnectionRequestsOn(s1.ids, grant);
      var s2 := s1.(ids := req.ids);
      if !req.ok then Ok(Start(false, s2))
      else
        var reg := EstablishPeerConnectionsOn(s2.ids, grant);
        var s3 := s2.(ids := reg.ids);
        if !reg.ok then Ok(Start(false, s3))
        else
          GrantedEverywhere(grant);
          Ok(Start(true, s3.(running := true)))
  }

  /** What `Shutdown` leaves and the notification ids it removed, in removal order. */
  datatype Stopped = Stopped(state: LifecycleState, removed: seq<U64>)

  /**
   * `Shutdown`: closes the socket's connections (the SDK's answer is only
   * logged), removes every recorded notification id, clears the lists and
   * stops. It does so whether or not the transport was running.
   */
  function Shutdown(s: LifecycleState): (r: Stopped)
    ensures !r.state.running
    ensures r.state.ids == NoNotificationIds
    ensures |r.removed| == |s.ids.request| + |s.ids.established| + |s.ids.interrupted| + |s.ids.closed|
    ensures forall kind, id :: id in s.ids.Of(kind) ==> id in r.removed
    ensures multiset(r.removed) ==
      multiset(s.ids.request) + multiset(s.ids.established) + multiset(s.ids.interrupted) + multiset(s.ids.closed)
    ensures ConfigOf(r.state) == ConfigOf(s) && r.state.transportSocket == s.transportSocket
  {
    Stopped(s.(running := false, ids := NoNotificationIds), s.ids.All())
  }

  /**
   * A running transport refuses to start again, as client or as server, and
   * stays as it was.
   */
  lemma NoRestart(s: LifecycleState, hash: StringHash, grant: NotifyGrant, acceptResult: EosResult, isComplete: CompletionOracle)
    requires s.running
    ensures StartClient(s, hash, grant, acceptResult, isComplete) == Ok(Start(false, s))
    ensures StartServer(s, hash, grant) == Ok(Start(false, s))
  {
  }

  /** After a successful start in either role, the other role refuses to start. */
  lemma NotBothServerAndClient(s: LifecycleState, hash: StringHash, grant: NotifyGrant, grant2: NotifyGrant,
                               acceptResult: EosResult, acceptResult2: EosResult, isComplete: CompletionOracle)
    ensures var r := StartServer(s, hash, grant);
      r.Ok? && r.value.started ==>
        StartClient(r.value.state, hash, grant2, acceptResult2, isComplete) == Ok(Start(false, r.value.state))
    ensures var r := StartClient(s, hash, grant, acceptResult, isComplete);
      r.Ok? && r.value.started ==>
        StartServer(r.value.state, hash, grant2) == Ok(Start(false, r.value.state))
  {
  }

  /**
   * A failed server start leaves the transport stopped, so a later start with
   * working subscriptions succeeds without a `Shutdown` in between. The ids
   * granted before the failure stay recorded alongside the new ones.
   */
  lemma RestartSucceedsAfterFailure(s: LifecycleState, hash: StringHash, bad: NotifyGrant, good: NotifyGrant)
    requires !s.running && s.localUserId.Some?
    requires !AllGranted(bad) && AllGranted(good)
    ensures StartServer(s, hash, bad).Ok? && !StartServer(s, hash, bad).value.started
    ensures var failed := StartServer(s, hash, bad).value.state;
      && !failed.running
      && StartServer(failed, hash, good).Ok?
      && StartServer(failed, hash, good).value.started
      && |StartServer(failed, hash, good).value.state.ids.request| == |s.ids.request| + |Granted(bad, RequestNotify)| + 1
    ensures var req := AcceptPeerConnectionRequestsOn(s.ids, bad);
      StartServer(s, hash, bad).value.state.ids
        == (if req.ok then EstablishPeerConnectionsOn(req.ids, bad).ids else req.ids)
    ensures var failed := StartServer(s, hash, bad).value.state;
      forall kind :: failed.ids.Of(kind) <= StartServer(failed, hash, good).value.state.ids.Of(kind)
  {
  }

  /**
   * Shutdown after any start attempt, successful or not, removes every id
   * that attempt recorded, and leaves a transport that can start again.
   */
  lemma ShutdownAfterStart(s: LifecycleState, hash: StringHash, grant: NotifyGrant, id: U64, kind: NotifyKind)
    requires !s.running && s.localUserId.Some?
    requires id in StartServer(s, hash, grant).value.state.ids.Of(kind)
    ensures var stopped := Shutdown(StartServer(s, hash, grant).value.state);
      && id in stopped.removed
      && !stopped.state.running
      && StartServer(stopped.state, hash, grant).Ok?
      && (AllGranted(grant) ==> StartServer(stopped.state, hash, grant).value.started)
  {
  }
}
