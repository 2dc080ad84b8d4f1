/**
 * The client's `NetworkService`: connection state, heartbeat and reconnect
 * timers, the send guard, inbound dispatch and the event emitter, plus the
 * bound flag of the simulated `UDPSocket`.
 *
 * Each operation is a pure function from the service state (and the inputs
 * the JavaScript takes from its environment: the random socket and player
 * ids, `Date.now()`, whether binding or the transport threw) to the new
 * state and the effects it produced, in order: datagrams handed to the
 * socket, handler invocations, and socket closes. Timers are counted, not
 * run: a scheduled reconnect or a live heartbeat interval fires only when
 * the caller applies the matching event.
 */
module NetworkService {
  import opened Basics
  import opened Protocol

  // ---------------------------------------------------------------------
  // UDPSocket

  /** `UDPSocket`: the client id it registered with the server, and `isBound`. */
  datatype Socket = Socket(clientId: ClientId, isBound: bool)

  /**
   * `UDPSocket.send`: throws unless the socket is bound; `transportOk` is
   * false when the transport itself throws.
   */
  predicate SocketSendSucceeds(sock: Socket, transportOk: bool): (ok: bool)
    ensures !sock.isBound ==> !ok
    ensures !transportOk ==> !ok
    ensures sock.isBound && transportOk ==> ok
  {
    sock.isBound && transportOk
  }

  /** `UDPSocket.close`: the socket becomes unbound, so every later send throws. */
  function CloseSocket(sock: Socket): (r: Socket)
    ensures !r.isBound && r.clientId == sock.clientId
    ensures forall ok :: !SocketSendSucceeds(r, ok)
  {
    sock.(isBound := false)
  }

  // ---------------------------------------------------------------------
  // State

  /** Keys of the handler Map: event names and numeric message tags are distinct keys. */
  datatype EventKey = Named(name: string) | TagKey(tag: int)

  /** Identity of a registered callback. */
  type HandlerId = nat

  /** The argument a handler is called with (`connectionLost` gets `undefined`). */
  datatype Payload = NoData | Data(msg: ServerMsg)

  datatype Effect =
    | SentDatagram(msg: ClientMsg)
    | Invoked(handler: HandlerId, payload: Payload)
    | ClosedSocket(closed: ClientId)

  datatype Net = Net(
    socket: Option<Socket>,
    isConnected: bool,
    handlers: map<EventKey, seq<HandlerId>>,
    reconnectAttempts: nat,
    /** `heartbeatInterval` holds a live interval. */
    heartbeatTimer: bool,
    /** Intervals started while another was held; nothing ever clears them. */
    orphanHeartbeats: nat,
    /** Reconnect timeouts scheduled and not yet fired. */
    pendingRetries: nat,
    playerId: Option<string>)

  /** The result of an operation: new state, effects in order, and the JavaScript return value. */
  datatype Out = Out(net: Net, effects: seq<Effect>, ok: bool)

  const MaxReconnectAttempts: nat := 5
  const ProtocolVersion: string := "1.0.0"

  /** The constructor's state. */
  function Initial(): (n: Net)
    ensures Inv(n)
    ensures !n.isConnected && n.socket.None? && n.reconnectAttempts == 0
  {
    Net(None, false, map[], 0, false, 0, 0, None)
  }

  /**
   * The state invariant: the attempt counter never passes the cap, a
   * connected service has a bound socket, and a heartbeat interval is held
   * exactly while connected.
   */
  ghost predicate Inv(n: Net) {
    && n.reconnectAttempts <= MaxReconnectAttempts
    && (n.isConnected ==> n.socket.Some? && n.socket.value.isBound)
    && (n.heartbeatTimer <==> n.isConnected)
  }

  // ---------------------------------------------------------------------
  // Event emitter

  /** The handlers registered under `e`, in registration order. */
  function HandlersFor(n: Net, e: EventKey): seq<HandlerId> {
    if e in n.handlers then n.handlers[e] else []
  }

  /** `on(e, h)`: append `h` to the handlers of `e`. */
  function On(n: Net, e: EventKey, h: HandlerId): (r: Net)
    ensures HandlersFor(r, e) == HandlersFor(n, e) + [h]
    ensures forall e' :: e' != e ==> HandlersFor(r, e') == HandlersFor(n, e')
    ensures r == n.(handlers := r.handlers)
  {
    n.(handlers := n.handlers[e := HandlersFor(n, e) + [h]])
  }

  /** `emit(e, d)`: call every handler of `e`, in registration order, with `d`. */
  function Emit(n: Net, e: EventKey, d: Payload): (r: seq<Effect>)
    ensures |r| == |HandlersFor(n, e)|
    ensures forall i :: 0 <= i < |r| ==> r[i] == Invoked(HandlersFor(n, e)[i], d)
    ensures e !in n.handlers ==> r == []
  {
    var hs := HandlersFor(n, e);
    seq(|hs|, i requires 0 <= i < |hs| => Invoked(hs[i], d))
  }

  /** Registering a handler makes it the last one `emit` calls for that event, and only for it. */
  lemma EmitAfterOn(n: Net, e: EventKey, h: HandlerId, e': EventKey, d: Payload)
    ensures e' == e ==> Emit(On(n, e, h), e', d) == Emit(n, e', d) + [Invoked(h, d)]
    ensures e' != e ==> Emit(On(n, e, h), e', d) == Emit(n, e', d)
  {
    if e' == e {
      assert Emit(On(n, e, h), e', d) == Emit(n, e', d) + [Invoked(h, d)];
    } else {
      assert Emit(On(n, e, h), e', d) == Emit(n, e', d);
    }
  }

  /** Register `hs` under `e`, one `on` call after another. */
  function OnAll(n: Net, e: EventKey, hs: seq<HandlerId>): Net
    decreases |hs|
  {
    if |hs| == 0 then n else OnAll(On(n, e, hs[0]), e, hs[1..])
  }

  /**
   * Handlers registered one after another are called in exactly that
   * order, after the ones registered before them.
   */
  lemma {:induction false} EmitAfterOnAll(n: Net, e: EventKey, hs: seq<HandlerId>, d: Payload)
    ensures Emit(OnAll(n, e, hs), e, d) == Emit(n, e, d) + seq(|hs|, i requires 0 <= i < |hs| => Invoked(hs[i], d))
    decreases |hs|
  {
    if |hs| > 0 {
      var n1 := On(n, e, hs[0]);
      EmitAfterOn(n, e, hs[0], e, d);
      EmitAfterOnAll(n1, e, hs[1..], d);
      assert seq(|hs|, i requires 0 <= i < |hs| => Invoked(hs[i], d))
          == [Invoked(hs[0], d)] + seq(|hs[1..]|, i requires 0 <= i < |hs[1..]| => Invoked(hs[1..][i], d));
    }
  }

  // ---------------------------------------------------------------------
  // Heartbeat and connection errors

  /** `stopHeartbeat`: drop the held interval, if any. */
  function StopHeartbeat(n: Net): (r: Net)
    ensures !r.heartbeatTimer
    ensures r == n.(heartbeatTimer := false)
  {
    n.(heartbeatTimer := false)
  }

  /**
   * Clearing the held interval before holding a new one is what keeps the
   * heartbeat from leaking: stop-then-start orphans nothing, while two
   * starts in a row orphan the first interval.
   */
  lemma StopThenStartLeaksNothing(n: Net)
    ensures StartHeartbeat(StopHeartbeat(n)).orphanHeartbeats == n.orphanHeartbeats
    ensures StartHeartbeat(StartHeartbeat(StopHeartbeat(n))).orphanHeartbeats == n.orphanHeartbeats + 1
  {
  }

  /** Stopping the heartbeat a second time changes nothing. */
  lemma StopHeartbeatIdempotent(n: Net)
    ensures StopHeartbeat(StopHeartbeat(n)) == StopHeartbeat(n)
  {
  }

  /** `startHeartbeat`: hold a new interval; one already held is not cleared and keeps running. */
  function StartHeartbeat(n: Net): (r: Net)
    ensures r.heartbeatTimer
    ensures n.heartbeatTimer ==> r.orphanHeartbeats == n.orphanHeartbeats + 1
    ensures !n.heartbeatTimer ==> r.orphanHeartbeats == n.orphanHeartbeats
    ensures r == n.(heartbeatTimer := true, orphanHeartbeats := r.orphanHeartbeats)
  {
    n.(heartbeatTimer := true, orphanHeartbeats := n.orphanHeartbeats + (if n.heartbeatTimer then 1 else 0))
  }

  /**
   * `handleConnectionError`: mark disconnected and stop the heartbeat; then
   * either count one more attempt and schedule one retry, or, at the cap,
   * emit `connectionLost` and schedule nothing.
   */
  function HandleConnectionError(n: Net): (r: Out)
    ensures !r.net.isConnected && !r.net.heartbeatTimer
    ensures !r.ok
    ensures n.reconnectAttempts < MaxReconnectAttempts ==>
              && r.net.reconnectAttempts == n.reconnectAttempts + 1
              && r.net.pendingRetries == n.pendingRetries + 1
              && r.effects == []
    ensures n.reconnectAttempts >= MaxReconnectAttempts ==>
              && r.net.reconnectAttempts == n.reconnectAttempts
              && r.net.pendingRetries == n.pendingRetries
              && r.effects == Emit(n, Named("connectionLost"), NoData)
    ensures r.net == n.(isConnected := false, heartbeatTimer := false,
                        reconnectAttempts := r.net.reconnectAttempts, pendingRetries := r.net.pendingRetries)
    ensures Inv(n) ==> Inv(r.net)
  {
    var stopped := StopHeartbeat(n.(isConnected := false));
    if stopped.reconnectAttempts < MaxReconnectAttempts then
      Out(stopped.(reconnectAttempts := stopped.reconnectAttempts + 1,
                   pendingRetries := stopped.pendingRetries + 1), [], false)
    else
      Out(stopped, Emit(stopped, Named("connectionLost"), NoData), false)
  }

  // ---------------------------------------------------------------------
  // Sending

  /**
   * `sendMessage`: without a socket or while not connected the message is
   * dropped and the result is false; otherwise it goes to the socket, and a
   * throwing send is routed to `handleConnectionError`.
   */
  function SendMessage(n: Net, msg: ClientMsg, transportOk: bool): (r: Out)
    ensures n.socket.None? || !n.isConnected ==> r == Out(n, [], false)
    ensures r.ok <==> n.socket.Some? && n.isConnected && SocketSendSucceeds(n.socket.value, transportOk)
    ensures r.ok ==> r.net == n && r.effects == [SentDatagram(msg)]
    ensures forall i :: 0 <= i < |r.effects| ==> r.effects[i] != SentDatagram(msg) || r.ok
    ensures n.socket.Some? && n.isConnected && !r.ok ==> r == HandleConnectionError(n)
    ensures Inv(n) ==> Inv(r.net)
  {
    if n.socket.None? || !n.isConnected then Out(n, [], false)
    else if SocketSendSucceeds(n.socket.value, transportOk) then Out(n, [SentDatagram(msg)], true)
    else HandleConnectionError(n)
  }

  /**
   * On a valid connected service the socket is bound, so `UDPSocket.send`'s
   * unbound throw never fires: a send fails only when the transport throws.
   */
  lemma ConnectedSendFailsOnlyOnTransport(n: Net, msg: ClientMsg, transportOk: bool)
    requires Inv(n) && n.isConnected
    ensures SendMessage(n, msg, transportOk).ok <==> transportOk
    ensures SocketSendSucceeds(n.socket.value, transportOk) <==> transportOk
  {
  }

  /** `sendPlayerMove`: a PLAYER_MOVE with the current player id, through the send guard. */
  function SendPlayerMove(n: Net, position: Point, velocity: Point, now: int, transportOk: bool): (r: Out)
    ensures n.socket.None? || !n.isConnected ==> r == Out(n, [], false)
    ensures r.ok <==> n.socket.Some? && n.isConnected && SocketSendSucceeds(n.socket.value, transportOk)
    ensures r.ok ==> r.net == n && r.effects == [SentDatagram(PlayerMove(n.playerId, position, velocity, now))]
    ensures Inv(n) ==> Inv(r.net)
  {
    SendMessage(n, PlayerMove(n.playerId, position, velocity, now), transportOk)
  }

  /** The JavaScript value of an optional string: `undefined` when absent. */
  function OptStr(o: Option<string>): (v: JsValue)
    ensures o.None? <==> v == Undefined
  {
    match o
    case Some(s) => Str(s)
    case None => Undefined
  }

  /**
   * The object `sendPlayerAction` builds: the fixed fields, then `extraData`
   * spread over them. A `targetId` of `undefined` takes its default, `null`.
   */
  function ActionObject(playerId: Option<string>, actionType: string, targetId: JsValue, now: int, extra: Fields): (o: Fields)
    ensures forall k :: k in extra ==> Get(o, k) == extra[k]
    ensures "type" !in extra ==> Get(o, "type") == Num(PLAYER_ACTION)
    ensures "playerId" !in extra ==> Get(o, "playerId") == OptStr(playerId)
    ensures "actionType" !in extra ==> Get(o, "actionType") == Str(actionType)
    ensures "targetId" !in extra ==> Get(o, "targetId") == (if targetId == Undefined then Null else targetId)
    ensures "timestamp" !in extra ==> Get(o, "timestamp") == Num(now)
    ensures forall k :: k in o <==> k in extra || k in {"type", "playerId", "actionType", "targetId", "timestamp"}
  {
    var fixed := map[
      "type" := Num(PLAYER_ACTION),
      "playerId" := OptStr(playerId),
      "actionType" := Str(actionType),
      "targetId" := if targetId == Undefined then Null else targetId,
      "timestamp" := Num(now)];
    fixed + extra
  }

  /** `sendPlayerAction(actionType, targetId, extraData)`, through the send guard. */
  function SendPlayerAction(n: Net, actionType: string, targetId: JsValue, extra: Fields, now: int, transportOk: bool): (r: Out)
    ensures n.socket.None? || !n.isConnected ==> r == Out(n, [], false)
    ensures r.ok <==> n.socket.Some? && n.isConnected && SocketSendSucceeds(n.socket.value, transportOk)
    ensures r.ok ==> r.net == n && r.effects == [SentDatagram(PlayerAction(ActionObject(n.playerId, actionType, targetId, now, extra)))]
    ensures Inv(n) ==> Inv(r.net)
  {
    SendMessage(n, PlayerAction(ActionObject(n.playerId, actionType, targetId, now, extra)), transportOk)
  }

  // ---------------------------------------------------------------------
  // Connecting and disconnecting

  /**
   * `connect`: create and bind a fresh socket (registered as `socketId`),
   * send the login (player id `loginId`), start the heartbeat, then mark
   * connected and reset the attempt counter. A failed bind is routed to
   * `handleConnectionError` and yields false.
   *
   * The login goes through the send guard before `isConnected` is set, so
   * from a disconnected state it is always dropped.
   */
  function Connect(n: Net, socketId: ClientId, bindOk: bool, loginId: string, now: int, transportOk: bool): (r: Out)
    ensures r.ok <==> bindOk
    ensures r.net.socket.Some? && r.net.socket.value.clientId == socketId
    ensures bindOk ==>
              && r.net.isConnected && r.net.reconnectAttempts == 0 && r.net.heartbeatTimer
              && r.net.socket == Some(Socket(socketId, true))
    ensures !bindOk ==> r == HandleConnectionError(n.(socket := Some(Socket(socketId, false))))
    ensures bindOk && !n.isConnected ==> r.effects == [] && r.net.pendingRetries == n.pendingRetries
    ensures bindOk && n.isConnected && transportOk ==> r.effects == [SentDatagram(Login(loginId, now, ProtocolVersion))]
    ensures bindOk && n.isConnected && !transportOk ==>
              && r.net.orphanHeartbeats == n.orphanHeartbeats
              && (n.reconnectAttempts < MaxReconnectAttempts ==>
                    r.effects == [] && r.net.pendingRetries == n.pendingRetries + 1)
              && (n.reconnectAttempts >= MaxReconnectAttempts ==>
                    r.effects == Emit(n, Named("connectionLost"), NoData) && r.net.pendingRetries == n.pendingRetries)
    ensures Inv(n) && !n.isConnected ==> r.net.orphanHeartbeats == n.orphanHeartbeats
    ensures r.net.handlers == n.handlers && r.net.playerId == n.playerId
    ensures Inv(n) ==> Inv(r.net)
  {
    var bound := n.(socket := Some(Socket(socketId, bindOk)));
    if !bindOk then HandleConnectionError(bound)
    else
      var login := SendMessage(bound, Login(loginId, now, ProtocolVersion), transportOk);
      var beating := StartHeartbeat(login.net);
      Out(beating.(isConnected := true, reconnectAttempts := 0), login.effects, true)
  }

  /** A scheduled reconnect firing: one pending retry is used up and `connect` runs. */
  function FireRetry(n: Net, socketId: ClientId, bindOk: bool, loginId: string, now: int, transportOk: bool): (r: Out)
    ensures n.pendingRetries == 0 ==> r == Out(n, [], false)
    ensures n.pendingRetries > 0 ==>
              r == Connect(n.(pendingRetries := n.pendingRetries - 1), socketId, bindOk, loginId, now, transportOk)
    ensures Inv(n) ==> Inv(r.net)
  {
    if n.pendingRetries == 0 then Out(n, [], false)
    else Connect(n.(pendingRetries := n.pendingRetries - 1), socketId, bindOk, loginId, now, transportOk)
  }

  /** A heartbeat interval firing: a HEARTBEAT with the current player id, through the send guard. */
  function FireHeartbeat(n: Net, now: int, transportOk: bool): (r: Out)
    ensures !n.heartbeatTimer && n.orphanHeartbeats == 0 ==> r == Out(n, [], false)
    ensures n.heartbeatTimer || n.orphanHeartbeats > 0 ==>
              r == SendMessage(n, Heartbeat(n.playerId, now), transportOk)
    ensures Inv(n) ==> Inv(r.net)
  {
    if !n.heartbeatTimer && n.orphanHeartbeats == 0 then Out(n, [], false)
    else SendMessage(n, Heartbeat(n.playerId, now), transportOk)
  }

  /**
   * `disconnect`: stop the heartbeat, mark disconnected, close the socket
   * (which tells the server to drop the session) and forget it. Scheduled
   * reconnects are not cancelled.
   */
  function Disconnect(n: Net): (r: Out)
    ensures !r.net.isConnected && !r.net.heartbeatTimer && r.net.socket.None?
    ensures n.socket.Some? ==> r.effects == [ClosedSocket(n.socket.value.clientId)]
    ensures n.socket.None? ==> r.effects == []
    ensures r.net == n.(isConnected := false, heartbeatTimer := false, socket := None)
    ensures Inv(n) ==> Inv(r.net)
  {
    var stopped := StopHeartbeat(n).(isConnected := false);
    match n.socket
    case Some(sock) => Out(stopped.(socket := None), [ClosedSocket(CloseSocket(sock).clientId)], true)
    case None => Out(stopped, [], true)
  }

  /** Disconnecting a second time changes nothing and has no effect. */
  lemma DisconnectIdempotent(n: Net)
    ensures Disconnect(Disconnect(n).net) == Out(Disconnect(n).net, [], true)
  {
  }

  // ---------------------------------------------------------------------
  // Receiving

  /** The named event `handleReceivedMessage` raises for a message, if any. */
  function NamedEvent(m: ServerMsg): Option<string> {
    match m
    case LoginResponse(success, _, _, _) => Some(if success then "loginSuccess" else "loginFailed")
    case HeartbeatResponse(_) => Some("heartbeat")
    case PlayerStateMsg(_, _, _) => Some("playerStateUpdate")
    case GameState(_, _, _) => Some("gameStateUpdate")
    case ErrorMsg(_) => Some("error")
    case UnknownServerMsg(_) => None
  }

  /**
   * `handleReceivedMessage`: a successful LOGIN_RESPONSE records the player
   * id; then the message's named event is emitted, and after it every
   * handler registered under the message's numeric tag is called.
   */
  function HandleReceivedMessage(n: Net, m: ServerMsg): (r: Out)
    ensures m.LoginResponse? && m.success ==> r.net == n.(playerId := Some(m.loginPlayer))
    ensures !(m.LoginResponse? && m.success) ==> r.net == n
    ensures m.LoginResponse? && m.success ==>
              r.effects == Emit(n, Named("loginSuccess"), Data(m)) + Emit(n, TagKey(LOGIN_RESPONSE), Data(m))
    ensures m.LoginResponse? && !m.success ==>
              r.effects == Emit(n, Named("loginFailed"), Data(m)) + Emit(n, TagKey(LOGIN_RESPONSE), Data(m))
    ensures m.HeartbeatResponse? ==>
              r.effects == Emit(n, Named("heartbeat"), Data(m)) + Emit(n, TagKey(HEARTBEAT_RESPONSE), Data(m))
    ensures m.PlayerStateMsg? ==>
              r.effects == Emit(n, Named("playerStateUpdate"), Data(m)) + Emit(n, TagKey(PLAYER_STATE), Data(m))
    ensures m.GameState? ==>
              r.effects == Emit(n, Named("gameStateUpdate"), Data(m)) + Emit(n, TagKey(GAME_STATE), Data(m))
    ensures m.ErrorMsg? ==>
              r.effects == Emit(n, Named("error"), Data(m)) + Emit(n, TagKey(ERROR), Data(m))
    ensures m.UnknownServerMsg? ==> r.effects == Emit(n, TagKey(m.tag), Data(m))
    ensures Inv(n) ==> Inv(r.net)
  {
    var n' := if m.LoginResponse? && m.success then n.(playerId := Some(m.loginPlayer)) else n;
    var named := match NamedEvent(m)
                 case Some(e) => Emit(n', Named(e), Data(m))
                 case None => [];
    Out(n', named + Emit(n', TagKey(ServerTag(m)), Data(m)), true)
  }

  // ---------------------------------------------------------------------
  // Runs

  /** Everything that can happen to the service. */
  datatype NetEvent =
    | Register(event: EventKey, handler: HandlerId)
    | CallConnect(socketId: ClientId, bindOk: bool, loginId: string, at: int, transportOk: bool)
    | RetryFires(socketId: ClientId, bindOk: bool, loginId: string, at: int, transportOk: bool)
    | HeartbeatFires(at: int, transportOk: bool)
    | SocketError
    | CallDisconnect
    | Receive(msg: ServerMsg)
    | CallSendMove(position: Point, velocity: Point, at: int, transportOk: bool)
    | CallSendAction(actionType: string, targetId: JsValue, extra: Fields, at: int, transportOk: bool)

  function Apply(n: Net, e: NetEvent): (r: Out)
    ensures Inv(n) ==> Inv(r.net)
    ensures r.net.orphanHeartbeats >= n.orphanHeartbeats
  {
    match e
    case Register(ev, h) => Out(On(n, ev, h), [], true)
    case CallConnect(sid, bindOk, lid, at, ok) => Connect(n, sid, bindOk, lid, at, ok)
    case RetryFires(sid, bindOk, lid, at, ok) => FireRetry(n, sid, bindOk, lid, at, ok)
    case HeartbeatFires(at, ok) => FireHeartbeat(n, at, ok)
    case SocketError => HandleConnectionError(n)
    case CallDisconnect => Disconnect(n)
    case Receive(m) => HandleReceivedMessage(n, m)
    case CallSendMove(p, v, at, ok) => SendPlayerMove(n, p, v, at, ok)
    case CallSendAction(t, target, extra, at, ok) => SendPlayerAction(n, t, target, extra, at, ok)
  }

  function Run(n: Net, events: seq<NetEvent>): Net
    decreases |events|
  {
    if |events| == 0 then n else Run(Apply(n, events[0]).net, events[1..])
  }

  /**
   * Whatever happens, the attempt counter stays within the cap, a connected
   * service has a bound socket, and the heartbeat runs exactly while connected.
   */
  lemma {:induction false} RunPreservesInv(n: Net, events: seq<NetEvent>)
    requires Inv(n)
    ensures Inv(Run(n, events))
    ensures Run(n, events).reconnectAttempts <= MaxReconnectAttempts
    decreases |events|
  {
    if |events| > 0 {
      RunPreservesInv(Apply(n, events[0]).net, events[1..]);
    }
  }

  /**
   * A leaked heartbeat interval is never cleared: over any sequence of
   * events the number of orphaned intervals only grows, so each keeps
   * firing heartbeats for the rest of the session.
   */
  lemma {:induction false} OrphanHeartbeatsNeverCleared(n: Net, events: seq<NetEvent>)
    ensures Run(n, events).orphanHeartbeats >= n.orphanHeartbeats
    decreases |events|
  {
    if |events| > 0 {
      OrphanHeartbeatsNeverCleared(Apply(n, events[0]).net, events[1..]);
    }
  }
}
