/** The relay server as a state machine: one step for each event the server handles. */
module RelayState {
  // Connections are numbered in the order of their admission; a connection stands for its socket, its handlers and,
  // once registered, its peer record.

  import opened Wrappers
  import opened SlidingWindow
  import opened KeyedWindow
  import opened RelayTickets

  const MAX_REGISTRATION_BYTES := 2 * 1024
  const MAX_FRAMES_PER_WINDOW := 200
  const MAX_BYTES_PER_WINDOW := 4 * 1024 * 1024
  const RATE_WINDOW_MS := 10_000

  datatype Limits = Limits(
    maxPendingConnections: nat, maxActiveConnections: nat, maxUpgradesPerWindow: nat, maxUpgradesPerSource: nat,
    upgradeWindowMs: nat, maxQueuedBytesPerPeer: nat, maxQueuedBytesGlobal: nat)

  datatype Phase = Registering | Refused | Registered(routingId: string, role: Role)

  /** `pending` is false once the connection gave back its place among the pending ones. */
  datatype Connection = Connection(
    phase: Phase, open: bool, closed: bool, pending: bool, windowStartedAt: int, frames: nat, bytes: nat,
    queuedBytes: int)

  datatype Route = Route(host: Option<nat>, device: Option<nat>)

  /** One frame handed to a socket; released when the socket reports on it. */
  datatype Send = Send(to: nat, bytes: nat, released: bool)

  /** One forwarded frame. */
  datatype Delivery = Delivery(from: nat, to: nat)

  /** Admissions of upgrade requests; the last three fields are history. */
  datatype Window = Window(
    startedAt: int, total: nat, bySource: map<string, nat>, grants: seq<Grant<string>>, clock: int, steady: bool)

  datatype Relay = Relay(
    routes: map<string, Route>, connections: seq<Connection>, pendingConnections: int,
    queuedBytes: int, sends: seq<Send>, deliveries: seq<Delivery>, window: Window)

  datatype Refusal = ServiceUnavailable | BadRequest | TooManyRequests

  predicate IsRegistered(r: Relay, c: nat) { c < |r.connections| && r.connections[c].phase.Registered? }

  function Opposite(role: Role): Role { if role == Host then Device else Host }

  function At(route: Route, role: Role): Option<nat> { if role == Host then route.host else route.device }

  function Put(route: Route, role: Role, c: Option<nat>): Route {
    if role == Host then route.(host := c) else route.(device := c)
  }

  function Lookup(routes: map<string, Route>, id: string, role: Role): Option<nat> {
    if id in routes then At(routes[id], role) else None
  }

  function Max(a: int, b: int): int { if a >= b then a else b }

  // ----- admission -----

  function Rolled(w: Window, l: Limits, now: int): Window {
    var next := w.(clock := now, steady := w.steady && w.clock <= now);
    if now - w.startedAt >= l.upgradeWindowMs then next.(startedAt := now, total := 0, bySource := map[]) else next
  }

  function Granted(w: Window, source: string): Window {
    w.(total := w.total + 1, bySource := w.bySource[source := CountOf(w.bySource, source) + 1],
       grants := w.grants + [Grant(w.clock, w.startedAt, source)])
  }

  /** `clients` counts the open sockets; the source is None when the request names none. */
  function AdmitUpgrade(r: Relay, l: Limits, clients: nat, source: Option<string>, now: int)
    : (Window, Option<Refusal>)
  {
    if clients >= l.maxActiveConnections || r.pendingConnections >= l.maxPendingConnections
      then (r.window, Some(ServiceUnavailable))
    else if source.None? then (r.window, Some(BadRequest))
    else
      var w := Rolled(r.window, l, now);
      if w.total >= l.maxUpgradesPerWindow || CountOf(w.bySource, source.value) >= l.maxUpgradesPerSource
      then (w, Some(TooManyRequests))
      else (Granted(w, source.value), None)
  }

  function OnUpgrade(r: Relay, l: Limits, clients: nat, source: Option<string>, now: int): Relay {
    var (w, refusal) := AdmitUpgrade(r, l, clients, source, now);
    if refusal.Some? then r.(window := w)
    else
      r.(window := w, pendingConnections := r.pendingConnections + 1,
         connections := r.connections + [Connection(Registering, true, false, true, 0, 0, 0, 0)])
  }

  function With(r: Relay, c: nat, connection: Connection): Relay
    requires c < |r.connections|
  {
    r.(connections := r.connections[c := connection])
  }

  function ReleasePending(r: Relay, c: nat): Relay
    requires c < |r.connections|
  {
    if !r.connections[c].pending then r
    else With(r, c, r.connections[c].(pending := false)).(pendingConnections := Max(0, r.pendingConnections - 1))
  }

  function CloseSocket(r: Relay, c: nat): Relay
    requires c < |r.connections|
  {
    With(r, c, r.connections[c].(open := false))
  }

  function Refuse(r: Relay, c: nat): Relay
    requires c < |r.connections|
  {
    With(r, c, r.connections[c].(phase := Refused))
  }

  // ----- the route table -----

  function Register(r: Relay, c: nat, id: string, role: Role, now: int): Relay
    requires c < |r.connections|
  {
    var route := if id in r.routes then r.routes[id] else Route(None, None);
    With(r.(routes := r.routes[id := Put(route, role, Some(c))]), c,
         r.connections[c].(phase := Registered(id, role), windowStartedAt := now, frames := 0, bytes := 0,
           queuedBytes := 0))
  }

  /** Takes a connection out of the table, unless another one has its place by now. */
  function Unregister(r: Relay, c: nat): Relay
    requires c < |r.connections|
  {
    match r.connections[c].phase
    case Registered(id, role) =>
      if Lookup(r.routes, id, role) != Some(c) then r
      else
        var route := Put(r.routes[id], role, None);
        r.(routes := if route == Route(None, None) then r.routes - {id} else r.routes[id := route])
    case _ => r
  }

  function Shut(connections: seq<Connection>, c: Option<nat>): seq<Connection> {
    if c.Some? && c.value < |connections| then connections[c.value := connections[c.value].(open := false)]
      else connections
  }

  function CloseRoute(r: Relay, id: string): Relay {
    r.(routes := r.routes - {id},
       connections := Shut(Shut(r.connections, Lookup(r.routes, id, Host)), Lookup(r.routes, id, Device)))
  }

  // ----- forwarding -----

  function ConsumeRate(x: Connection, now: int, bytes: nat): Connection {
    if now - x.windowStartedAt >= RATE_WINDOW_MS then x.(windowStartedAt := now, frames := 1, bytes := bytes)
    else x.(frames := x.frames + 1, bytes := x.bytes + bytes)
  }

  predicate WithinRate(x: Connection) {
    x.frames <= MAX_FRAMES_PER_WINDOW && x.bytes <= MAX_BYTES_PER_WINDOW
  }

  predicate Backpressure(r: Relay, l: Limits, to: nat, bytes: nat, buffered: nat)
    requires to < |r.connections|
  {
    || Max(r.connections[to].queuedBytes, buffered) + bytes > l.maxQueuedBytesPerPeer
    || r.queuedBytes + bytes > l.maxQueuedBytesGlobal
  }

  function Queue(r: Relay, from: nat, to: nat, bytes: nat): Relay
    requires to < |r.connections|
  {
    With(r, to, r.connections[to].(queuedBytes := r.connections[to].queuedBytes + bytes))
      .(queuedBytes := r.queuedBytes + bytes, sends := r.sends + [Send(to, bytes, false)],
        deliveries := r.deliveries + [Delivery(from, to)])
  }

  /** Gives back the bytes of one send, the first time only. */
  function Release(r: Relay, s: nat): Relay
    requires s < |r.sends| && r.sends[s].to < |r.connections|
  {
    var send := r.sends[s];
    if send.released then r
    else
      With(r, send.to, r.connections[send.to].(queuedBytes := Max(0, r.connections[send.to].queuedBytes - send.bytes)))
        .(queuedBytes := Max(0, r.queuedBytes - send.bytes), sends := r.sends[s := send.(released := true)])
  }

  function RouteOf(x: Connection): string {
    if x.phase.Registered? then x.phase.routingId else ""
  }

  /** The socket's report on one send; it may come more than once. */
  function OnSent(r: Relay, s: nat, failed: bool): Relay
    requires s < |r.sends| && r.sends[s].to < |r.connections|
  {
    var released := Release(r, s);
    if failed then CloseRoute(released, RouteOf(r.connections[r.sends[s].to])) else released
  }

  /** `buffered` is what the socket holds itself; `throws` tells that its send call fails at once. */
  function Forward(r: Relay, l: Limits, from: nat, to: nat, bytes: nat, buffered: nat, throws: bool): Relay
    requires to < |r.connections|
  {
    if Backpressure(r, l, to, bytes, buffered) then CloseRoute(r, RouteOf(r.connections[to]))
    else
      var queued := Queue(r, from, to, bytes);
      if throws then OnSent(queued, |r.sends|, true) else queued
  }

  // ----- one message -----

  datatype Registration = Registration(routingId: string, role: Role)

  /** `registration` is the parsed text; `admitted` says the route is unrevoked and the ticket accepted. */
  datatype Message = Message(
    binary: bool, bytes: nat, registration: Option<Registration>, admitted: bool, now: int, buffered: nat, throws: bool)

  function OnRegistration(r: Relay, c: nat, m: Message): Relay
    requires c < |r.connections|
  {
    if m.binary || m.bytes > MAX_REGISTRATION_BYTES then CloseSocket(Refuse(r, c), c)
    else if m.registration.None? || !m.admitted
         || Lookup(r.routes, m.registration.value.routingId, m.registration.value.role).Some?
    then CloseSocket(ReleasePending(Refuse(r, c), c), c)
    else ReleasePending(Register(r, c, m.registration.value.routingId, m.registration.value.role, m.now), c)
  }

  function OnFrame(r: Relay, l: Limits, c: nat, m: Message): Relay
    requires c < |r.connections| && r.connections[c].phase.Registered?
  {
    if !m.binary then CloseSocket(r, c)
    else
      var rated := ConsumeRate(r.connections[c], m.now, m.bytes);
      var charged := With(r, c, rated);
      if !WithinRate(rated) then CloseSocket(charged, c)
      else
        var to := Lookup(r.routes, rated.phase.routingId, Opposite(rated.phase.role));
        if to.None? || to.value >= |r.connections| || !charged.connections[to.value].open then CloseSocket(charged, c)
        else Forward(charged, l, c, to.value, m.bytes, m.buffered, m.throws)
  }

  function OnMessage(r: Relay, l: Limits, c: nat, m: Message): Relay
    requires c < |r.connections|
  {
    if r.connections[c].closed then r
    else
      match r.connections[c].phase
      case Refused => r
      case Registering => OnRegistration(r, c, m)
      case Registered(_, _) => OnFrame(r, l, c, m)
  }

  /** The registration timer; registering or closing cancels it. */
  function OnTimeout(r: Relay, c: nat): Relay
    requires c < |r.connections|
  {
    if r.connections[c].closed || r.connections[c].phase.Registered? then r
    else CloseSocket(ReleasePending(Refuse(r, c), c), c)
  }

  function OnClose(r: Relay, c: nat): Relay
    requires c < |r.connections|
  {
    if r.connections[c].closed then r
    else
      var gone := With(r, c, r.connections[c].(open := false, closed := true));
      Unregister(ReleasePending(gone, c), c)
  }

  // ----- events -----

  /** HandshakeEnded is a failed handshake or a closed raw socket; Leaving is the far end starting to close. */
  datatype Event =
    | Upgraded(clients: nat, source: Option<string>, now: int)
    | HandshakeEnded(c: nat)
    | Received(c: nat, message: Message)
    | TimedOut(c: nat)
    | Leaving(c: nat)
    | Closed(c: nat)
    | Sent(send: nat, failed: bool)
    | RouteRevoked(routingId: string)

  /** Events of connections that do not exist do nothing. */
  function Step(r: Relay, l: Limits, e: Event): Relay {
    match e
    case Upgraded(clients, source, now) => OnUpgrade(r, l, clients, source, now)
    case HandshakeEnded(c) => if c < |r.connections| then ReleasePending(r, c) else r
    case Received(c, m) => if c < |r.connections| then OnMessage(r, l, c, m) else r
    case TimedOut(c) => if c < |r.connections| then OnTimeout(r, c) else r
    case Leaving(c) => if c < |r.connections| then CloseSocket(r, c) else r
    case Closed(c) => if c < |r.connections| then OnClose(r, c) else r
    case Sent(s, failed) => if s < |r.sends| && r.sends[s].to < |r.connections| then OnSent(r, s, failed) else r
    case RouteRevoked(id) => CloseRoute(r, id)
  }

  function Started(now: int): Relay {
    Relay(map[], [], 0, 0, [], [], Window(0, 0, map[], [], now, 0 <= now))
  }

  function Run(now: int, l: Limits, events: seq<Event>): Relay {
    if events == [] then Started(now) else Step(Run(now, l, events[..|events| - 1]), l, events[|events| - 1])
  }
}
