/** What each event does to the relay, told from the fields of its state and the source's own numbers. */
module RelayOutcomes {
  import opened Wrappers
  import opened KeyedWindow
  import opened RelayTickets
  import opened RelayState
  import opened RelayInvariants

  // ----- places and sockets -----

  /** The connection has the place of the role under the routing id. */
  predicate HasPlace(r: Relay, id: string, role: Role, c: nat) {
    id in r.routes && (if role == Host then r.routes[id].host else r.routes[id].device) == Some(c)
  }

  /** The connection is registered and its close event has not come. */
  predicate Peer(r: Relay, c: nat, id: string, role: Role) {
    c < |r.connections| && r.connections[c].phase == Registered(id, role) && !r.connections[c].closed
  }

  /** The connection's socket is open and it has the other place of the sender's routing id. */
  predicate Counterpart(r: Relay, id: string, role: Role, to: nat) {
    && HasPlace(r, id, if role == Host then Device else Host, to)
    && to < |r.connections| && r.connections[to].open
  }

  ghost predicate Alone(r: Relay, id: string, role: Role) { forall to :: !Counterpart(r, id, role, to) }

  /** No place changes. */
  ghost predicate SamePlaces(r: Relay, after: Relay) {
    forall id, role, c :: HasPlace(after, id, role, c) <==> HasPlace(r, id, role, c)
  }

  /** The places of the routing id are gone, all others stay. */
  ghost predicate RouteGone(r: Relay, after: Relay, id: string) {
    && id !in after.routes
    && forall other, role, c :: other != id ==> (HasPlace(after, other, role, c) <==> HasPlace(r, other, role, c))
  }

  predicate SameButSocket(x: Connection, y: Connection) { y == x.(open := y.open) }

  /** The sockets of these connections are closed, and nothing else happens to any connection. */
  ghost predicate Closes(a: seq<Connection>, b: seq<Connection>, gone: set<nat>) {
    && |b| == |a|
    && forall c | 0 <= c < |a| :: SameButSocket(a[c], b[c]) && (b[c].open <==> a[c].open && c !in gone)
  }

  /** Whoever has a place of the routing id. */
  function Placed(r: Relay, id: string): set<nat> {
    if id !in r.routes then {}
    else
      (if r.routes[id].host.Some? then {r.routes[id].host.value} else {}) +
      (if r.routes[id].device.Some? then {r.routes[id].device.value} else {})
  }

  /** `Placed` are those that have one of its two places. */
  lemma {:induction false} PlacedHavePlaces(r: Relay, id: string, c: nat)
    ensures c in Placed(r, id) <==> HasPlace(r, id, Host, c) || HasPlace(r, id, Device, c)
  {
  }

  /** Queues, histories, admissions and pending places stay as they are. */
  predicate SameCounters(r: Relay, after: Relay) {
    && after.pendingConnections == r.pendingConnections && after.queuedBytes == r.queuedBytes
    && after.sends == r.sends && after.deliveries == r.deliveries && after.window == r.window
  }

  /** A route is closed: its places are gone and the sockets of both are closed. */
  ghost predicate Shuts(r: Relay, after: Relay, connections: seq<Connection>, id: string) {
    RouteGone(r, after, id) && Closes(connections, after.connections, Placed(r, id))
  }

  lemma {:induction false} RouteCloses(r: Relay, id: string)
    requires Table(r)
    ensures var after := CloseRoute(r, id); Shuts(r, after, r.connections, id) && SameCounters(r, after)
  {
    assert Lookup(r.routes, id, Host).Some? ==> Lookup(r.routes, id, Host).value < |r.connections|;
    assert Lookup(r.routes, id, Device).Some? ==> Lookup(r.routes, id, Device).value < |r.connections|;
  }

  // ----- a frame -----

  /** The frames and the bytes of the connection's window once this message is counted. */
  function Counted(x: Connection, m: Message): (nat, nat) {
    if m.now - x.windowStartedAt >= 10_000 then (1, m.bytes) else (x.frames + 1, x.bytes + m.bytes)
  }

  /** The message passes the rate limit: at most 200 frames and 4 MiB in a window of ten seconds. */
  predicate Passes(x: Connection, m: Message) {
    Counted(x, m).0 <= 200 && Counted(x, m).1 <= 4_194_304
  }

  /** The connection once the message is counted. */
  function Charged(x: Connection, m: Message): Connection {
    x.(windowStartedAt := if m.now - x.windowStartedAt >= 10_000 then m.now else x.windowStartedAt,
       frames := Counted(x, m).0, bytes := Counted(x, m).1)
  }

  /** Both limits on queued bytes have room for the message; the socket's own buffer counts for the first. */
  predicate HasRoomFor(r: Relay, l: Limits, to: nat, m: Message)
    requires to < |r.connections|
  {
    && r.connections[to].queuedBytes + m.bytes <= l.maxQueuedBytesPerPeer
    && m.buffered + m.bytes <= l.maxQueuedBytesPerPeer
    && r.queuedBytes + m.bytes <= l.maxQueuedBytesGlobal
  }

  /** One more send of the message's bytes, still to be reported on, and one more delivery. */
  ghost predicate Forwards(r: Relay, after: Relay, c: nat, to: nat, m: Message)
    requires c < |r.connections| && to < |r.connections|
  {
    && SamePlaces(r, after)
    && after.connections == r.connections[c := Charged(r.connections[c], m)][
         to := r.connections[to].(queuedBytes := r.connections[to].queuedBytes + m.bytes)]
    && after.queuedBytes == r.queuedBytes + m.bytes
    && after.sends == r.sends + [Send(to, m.bytes, false)] && after.deliveries == r.deliveries + [Delivery(c, to)]
    && after.window == r.window && after.pendingConnections == r.pendingConnections
  }

  /** The socket's send call failed: nothing stays queued and the route is closed. */
  ghost predicate Throws(r: Relay, after: Relay, id: string, c: nat, to: nat, m: Message)
    requires c < |r.connections|
  {
    && Shuts(r, after, r.connections[c := Charged(r.connections[c], m)], id)
    && after.queuedBytes == r.queuedBytes
    && after.sends == r.sends + [Send(to, m.bytes, true)] && after.deliveries == r.deliveries + [Delivery(c, to)]
    && after.window == r.window && after.pendingConnections == r.pendingConnections
  }

  /** Only the message is counted, and these sockets are closed. */
  ghost predicate OnlyCloses(r: Relay, after: Relay, connections: seq<Connection>, gone: set<nat>) {
    SamePlaces(r, after) && Closes(connections, after.connections, gone) && SameCounters(r, after)
  }

  lemma {:induction false} CounterpartIsFiled(r: Relay, id: string, role: Role, to: nat)
    requires Counterpart(r, id, role, to)
    ensures Lookup(r.routes, id, Opposite(role)) == Some(to)
  {
  }

  lemma {:induction false} AloneIsUnfiled(r: Relay, id: string, role: Role)
    requires Alone(r, id, role)
    ensures var to := Lookup(r.routes, id, Opposite(role));
      to.None? || to.value >= |r.connections| || !r.connections[to.value].open
  {
    var to := Lookup(r.routes, id, Opposite(role));
    if to.Some? { assert !Counterpart(r, id, role, to.value); }
  }

  lemma {:induction false} OneSocketCloses(r: Relay, c: nat)
    requires c < |r.connections|
    ensures OnlyCloses(r, CloseSocket(r, c), r.connections, {c})
  {
  }

  lemma {:induction false} RefusedCloses(r: Relay, l: Limits, c: nat, m: Message, id: string, role: Role)
    requires Table(r) && Peer(r, c, id, role)
    requires !m.binary || !Passes(r.connections[c], m) || Alone(r, id, role)
    ensures Step(r, l, Received(c, m)) ==
      CloseSocket(if m.binary then r.(connections := r.connections[c := Charged(r.connections[c], m)]) else r, c)
  {
    if Alone(r, id, role) {
      AloneIsUnfiled(r, id, role);
      assert Lookup(r.routes, id, Opposite(role)) != Some(c);
    }
  }

  /** A text message of a peer closes the peer, and so does one over the rate limit or without a counterpart. */
  lemma {:induction false} FrameIsRefused(r: Relay, l: Limits, c: nat, m: Message, id: string, role: Role)
    requires Table(r) && Peer(r, c, id, role)
    requires !m.binary || !Passes(r.connections[c], m) || Alone(r, id, role)
    ensures OnlyCloses(r, Step(r, l, Received(c, m)),
              if m.binary then r.connections[c := Charged(r.connections[c], m)] else r.connections, {c})
  {
    var counted := if m.binary then r.(connections := r.connections[c := Charged(r.connections[c], m)]) else r;
    OneSocketCloses(counted, c);
    RefusedCloses(r, l, c, m, id, role);
  }

  /** Without room at its counterpart a message that passes closes the whole route. */
  lemma {:induction false} FrameIsTooMuch(
    r: Relay, l: Limits, c: nat, m: Message, id: string, role: Role, to: nat)
    requires Table(r) && Peer(r, c, id, role) && m.binary && Passes(r.connections[c], m)
    requires Counterpart(r, id, role, to) && !HasRoomFor(r, l, to, m)
    ensures var after, charged := Step(r, l, Received(c, m)), r.connections[c := Charged(r.connections[c], m)];
      Shuts(r, after, charged, id) && SameCounters(r, after)
  {
    hide CloseRoute;
    var charged := r.(connections := r.connections[c := Charged(r.connections[c], m)]);
    CounterpartIsFiled(r, id, role, to);
    SameTable(r, charged);
    RouteCloses(charged, id);
    assert Step(r, l, Received(c, m)) == CloseRoute(charged, id);
  }

  lemma {:induction false} FrameIsQueued(r: Relay, l: Limits, c: nat, m: Message, id: string, role: Role, to: nat)
    requires Table(r) && Peer(r, c, id, role) && m.binary && Passes(r.connections[c], m)
    requires Counterpart(r, id, role, to) && HasRoomFor(r, l, to, m)
    ensures c != to
    ensures var charged := r.(connections := r.connections[c := Charged(r.connections[c], m)]);
      Step(r, l, Received(c, m)) ==
      if m.throws then OnSent(Queue(charged, c, to, m.bytes), |r.sends|, true) else Queue(charged, c, to, m.bytes)
  {
    CounterpartIsFiled(r, id, role, to);
    assert r.connections[to].phase == Registered(id, Opposite(role));
  }

  lemma {:induction false} ReleasedAtOnce(r: Relay, l: Limits, from: nat, to: nat, bytes: nat)
    requires Table(r) && Accounts(r, l) && to < |r.connections| && r.connections[to].phase.Registered?
    ensures var queued := Queue(r, from, to, bytes);
      Release(queued, |r.sends|) ==
      r.(sends := r.sends + [Send(to, bytes, true)], deliveries := r.deliveries + [Delivery(from, to)])
  {
    var queued := Queue(r, from, to, bytes);
    var released := Release(queued, |r.sends|);
    assert 0 <= r.connections[to].queuedBytes && 0 <= r.queuedBytes;
    assert released.connections == r.connections;
    assert queued.sends[|r.sends| := Send(to, bytes, true)] == r.sends + [Send(to, bytes, true)];
  }

  lemma {:induction false} FrameIsForwarded(r: Relay, l: Limits, c: nat, m: Message, id: string, role: Role, to: nat)
    requires Table(r) && Peer(r, c, id, role) && m.binary && Passes(r.connections[c], m) && !m.throws
    requires Counterpart(r, id, role, to) && HasRoomFor(r, l, to, m)
    ensures Forwards(r, Step(r, l, Received(c, m)), c, to, m)
  {
    FrameIsQueued(r, l, c, m, id, role, to);
    hide Step;
  }

  lemma {:induction false} FrameIsThrown(r: Relay, l: Limits, c: nat, m: Message, id: string, role: Role, to: nat)
    requires Table(r) && Accounts(r, l) && Peer(r, c, id, role) && m.binary && Passes(r.connections[c], m) && m.throws
    requires Counterpart(r, id, role, to) && HasRoomFor(r, l, to, m)
    ensures Throws(r, Step(r, l, Received(c, m)), id, c, to, m)
  {
    FrameIsQueued(r, l, c, m, id, role, to);
    CounterpartIsFiled(r, id, role, to);
    var charged := r.(connections := r.connections[c := Charged(r.connections[c], m)]);
    SameTable(r, charged);
    UntouchedKeepsAccounts(r, charged, l);
    ReleasedAtOnce(charged, l, c, to, m.bytes);
    var released := charged.(
      sends := r.sends + [Send(to, m.bytes, true)], deliveries := r.deliveries + [Delivery(c, to)]);
    SameTable(charged, released);
    RouteCloses(released, id);
    assert Step(r, l, Received(c, m)) == CloseRoute(released, id);
  }

  /** With room a message that passes is sent on, and a send that throws at once closes the route. */
  lemma {:induction false} FrameIsSentOn(r: Relay, l: Limits, c: nat, m: Message, id: string, role: Role, to: nat)
    requires Table(r) && Accounts(r, l) && Peer(r, c, id, role) && m.binary && Passes(r.connections[c], m)
    requires Counterpart(r, id, role, to) && HasRoomFor(r, l, to, m)
    ensures var after := Step(r, l, Received(c, m));
      if m.throws then Throws(r, after, id, c, to, m) else Forwards(r, after, c, to, m)
  {
    hide Step, Throws, Forwards, Table;
    if m.throws {
      FrameIsThrown(r, l, c, m, id, role, to);
    } else {
      FrameIsForwarded(r, l, c, m, id, role, to);
    }
  }

  /** A binary message of a peer that passes the rate limit, with an open counterpart that has room for it. */
  predicate Goes(r: Relay, l: Limits, c: nat, m: Message, to: nat) {
    && c < |r.connections| && r.connections[c].phase.Registered? && !r.connections[c].closed
    && m.binary && Passes(r.connections[c], m)
    && Counterpart(r, r.connections[c].phase.routingId, r.connections[c].phase.role, to) && HasRoomFor(r, l, to, m)
  }

  lemma {:induction false} NothingIsSentOn(r: Relay, l: Limits, c: nat, m: Message)
    requires Table(r) && Accounts(r, l) && forall to :: !Goes(r, l, c, m, to)
    ensures var after := Step(r, l, Received(c, m)); after.deliveries == r.deliveries && after.sends == r.sends
  {
    if IsRegistered(r, c) && !r.connections[c].closed {
      var Registered(id, role) := r.connections[c].phase;
      if m.binary && Passes(r.connections[c], m) && !Alone(r, id, role) {
        var to: nat :| Counterpart(r, id, role, to);
        assert !Goes(r, l, c, m, to);
        FrameIsTooMuch(r, l, c, m, id, role, to);
      } else {
        FrameIsRefused(r, l, c, m, id, role);
      }
    }
  }

  /**
   * A message is forwarded to a connection exactly when it is binary and from a peer that has not closed, passes the
   * rate limit, and finds there its open counterpart with room in both queues; it stays queued exactly when the send
   * does not throw.
   */
  lemma {:induction false} ForwardedExactly(r: Relay, l: Limits, c: nat, m: Message, to: nat)
    requires Good(r, l)
    ensures var after := Step(r, l, Received(c, m));
      && (after.deliveries == r.deliveries + [Delivery(c, to)] <==> Goes(r, l, c, m, to))
      && (after.sends == r.sends + [Send(to, m.bytes, false)] <==> Goes(r, l, c, m, to) && !m.throws)
      && (after.sends == r.sends + [Send(to, m.bytes, true)] <==> Goes(r, l, c, m, to) && m.throws)
      && ((forall other :: !Goes(r, l, c, m, other)) ==> after.deliveries == r.deliveries && after.sends == r.sends)
  {
    var after := Step(r, l, Received(c, m));
    if other :| Goes(r, l, c, m, other) {
      FrameIsSentOn(r, l, c, m, r.connections[c].phase.routingId, r.connections[c].phase.role, other);
      assert after.deliveries[|r.deliveries|] == Delivery(c, other);
      assert after.sends[|r.sends|] == Send(other, m.bytes, m.throws);
      assert Goes(r, l, c, m, to) ==> to == other;
    } else {
      NothingIsSentOn(r, l, c, m);
    }
  }

  // ----- registering -----

  /** A text of at most 2 KiB that parses, for a place nobody has, with an accepted ticket for a standing route. */
  ghost predicate Joins(r: Relay, m: Message) {
    && !m.binary && m.bytes <= 2048 && m.registration.Some? && m.admitted
    && forall d :: !HasPlace(r, m.registration.value.routingId, m.registration.value.role, d)
  }

  predicate Unregistered(r: Relay, c: nat) {
    c < |r.connections| && r.connections[c].phase.Registering? && !r.connections[c].closed
  }

  /** The connection gives back its place among the pending ones, once. */
  predicate Returned(r: Relay, after: Relay, c: nat)
    requires c < |r.connections|
  {
    after.pendingConnections == r.pendingConnections - (if r.connections[c].pending then 1 else 0)
  }

  predicate SameQueues(r: Relay, after: Relay) {
    && after.queuedBytes == r.queuedBytes && after.sends == r.sends && after.deliveries == r.deliveries
    && after.window == r.window
  }

  /** The first message of a connection registers it exactly when it joins, with its counters at zero. */
  lemma {:induction false} RegisteredExactly(r: Relay, l: Limits, c: nat, m: Message)
    requires Good(r, l) && Unregistered(r, c) && Joins(r, m)
    ensures var after, x := Step(r, l, Received(c, m)), r.connections[c];
      var Registration(id, role) := m.registration.value;
      && (forall other, place, d :: HasPlace(after, other, place, d) <==>
            HasPlace(r, other, place, d) || (other == id && place == role && d == c))
      && after.connections == r.connections[c := Connection(Registered(id, role), x.open, false, false, m.now, 0, 0, 0)]
      && Returned(r, after, c) && SameQueues(r, after)
  {
    var Registration(id, role) := m.registration.value;
    assert Lookup(r.routes, id, role).Some? ==> HasPlace(r, id, role, Lookup(r.routes, id, role).value);
    var filed := Register(r, c, id, role, m.now);
    assert Step(r, l, Received(c, m)) == ReleasePending(filed, c);
    ReleaseKeepsPending(r, l, c);
  }

  /** Anything else closes its socket for good; a place is given back unless the message was no text of that size. */
  lemma {:induction false} RegistrationRefused(r: Relay, l: Limits, c: nat, m: Message)
    requires Good(r, l) && Unregistered(r, c) && !Joins(r, m)
    ensures var after, x := Step(r, l, Received(c, m)), r.connections[c];
      var kept := m.binary || m.bytes > 2048;
      && SamePlaces(r, after) && SameQueues(r, after)
      && after.connections == r.connections[c := x.(phase := Refused, open := false, pending := x.pending && kept)]
      && (if kept then after.pendingConnections == r.pendingConnections else Returned(r, after, c))
  {
    if m.registration.Some? {
      var Registration(id, role) := m.registration.value;
      if d: nat :| HasPlace(r, id, role, d) { assert Lookup(r.routes, id, role) == Some(d); }
    }
    ReleaseKeepsPending(r, l, c);
  }

  /** Messages of a refused or closed connection do nothing. */
  lemma {:induction false} OthersAreSilent(r: Relay, l: Limits, c: nat, m: Message)
    requires c < |r.connections| ==> r.connections[c].phase.Refused? || r.connections[c].closed
    ensures Step(r, l, Received(c, m)) == r
  {
  }

  // ----- upgrades -----

  /** A new window starts with this request. */
  predicate NewWindowDue(r: Relay, l: Limits, now: int) { now - r.window.startedAt >= l.upgradeWindowMs }

  function TotalThen(r: Relay, l: Limits, now: int): nat {
    if NewWindowDue(r, l, now) then 0 else r.window.total
  }

  function OfSourceThen(r: Relay, l: Limits, source: string, now: int): nat {
    if NewWindowDue(r, l, now) || source !in r.window.bySource then 0 else r.window.bySource[source]
  }

  predicate Full(r: Relay, l: Limits, clients: nat) {
    clients >= l.maxActiveConnections || r.pendingConnections >= l.maxPendingConnections
  }

  predicate TooMany(r: Relay, l: Limits, source: string, now: int) {
    TotalThen(r, l, now) >= l.maxUpgradesPerWindow || OfSourceThen(r, l, source, now) >= l.maxUpgradesPerSource
  }

  /** An upgrade is refused when the server is full, the source unknown, or its window used up, in this order. */
  lemma {:induction false} UpgradeRefusedExactly(r: Relay, l: Limits, clients: nat, source: Option<string>, now: int)
    ensures AdmitUpgrade(r, l, clients, source, now).1 ==
      if Full(r, l, clients) then Some(ServiceUnavailable)
      else if source.None? then Some(BadRequest)
      else if TooMany(r, l, source.value, now) then Some(TooManyRequests) else None
    ensures var after := Step(r, l, Upgraded(clients, source, now));
      && after.routes == r.routes && after.sends == r.sends && after.queuedBytes == r.queuedBytes
      && after.deliveries == r.deliveries
      && (Full(r, l, clients) || source.None? ==> after == r)
      && (!Full(r, l, clients) && source.Some? && TooMany(r, l, source.value, now) ==>
            after.connections == r.connections && after.pendingConnections == r.pendingConnections)
  {
  }

  /** Otherwise it becomes one more pending connection, and is counted in total and for its source. */
  lemma {:induction false} UpgradeAdmitted(r: Relay, l: Limits, clients: nat, source: string, now: int)
    requires !Full(r, l, clients) && !TooMany(r, l, source, now)
    ensures var after := Step(r, l, Upgraded(clients, Some(source), now));
      && after.connections == r.connections + [Connection(Registering, true, false, true, 0, 0, 0, 0)]
      && after.pendingConnections == r.pendingConnections + 1
      && after.window.startedAt == (if NewWindowDue(r, l, now) then now else r.window.startedAt)
      && after.window.total == TotalThen(r, l, now) + 1
      && source in after.window.bySource && after.window.bySource[source] == OfSourceThen(r, l, source, now) + 1
      && (forall other :: other != source ==> CountOf(after.window.bySource, other) == OfSourceThen(r, l, other, now))
  {
  }

  // ----- the end of a connection, of a send and of a route -----

  /** The timer refuses and closes a connection that has neither registered nor closed. */
  lemma {:induction false} TimeoutRefusesExactly(r: Relay, l: Limits, c: nat)
    requires Good(r, l) && c < |r.connections|
    ensures var after, x := Step(r, l, TimedOut(c)), r.connections[c];
      if x.closed || x.phase.Registered? then after == r
      else
        && SamePlaces(r, after) && SameQueues(r, after) && Returned(r, after, c)
        && after.connections == r.connections[c := x.(phase := Refused, open := false, pending := false)]
  {
    ReleaseKeepsPending(r, l, c);
  }

  /** The close event takes the connection, and nobody else, from its place. */
  lemma {:induction false} CloseLeavesExactly(r: Relay, l: Limits, c: nat)
    requires Good(r, l) && c < |r.connections|
    ensures var after, x := Step(r, l, Closed(c)), r.connections[c];
      if x.closed then after == r
      else
        && (forall id, role, d :: HasPlace(after, id, role, d) <==> HasPlace(r, id, role, d) && d != c)
        && SameQueues(r, after) && Returned(r, after, c)
        && after.connections == r.connections[c := x.(open := false, closed := true, pending := false)]
  {
    ReleaseKeepsPending(r, l, c);
    var after, x := Step(r, l, Closed(c)), r.connections[c];
    if !x.closed {
      assert after.connections == r.connections[c := x.(open := false, closed := true, pending := false)];
      forall id, role, d
        ensures HasPlace(after, id, role, d) <==> HasPlace(r, id, role, d) && d != c
      {
        assert HasPlace(after, id, role, d) <==> Lookup(after.routes, id, role) == Some(d);
        assert HasPlace(r, id, role, d) <==> Lookup(r.routes, id, role) == Some(d);
        ClosingSparesOthers(r, c, id, role);
      }
    }
  }

  /** A raw socket that ends during the handshake gives back its pending place; a leaving one is no longer open. */
  lemma {:induction false} EndsExactly(r: Relay, l: Limits, c: nat)
    requires Good(r, l) && c < |r.connections|
    ensures var after, x := Step(r, l, HandshakeEnded(c)), r.connections[c];
      && after.routes == r.routes && SameQueues(r, after) && Returned(r, after, c)
      && after.connections == r.connections[c := x.(pending := false)]
    ensures Step(r, l, Leaving(c)) == r.(connections := r.connections[c := r.connections[c].(open := false)])
  {
    ReleaseKeepsPending(r, l, c);
  }

  /** The first report on a send gives back its bytes, and later ones nothing. */
  lemma {:induction false} BytesGivenBack(r: Relay, l: Limits, s: nat)
    requires Accounts(r, l) && s < |r.sends|
    ensures var send := r.sends[s];
      var given, x := if send.released then 0 else send.bytes, r.connections[send.to];
      Release(r, s) == r.(
        connections := r.connections[send.to := x.(queuedBytes := x.queuedBytes - given)],
        queuedBytes := r.queuedBytes - given, sends := r.sends[s := send.(released := true)])
  {
    ReleaseKeepsAccounts(r, l, s);
    if r.sends[s].released {
      assert r.sends[s := r.sends[s].(released := true)] == r.sends;
      assert Release(r, s).connections == r.connections;
    }
  }

  /** A report gives back the bytes of its send, and a failure closes the route of the send's connection. */
  lemma {:induction false} ReportSettlesExactly(r: Relay, l: Limits, s: nat, failed: bool)
    requires Good(r, l) && s < |r.sends|
    ensures var after, send := Step(r, l, Sent(s, failed)), r.sends[s];
      var given, x := if send.released then 0 else send.bytes, r.connections[send.to];
      var settled := r.connections[send.to := x.(queuedBytes := x.queuedBytes - given)];
      && after.queuedBytes == r.queuedBytes - given && after.sends == r.sends[s := send.(released := true)]
      && after.deliveries == r.deliveries && after.window == r.window
      && after.pendingConnections == r.pendingConnections
      && (if failed then Shuts(r, after, settled, x.phase.routingId)
          else SamePlaces(r, after) && after.connections == settled)
  {
    BytesGivenBack(r, l, s);
    var released := Release(r, s);
    SameTable(r, released);
    RouteCloses(released, RouteOf(r.connections[r.sends[s].to]));
  }

  /** A revoked route is closed, with the sockets of both. */
  lemma {:induction false} RevocationShuts(r: Relay, l: Limits, id: string)
    requires Good(r, l)
    ensures var after := Step(r, l, RouteRevoked(id)); Shuts(r, after, r.connections, id) && SameCounters(r, after)
  {
    RouteCloses(r, id);
  }
}
