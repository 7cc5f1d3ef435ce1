/** The relay server itself: handlers that update its fields, each proved to take one step of the state machine. */
module RelayServer {
  import opened Wrappers
  import opened SlidingWindow
  import opened KeyedWindow
  import opened ReplayCache
  import opened RelayTickets
  import opened RelayState
  import opened RelayInvariants

  /** A registration message as it arrives, ticket included. */
  datatype Claim = Claim(routingId: string, role: Role, ticket: string)

  /** The ticket of the claim was authentic and in scope, and was used up between the two logs. */
  ghost predicate Redeemed(
    verifies: (string, string) -> bool, read: string -> Option<Payload>, claim: Claim, before: seq<Happening>,
    after: seq<Happening>)
  {
    exists p :: Authentic(verifies, read, claim.ticket, p) && p.routingId == claim.routingId && p.role == claim.role
                && Took(before, after, p)
  }

  /** The route stands, the place is free, and the ticket can be redeemed. */
  ghost predicate Wins(
    verifies: (string, string) -> bool, read: string -> Option<Payload>, claim: Claim, revoked: bool,
    routes: map<string, Route>, c: Cache, now: int, later: int, limit: nat)
  {
    && !revoked && Lookup(routes, claim.routingId, claim.role).None?
    && exists p :: Redeemable(verifies, read, claim.ticket, claim.routingId, claim.role, c, now, later, limit, p)
  }

  /** An accepted ticket is redeemed, and a refused one leaves nothing behind. */
  lemma {:induction false} TicketRedeemed(
    verifies: (string, string) -> bool, read: string -> Option<Payload>, claim: Claim, c: Cache, now: int, later: int,
    limit: nat, interval: nat, p: Payload)
    requires Inspect(verifies, read, claim.ticket, claim.routingId, claim.role) == Ok(p)
    ensures var (after, error) := Admit(c, p, now, later, limit, interval);
      if error.None? then Redeemed(verifies, read, claim, c.log, after.log) else TookNothing(c.log, after.log)
  {
    InspectionPasses(verifies, read, claim.ticket, claim.routingId, claim.role, p);
    AttemptOutcome(c, p, now, later, limit, interval);
  }

  ghost predicate FiledAs(r: Relay, c: nat, claim: Claim) {
    c < |r.connections| && r.connections[c].phase == Registered(claim.routingId, claim.role)
  }

  lemma {:induction false} OnlyAdmittedRegister(r: Relay, l: Limits, c: nat, m: Message)
    requires c < |r.connections| && !IsRegistered(r, c)
    ensures IsRegistered(OnMessage(r, l, c, m), c) ==>
      && !r.connections[c].closed && r.connections[c].phase.Registering? && !m.binary
      && m.bytes <= MAX_REGISTRATION_BYTES
      && m.admitted && m.registration.Some?
      && OnMessage(r, l, c, m).connections[c].phase == Registered(m.registration.value.routingId,
           m.registration.value.role)
  {
  }

  class OpaqueRelayServer {
    const limits: Limits
    const tickets: RelayTicketAuthority
    var routes: map<string, Route>
    var connections: seq<Connection>
    var pendingConnections: int
    var queuedBytes: int
    var sends: seq<Send>
    var upgradeWindowStartedAt: int
    var upgradesInWindow: nat
    var upgradesBySource: map<string, nat>
    ghost var deliveries: seq<Delivery>
    ghost var grants: seq<Grant<string>>
    ghost var clock: int
    ghost var steady: bool

    ghost function State(): Relay
      reads this
    {
      Relay(routes, connections, pendingConnections, queuedBytes, sends, deliveries,
            Window(upgradeWindowStartedAt, upgradesInWindow, upgradesBySource, grants, clock, steady))
    }

    ghost predicate Valid()
      reads this
    {
      1 <= limits.upgradeWindowMs && Good(State(), limits)
    }

    constructor (limits: Limits, tickets: RelayTicketAuthority, now: int)
      requires 1 <= limits.upgradeWindowMs
      ensures Valid() && this.limits == limits && this.tickets == tickets && State() == Started(now)
    {
      this.limits, this.tickets := limits, tickets;
      routes, connections, pendingConnections, queuedBytes, sends := map[], [], 0, 0, [];
      upgradeWindowStartedAt, upgradesInWindow, upgradesBySource := 0, 0, map[];
      deliveries, grants, clock, steady := [], [], now, 0 <= now;
      new;
      EveryRunIsGood(now, limits, []);
    }

    // ----- helpers, each tied to its function on the state -----

    method Admit(clients: nat, source: Option<string>, now: int) returns (refusal: Option<RelayState.Refusal>)
      modifies this`upgradeWindowStartedAt, this`upgradesInWindow, this`upgradesBySource, this`grants, this`clock,
        this`steady
      ensures (State().window, refusal) == AdmitUpgrade(old(State()), limits, clients, source, now)
    {
      if clients >= limits.maxActiveConnections { return Some(ServiceUnavailable); }
      if pendingConnections >= limits.maxPendingConnections { return Some(ServiceUnavailable); }
      if source.None? { return Some(BadRequest); }
      steady, clock := steady && clock <= now, now;
      if now - upgradeWindowStartedAt >= limits.upgradeWindowMs {
        upgradeWindowStartedAt := now;
        upgradesInWindow := 0;
        upgradesBySource := map[];
      }
      if upgradesInWindow >= limits.maxUpgradesPerWindow { return Some(TooManyRequests); }
      var sourceCount := CountOf(upgradesBySource, source.value);
      if sourceCount >= limits.maxUpgradesPerSource { return Some(TooManyRequests); }
      grants := grants + [Grant(now, upgradeWindowStartedAt, source.value)];
      upgradesInWindow := upgradesInWindow + 1;
      upgradesBySource := upgradesBySource[source.value := sourceCount + 1];
      return None;
    }

    method Accept(clients: nat, source: Option<string>, now: int) returns (refusal: Option<RelayState.Refusal>)
      modifies this
      ensures State() == OnUpgrade(old(State()), limits, clients, source, now)
      ensures refusal == AdmitUpgrade(old(State()), limits, clients, source, now).1
    {
      refusal := Admit(clients, source, now);
      if refusal.None? {
        pendingConnections := pendingConnections + 1;
        connections := connections + [Connection(Registering, true, false, true, 0, 0, 0, 0)];
      }
    }

    method GiveUpPending(c: nat)
      requires c < |connections|
      modifies this`connections, this`pendingConnections
      ensures State() == ReleasePending(old(State()), c)
    {
      if !connections[c].pending { return; }
      connections := connections[c := connections[c].(pending := false)];
      pendingConnections := Max(0, pendingConnections - 1);
    }

    method Close(c: nat)
      requires c < |connections|
      modifies this`connections
      ensures State() == CloseSocket(old(State()), c)
    {
      connections := connections[c := connections[c].(open := false)];
    }

    method File(c: nat, id: string, role: Role, now: int)
      requires c < |connections|
      modifies this`connections, this`routes
      ensures State() == Register(old(State()), c, id, role, now)
    {
      var route := if id in routes then routes[id] else Route(None, None);
      route := Put(route, role, Some(c));
      routes := routes[id := route];
      connections := connections[c := connections[c].(
        phase := Registered(id, role), windowStartedAt := now, frames := 0, bytes := 0, queuedBytes := 0)];
    }

    method Unfile(c: nat)
      requires c < |connections|
      modifies this`routes
      ensures State() == Unregister(old(State()), c)
    {
      if !connections[c].phase.Registered? { return; }
      var Registered(id, role) := connections[c].phase;
      if id !in routes || At(routes[id], role) != Some(c) { return; }
      var route := Put(routes[id], role, None);
      if route.host.None? && route.device.None? {
        routes := routes - {id};
      } else {
        routes := routes[id := route];
      }
    }

    method ShutRoute(id: string)
      modifies this`routes, this`connections
      ensures State() == CloseRoute(old(State()), id)
    {
      if id in routes {
        var route := routes[id];
        routes := routes - {id};
        connections := Shut(Shut(connections, route.host), route.device);
      } else {
        assert routes - {id} == routes;
      }
    }

    method ReleaseSend(s: nat)
      requires s < |sends| && sends[s].to < |connections|
      modifies this`connections, this`queuedBytes, this`sends
      ensures State() == Release(old(State()), s)
    {
      var send := sends[s];
      if send.released { return; }
      sends := sends[s := send.(released := true)];
      var peer := connections[send.to];
      connections := connections[send.to := peer.(queuedBytes := Max(0, peer.queuedBytes - send.bytes))];
      queuedBytes := Max(0, queuedBytes - send.bytes);
    }

    method Settle(s: nat, failed: bool)
      requires s < |sends| && sends[s].to < |connections|
      modifies this`connections, this`queuedBytes, this`sends, this`routes
      ensures State() == OnSent(old(State()), s, failed)
    {
      var id := RouteOf(connections[sends[s].to]);
      ReleaseSend(s);
      if failed { ShutRoute(id); }
    }

    method Enqueue(from: nat, to: nat, bytes: nat)
      requires to < |connections|
      modifies this`connections, this`queuedBytes, this`sends, this`deliveries
      ensures State() == Queue(old(State()), from, to, bytes)
    {
      var peer := connections[to];
      connections := connections[to := peer.(queuedBytes := peer.queuedBytes + bytes)];
      queuedBytes := queuedBytes + bytes;
      sends := sends + [Send(to, bytes, false)];
      deliveries := deliveries + [Delivery(from, to)];
    }

    method SendOn(from: nat, to: nat, bytes: nat, buffered: nat, throws: bool)
      requires to < |connections|
      modifies this`connections, this`queuedBytes, this`sends, this`routes, this`deliveries
      ensures State() == Forward(old(State()), limits, from, to, bytes, buffered, throws)
    {
      var peer := connections[to];
      var peerQueued := Max(peer.queuedBytes, buffered);
      if peerQueued + bytes > limits.maxQueuedBytesPerPeer || queuedBytes + bytes > limits.maxQueuedBytesGlobal {
        ShutRoute(RouteOf(peer));
        return;
      }
      Enqueue(from, to, bytes);
      if throws { Settle(|sends| - 1, true); }
    }

    // ----- handlers -----

    method HandleUpgrade(clients: nat, source: Option<string>, now: int) returns (refusal: Option<RelayState.Refusal>)
      requires Valid()
      modifies this
      ensures Valid() && State() == Step(old(State()), limits, Upgraded(clients, source, now))
      ensures refusal == AdmitUpgrade(old(State()), limits, clients, source, now).1
    {
      StepKeepsGood(State(), limits, Upgraded(clients, source, now));
      refusal := Accept(clients, source, now);
    }

    method HandleHandshakeEnd(c: nat)
      requires Valid() && c < |connections|
      modifies this
      ensures Valid() && State() == Step(old(State()), limits, HandshakeEnded(c))
    {
      StepKeepsGood(State(), limits, HandshakeEnded(c));
      GiveUpPending(c);
    }

    method HandleTimeout(c: nat)
      requires Valid() && c < |connections|
      modifies this
      ensures Valid() && State() == Step(old(State()), limits, TimedOut(c))
    {
      StepKeepsGood(State(), limits, TimedOut(c));
      if connections[c].closed || connections[c].phase.Registered? { return; }
      connections := connections[c := connections[c].(phase := Refused)];
      GiveUpPending(c);
      Close(c);
    }

    method HandleClose(c: nat)
      requires Valid() && c < |connections|
      modifies this
      ensures Valid() && State() == Step(old(State()), limits, Closed(c))
    {
      StepKeepsGood(State(), limits, Closed(c));
      if connections[c].closed { return; }
      connections := connections[c := connections[c].(open := false, closed := true)];
      GiveUpPending(c);
      Unfile(c);
    }

    method HandleSent(s: nat, failed: bool)
      requires Valid() && s < |sends|
      modifies this
      ensures Valid() && State() == Step(old(State()), limits, Sent(s, failed))
    {
      StepKeepsGood(State(), limits, Sent(s, failed));
      Settle(s, failed);
    }

    method HandleRevocation(id: string)
      requires Valid()
      modifies this
      ensures Valid() && State() == Step(old(State()), limits, RouteRevoked(id))
    {
      StepKeepsGood(State(), limits, RouteRevoked(id));
      ShutRoute(id);
    }

    /** Whether this very registration may be filed; a free place is checked before the ticket is used up. */
    method TakeTicket(claim: Claim, revoked: bool, now: int, later: int) returns (admitted: bool)
      requires tickets.Valid()
      modifies tickets
      ensures tickets.Valid()
      ensures revoked || Lookup(routes, claim.routingId, claim.role).Some? ==>
        !admitted && tickets.State() == old(tickets.State())
      ensures admitted ==> Redeemed(tickets.verifies, tickets.read, claim, old(tickets.log), tickets.log)
      ensures !admitted ==> TookNothing(old(tickets.log), tickets.log)
      ensures admitted <==>
        Wins(tickets.verifies, tickets.read, claim, revoked, routes, old(tickets.State()), now, later,
          tickets.maxTrackedTickets)
    {
      if revoked || Lookup(routes, claim.routingId, claim.role).Some? { return false; }
      ghost var before := tickets.State();
      var error := tickets.Consume(claim.ticket, claim.routingId, claim.role, now, later);
      ghost var inspected := Inspect(tickets.verifies, tickets.read, claim.ticket, claim.routingId, claim.role);
      if inspected.Ok? {
        TicketRedeemed(tickets.verifies, tickets.read, claim, before, now, later, tickets.maxTrackedTickets,
          tickets.pruneIntervalMs, inspected.value);
      }
      return error.None?;
    }

    method HandleRegistration(c: nat, m: Message)
      requires c < |connections|
      modifies this
      ensures State() == OnRegistration(old(State()), c, m)
    {
      if m.binary || m.bytes > MAX_REGISTRATION_BYTES {
        connections := connections[c := connections[c].(phase := Refused)];
        Close(c);
      } else if m.registration.None? || !m.admitted
                || Lookup(routes, m.registration.value.routingId, m.registration.value.role).Some? {
        connections := connections[c := connections[c].(phase := Refused)];
        GiveUpPending(c);
        Close(c);
      } else {
        File(c, m.registration.value.routingId, m.registration.value.role, m.now);
        GiveUpPending(c);
      }
    }

    method HandleFrame(c: nat, m: Message)
      requires c < |connections| && connections[c].phase.Registered?
      modifies this
      ensures State() == OnFrame(old(State()), limits, c, m)
    {
      if !m.binary {
        Close(c);
        return;
      }
      var peer := ConsumeRate(connections[c], m.now, m.bytes);
      connections := connections[c := peer];
      if !WithinRate(peer) {
        Close(c);
        return;
      }
      var counterpart := Lookup(routes, peer.phase.routingId, Opposite(peer.phase.role));
      if counterpart.None? || counterpart.value >= |connections| || !connections[counterpart.value].open {
        Close(c);
        return;
      }
      SendOn(c, counterpart.value, m.bytes, m.buffered, m.throws);
    }

    method Handle(c: nat, m: Message)
      requires c < |connections|
      modifies this
      ensures State() == OnMessage(old(State()), limits, c, m)
    {
      if connections[c].closed { return; }
      match connections[c].phase
      case Refused =>
      case Registering => HandleRegistration(c, m);
      case Registered(_, _) => HandleFrame(c, m);
    }

    /**
     * One message on one socket. A well-formed registration must win its ticket first; `admitted` says whether it did,
     * and then that ticket was authentic, in scope and is used up.
     */
    method HandleMessage(
      c: nat, binary: bool, bytes: nat, claim: Option<Claim>, revoked: bool, now: int, later: int, buffered: nat,
      throws: bool)
      returns (admitted: bool, ghost message: Message)
      requires Valid() && tickets.Valid() && c < |connections|
      modifies this, tickets
      ensures Valid() && tickets.Valid()
      ensures message ==
        Message(binary, bytes,
                if claim.None? then None else Some(Registration(claim.value.routingId, claim.value.role)), admitted,
                now, buffered, throws)
      ensures State() == Step(old(State()), limits, Received(c, message))
      ensures admitted <==>
        && !old(connections[c].closed) && old(connections[c].phase.Registering?)
        && !binary && bytes <= MAX_REGISTRATION_BYTES && claim.Some?
        && Wins(tickets.verifies, tickets.read, claim.value, revoked, old(routes), old(tickets.State()), now, later,
             tickets.maxTrackedTickets)
      ensures !old(IsRegistered(State(), c)) && IsRegistered(State(), c) ==>
        && admitted && claim.Some? && FiledAs(State(), c, claim.value)
        && Redeemed(tickets.verifies, tickets.read, claim.value, old(tickets.log), tickets.log)
    {
      admitted := false;
      var x := connections[c];
      if !x.closed && x.phase.Registering? && !binary && bytes <= MAX_REGISTRATION_BYTES && claim.Some? {
        admitted := TakeTicket(claim.value, revoked, now, later);
      }
      var registration :=
        if claim.None? then None else Some(Registration(claim.value.routingId, claim.value.role));
      var m := Message(binary, bytes, registration,
                       admitted, now, buffered, throws);
      message := m;
      StepKeepsGood(State(), limits, Received(c, m));
      if !IsRegistered(State(), c) { OnlyAdmittedRegister(State(), limits, c, m); }
      Handle(c, m);
    }
  }
}
