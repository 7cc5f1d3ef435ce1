/** What the relay server keeps in every run: its route table, its counters and where frames go. */
module RelayInvariants {
  import opened Wrappers
  import opened SlidingWindow
  import opened KeyedWindow
  import opened RelayTickets
  import opened RelayState

  // ----- registration is for good -----

  ghost predicate PhasesKept(before: Relay, after: Relay) {
    && |before.connections| <= |after.connections|
    && (forall c | 0 <= c < |before.connections| && before.connections[c].phase.Registered? ::
          after.connections[c].phase == before.connections[c].phase)
  }

  lemma {:induction false} ForwardKeepsPhases(
    r: Relay, l: Limits, from: nat, to: nat, bytes: nat, buffered: nat, throws: bool)
    requires to < |r.connections|
    ensures PhasesKept(r, Forward(r, l, from, to, bytes, buffered, throws))
    ensures |Forward(r, l, from, to, bytes, buffered, throws).connections| == |r.connections|
  {
  }

  lemma {:induction false} MessageKeepsPhases(r: Relay, l: Limits, c: nat, m: Message)
    requires c < |r.connections|
    ensures PhasesKept(r, OnMessage(r, l, c, m))
  {
    var phase := r.connections[c].phase;
    if phase.Registered? {
      var charged := With(r, c, ConsumeRate(r.connections[c], m.now, m.bytes));
      var to := Lookup(r.routes, phase.routingId, Opposite(phase.role));
      if to.Some? && to.value < |r.connections| {
        ForwardKeepsPhases(charged, l, c, to.value, m.bytes, m.buffered, m.throws);
      }
    }
  }

  lemma {:induction false} CloseRouteKeepsPhases(r: Relay, id: string)
    ensures PhasesKept(r, CloseRoute(r, id))
  {
  }

  lemma {:induction false} StepKeepsPhases(r: Relay, l: Limits, e: Event)
    ensures PhasesKept(r, Step(r, l, e))
  {
    match e
    case Received(c, m) => if c < |r.connections| { MessageKeepsPhases(r, l, c, m); }
    case Sent(s, failed) =>
      if s < |r.sends| && r.sends[s].to < |r.connections| {
        CloseRouteKeepsPhases(Release(r, s), RouteOf(r.connections[r.sends[s].to]));
      }
    case RouteRevoked(id) => CloseRouteKeepsPhases(r, id);
    case _ =>
  }

  // ----- the route table -----

  /** Whoever is filed belongs there and has not closed; no route is empty. */
  ghost predicate Filed(r: Relay) {
    && (forall id, role :: Lookup(r.routes, id, role).Some? ==>
          var c := Lookup(r.routes, id, role).value;
          c < |r.connections| && r.connections[c].phase == Registered(id, role) && !r.connections[c].closed)
    && (forall id | id in r.routes :: r.routes[id] != Route(None, None))
  }

  /** A registered connection with an open socket is the one in the table. */
  ghost predicate OpenAreFiled(r: Relay) {
    forall c | 0 <= c < |r.connections| && r.connections[c].phase.Registered? && r.connections[c].open ::
      Lookup(r.routes, r.connections[c].phase.routingId, r.connections[c].phase.role) == Some(c)
  }

  ghost predicate Table(r: Relay) { Filed(r) && OpenAreFiled(r) }

  /** The table does not see counters, and sees fewer open sockets when some close. */
  lemma {:induction false} SameTable(a: Relay, b: Relay)
    requires Table(a) && a.routes == b.routes && |a.connections| == |b.connections|
    requires forall c | 0 <= c < |a.connections| ::
      && a.connections[c].closed == b.connections[c].closed
      && (a.connections[c].phase.Registered? || b.connections[c].phase.Registered? ==>
           a.connections[c].phase == b.connections[c].phase)
      && (b.connections[c].open ==> a.connections[c].open)
    ensures Table(b)
  {
  }

  lemma {:induction false} RegisterKeepsTable(r: Relay, c: nat, id: string, role: Role, now: int)
    requires Table(r) && c < |r.connections| && r.connections[c].phase.Registering? && !r.connections[c].closed
    requires Lookup(r.routes, id, role).None?
    ensures Table(Register(r, c, id, role, now))
  {
    var after := Register(r, c, id, role, now);
    forall i, x
      ensures Lookup(after.routes, i, x) == if i == id && x == role then Some(c) else Lookup(r.routes, i, x)
    {
    }
  }

  lemma {:induction false} CloseRouteLooksUp(r: Relay, id: string, other: string, role: Role)
    ensures Lookup(CloseRoute(r, id).routes, other, role) == if other == id then None else Lookup(r.routes, other, role)
  {
  }

  lemma {:induction false} CloseRouteKeepsTable(r: Relay, id: string)
    requires Table(r)
    ensures Table(CloseRoute(r, id))
  {
    var after := CloseRoute(r, id);
    forall i, role ensures Lookup(after.routes, i, role) == if i == id then None else Lookup(r.routes, i, role) {
      CloseRouteLooksUp(r, id, i, role);
    }
    forall c | 0 <= c < |after.connections| && after.connections[c].phase.Registered? && after.connections[c].open
      ensures after.connections[c].phase.routingId != id
    {
      assert Lookup(r.routes, r.connections[c].phase.routingId, r.connections[c].phase.role) == Some(c);
    }
  }

  lemma {:induction false} OnCloseKeepsTable(r: Relay, c: nat)
    requires Table(r) && c < |r.connections|
    ensures Table(OnClose(r, c))
  {
    if !r.connections[c].closed {
      var gone := ReleasePending(With(r, c, r.connections[c].(open := false, closed := true)), c);
      var after := OnClose(r, c);
      forall id, role
        ensures Lookup(after.routes, id, role) == if Lookup(r.routes, id, role) == Some(c) then None
          else Lookup(r.routes, id, role)
      {
        assert Lookup(r.routes, id, role) == Some(c) ==> r.connections[c].phase == Registered(id, role);
      }
    }
  }

  lemma {:induction false} ForwardKeepsTable(
    r: Relay, l: Limits, from: nat, to: nat, bytes: nat, buffered: nat, throws: bool)
    requires Table(r) && to < |r.connections|
    ensures Table(Forward(r, l, from, to, bytes, buffered, throws))
  {
    var id := RouteOf(r.connections[to]);
    CloseRouteKeepsTable(r, id);
    var queued := Queue(r, from, to, bytes);
    SameTable(r, queued);
    var released := Release(queued, |r.sends|);
    SameTable(queued, released);
    CloseRouteKeepsTable(released, id);
  }

  lemma {:induction false} RegisteringKeepsTable(r: Relay, c: nat, m: Message)
    requires Table(r) && c < |r.connections| && r.connections[c].phase.Registering? && !r.connections[c].closed
    ensures Table(OnRegistration(r, c, m))
  {
    SameTable(r, CloseSocket(Refuse(r, c), c));
    SameTable(r, CloseSocket(ReleasePending(Refuse(r, c), c), c));
    if m.registration.Some? {
      var reg := m.registration.value;
      if Lookup(r.routes, reg.routingId, reg.role).None? {
        RegisterKeepsTable(r, c, reg.routingId, reg.role, m.now);
        var registered := Register(r, c, reg.routingId, reg.role, m.now);
        SameTable(registered, ReleasePending(registered, c));
      }
    }
  }

  lemma {:induction false} RelayingKeepsTable(r: Relay, l: Limits, c: nat, m: Message)
    requires Table(r) && c < |r.connections| && r.connections[c].phase.Registered?
    ensures Table(OnFrame(r, l, c, m))
  {
    var phase := r.connections[c].phase;
    var charged := With(r, c, ConsumeRate(r.connections[c], m.now, m.bytes));
    SameTable(r, charged);
    SameTable(r, CloseSocket(r, c));
    SameTable(charged, CloseSocket(charged, c));
    var to := Lookup(r.routes, phase.routingId, Opposite(phase.role));
    if to.Some? {
      ForwardKeepsTable(charged, l, c, to.value, m.bytes, m.buffered, m.throws);
    }
  }

  lemma {:induction false} MessageKeepsTable(r: Relay, l: Limits, c: nat, m: Message)
    requires Table(r) && c < |r.connections|
    ensures Table(OnMessage(r, l, c, m))
  {
    if !r.connections[c].closed {
      match r.connections[c].phase
      case Refused =>
      case Registering => RegisteringKeepsTable(r, c, m);
      case Registered(_, _) => RelayingKeepsTable(r, l, c, m);
    }
  }

  lemma {:induction false} StepKeepsTable(r: Relay, l: Limits, e: Event)
    requires Table(r)
    ensures Table(Step(r, l, e))
  {
    match e
    case Upgraded(_, _, _) =>
    case Received(c, m) => if c < |r.connections| { MessageKeepsTable(r, l, c, m); }
    case Closed(c) => if c < |r.connections| { OnCloseKeepsTable(r, c); }
    case Sent(s, failed) =>
      if s < |r.sends| && r.sends[s].to < |r.connections| {
        SameTable(r, Release(r, s));
        CloseRouteKeepsTable(Release(r, s), RouteOf(r.connections[r.sends[s].to]));
      }
    case RouteRevoked(id) => CloseRouteKeepsTable(r, id);
    case _ => SameTable(r, Step(r, l, e));
  }

  /** The close event of one connection takes nobody else out of the table. */
  lemma {:induction false} ClosingSparesOthers(r: Relay, c: nat, id: string, role: Role)
    requires Table(r) && c < |r.connections|
    ensures Lookup(OnClose(r, c).routes, id, role) ==
      if Lookup(r.routes, id, role) == Some(c) then None else Lookup(r.routes, id, role)
  {
    if r.connections[c].closed {
      assert Lookup(r.routes, id, role) != Some(c);
    } else {
      var gone := ReleasePending(With(r, c, r.connections[c].(open := false, closed := true)), c);
      assert Lookup(r.routes, id, role) == Some(c) ==> r.connections[c].phase == Registered(id, role);
      UnregisterOnly(gone, c, id, role);
    }
  }

  lemma {:induction false} UnregisterOnly(r: Relay, c: nat, id: string, role: Role)
    requires c < |r.connections|
    requires Lookup(r.routes, id, role) == Some(c) ==> r.connections[c].phase == Registered(id, role)
    ensures Lookup(Unregister(r, c).routes, id, role) ==
      if Lookup(r.routes, id, role) == Some(c) then None else Lookup(r.routes, id, role)
  {
  }

  /**
   * A report on a send unfiles whoever has a place by then, exactly when it is a failure and the place belongs to the
   * route that the send's connection registered under; that connection itself may be long gone.
   */
  lemma {:induction false} ReportUnfilesExactly(r: Relay, l: Limits, s: nat, failed: bool, id: string, role: Role)
    requires Table(r) && SendsKnown(r) && s < |r.sends|
    ensures var place, after := Lookup(r.routes, id, role), Step(r, l, Sent(s, failed));
      var unfiles := failed && place.Some? && r.connections[r.sends[s].to].phase.routingId == id;
      && Lookup(after.routes, id, role) == (if unfiles then None else place)
      && (unfiles ==> !after.connections[place.value].open)
  {
    var released := Release(r, s);
    SameTable(r, released);
    CloseRouteLooksUp(released, RouteOf(r.connections[r.sends[s].to]), id, role);
  }

  predicate Waiting(r: Relay, c: nat) {
    c < |r.connections| && r.connections[c].phase.Registering? && r.connections[c].open && !r.connections[c].closed
  }

  function Registers(id: string, role: Role): Message {
    Message(false, 100, Some(Registration(id, role)), true, 0, 0, false)
  }

  predicate IsOpen(r: Relay, c: nat) { c < |r.connections| && r.connections[c].open }

  /** Registering at a free place files the connection, and touches neither sends nor any other connection. */
  lemma {:induction false} RegistersAt(r: Relay, l: Limits, c: nat, id: string, role: Role)
    requires Waiting(r, c) && Lookup(r.routes, id, role).None?
    ensures var after := Step(r, l, Received(c, Registers(id, role)));
      && (forall other, x :: Lookup(after.routes, other, x) ==
            if other == id && x == role then Some(c) else Lookup(r.routes, other, x))
      && |after.connections| == |r.connections| && after.sends == r.sends && after.queuedBytes == r.queuedBytes
      && (forall d | 0 <= d < |r.connections| && d != c :: after.connections[d] == r.connections[d])
      && after.connections[c] == Connection(Registered(id, role), true, false, false, 0, 0, 0, 0)
  {
    var after := ReleasePending(Register(r, c, id, role, 0), c);
    assert Step(r, l, Received(c, Registers(id, role))) == after;
    forall other, x
      ensures Lookup(after.routes, other, x) == if other == id && x == role then Some(c) else Lookup(r.routes, other, x)
    {
    }
  }

  /** So the failed report on a send to a closed connection unfiles and closes the newcomer that took its place. */
  lemma {:induction false} FailedReportClosesNewcomer(
    r: Relay, l: Limits, c: nat, s: nat, newcomer: nat, id: string, role: Role)
    requires Table(r) && SendsKnown(r) && Lookup(r.routes, id, role) == Some(c)
    requires s < |r.sends| && r.sends[s].to == c && Waiting(r, newcomer)
    ensures var left := Step(r, l, Closed(c));
      var taken := Step(left, l, Received(newcomer, Registers(id, role)));
      var reported := Step(taken, l, Sent(s, true));
      && Lookup(taken.routes, id, role) == Some(newcomer) && IsOpen(taken, newcomer)
      && Lookup(reported.routes, id, role).None? && !IsOpen(reported, newcomer)
  {
    var left := Step(r, l, Closed(c));
    ClosingSparesOthers(r, c, id, role);
    StepKeepsTable(r, l, Closed(c));
    RegistersAt(left, l, newcomer, id, role);
    var taken := Step(left, l, Received(newcomer, Registers(id, role)));
    StepKeepsTable(left, l, Received(newcomer, Registers(id, role)));
    assert SendsKnown(taken);
    ReportUnfilesExactly(taken, l, s, true, id, role);
  }

  const ROOMY := Limits(10, 10, 10, 10, 1000, 1000, 1000)

  lemma {:induction false} OneMore(events: seq<Event>, e: Event) returns (longer: seq<Event>)
    ensures RelayState.Run(0, ROOMY, longer) == Step(RelayState.Run(0, ROOMY, events), ROOMY, e)
  {
    longer := events + [e];
    assert longer[..|events|] == events;
  }

  ghost predicate Fresh(r: Relay, n: nat) {
    && r.routes == map[] && r.sends == [] && r.queuedBytes == 0 && r.pendingConnections == n == |r.connections|
    && r.window.total == n && r.window.startedAt == 0 && CountOf(r.window.bySource, "source") == n
    && (forall c | 0 <= c < n :: Waiting(r, c))
  }

  lemma {:induction false} OneMoreWaits(r: Relay, n: nat)
    requires Fresh(r, n) && n < 10
    ensures Fresh(Step(r, ROOMY, Upgraded(0, Some("source"), 0)), n + 1)
  {
    var after := Step(r, ROOMY, Upgraded(0, Some("source"), 0));
    assert after.connections == r.connections + [Connection(Registering, true, false, true, 0, 0, 0, 0)];
    forall c | 0 <= c < n + 1 ensures Waiting(after, c) {
      assert c < n ==> Waiting(r, c);
    }
  }

  lemma {:induction false} SomeWait(n: nat)
    requires n <= 3
    ensures exists events: seq<Event> :: Fresh(RelayState.Run(0, ROOMY, events), n)
  {
    if n == 0 {
      assert Fresh(RelayState.Run(0, ROOMY, []), 0);
    } else {
      SomeWait(n - 1);
      var events: seq<Event> :| Fresh(RelayState.Run(0, ROOMY, events), n - 1);
      OneMoreWaits(RelayState.Run(0, ROOMY, events), n - 1);
      var longer := OneMore(events, Upgraded(0, Some("source"), 0));
      assert Fresh(RelayState.Run(0, ROOMY, longer), n);
    }
  }

  lemma {:induction false} FrameIsQueued(r: Relay, from: nat, to: nat)
    requires from < |r.connections| && r.connections[from].phase == Registered("route", Device)
      && !r.connections[from].closed
    requires Lookup(r.routes, "route", Host) == Some(to) && to < |r.connections| && to != from && r.connections[to].open
    requires r.queuedBytes == 0 && r.connections[to].queuedBytes == 0
    requires r.connections[from].frames == 0 && r.connections[from].bytes == 0
      && r.connections[from].windowStartedAt == 0
    ensures var after := Step(r, ROOMY, Received(from, Message(true, 10, None, false, 0, 0, false)));
      && after.routes == r.routes && after.sends == r.sends + [Send(to, 10, false)]
      && |after.connections| == |r.connections|
      && (forall d | 0 <= d < |r.connections| && d != from && d != to :: after.connections[d] == r.connections[d])
  {
    var charged := With(r, from, ConsumeRate(r.connections[from], 0, 10));
    assert Step(r, ROOMY, Received(from, Message(true, 10, None, false, 0, 0, false))) == Queue(charged, from, to, 10);
  }

  /** A server with a frame in flight to the host of a route, and one more connection that has yet to register. */
  lemma {:induction false} NewcomerIsReachable()
    ensures exists events: seq<Event> ::
      var r := RelayState.Run(0, ROOMY, events);
      Lookup(r.routes, "route", Host) == Some(0) && r.sends == [Send(0, 10, false)] && Waiting(r, 2)
  {
    SomeWait(3);
    var events: seq<Event> :| Fresh(RelayState.Run(0, ROOMY, events), 3);
    var fresh3 := RelayState.Run(0, ROOMY, events);
    assert Waiting(fresh3, 0) && Waiting(fresh3, 1) && Waiting(fresh3, 2);
    var hosted := OneMore(events, Received(0, Registers("route", Host)));
    RegistersAt(fresh3, ROOMY, 0, "route", Host);
    var paired := OneMore(hosted, Received(1, Registers("route", Device)));
    RegistersAt(RelayState.Run(0, ROOMY, hosted), ROOMY, 1, "route", Device);
    var sent := OneMore(paired, Received(1, Message(true, 10, None, false, 0, 0, false)));
    FrameIsQueued(RelayState.Run(0, ROOMY, paired), 1, 0);
    assert Waiting(RelayState.Run(0, ROOMY, sent), 2);
  }

  // ----- pending connections -----

  function CountPending(connections: seq<Connection>): nat {
    if connections == [] then 0
    else CountPending(connections[..|connections| - 1]) + (if connections[|connections| - 1].pending then 1 else 0)
  }

  ghost predicate Pending(r: Relay, l: Limits) {
    r.pendingConnections == CountPending(r.connections) && r.pendingConnections <= l.maxPendingConnections
  }

  lemma {:induction false} SamePending(a: seq<Connection>, b: seq<Connection>)
    requires |a| == |b| && forall c | 0 <= c < |a| :: a[c].pending == b[c].pending
    ensures CountPending(a) == CountPending(b)
  {
    if a != [] {
      assert forall c | 0 <= c < |a| - 1 :: a[..|a| - 1][c] == a[c] && b[..|b| - 1][c] == b[c];
      SamePending(a[..|a| - 1], b[..|b| - 1]);
    }
  }

  lemma {:induction false} OneLessPending(a: seq<Connection>, c: nat, x: Connection)
    requires c < |a| && a[c].pending && !x.pending
    ensures CountPending(a[c := x]) == CountPending(a) - 1
  {
    var last := |a| - 1;
    if c == last {
      assert a[c := x][..last] == a[..last];
    } else {
      assert a[c := x][..last] == a[..last][c := x];
      OneLessPending(a[..last], c, x);
    }
  }

  /** The clamp on the pending counter never takes effect. */
  lemma {:induction false} ReleaseKeepsPending(r: Relay, l: Limits, c: nat)
    requires Pending(r, l) && c < |r.connections|
    ensures Pending(ReleasePending(r, c), l)
    ensures ReleasePending(r, c).pendingConnections ==
      r.pendingConnections - (if r.connections[c].pending then 1 else 0)
  {
    if r.connections[c].pending {
      OneLessPending(r.connections, c, r.connections[c].(pending := false));
    }
  }

  ghost predicate PendingUntouched(a: Relay, b: Relay) {
    && a.pendingConnections == b.pendingConnections && |a.connections| == |b.connections|
    && (forall c | 0 <= c < |a.connections| :: a.connections[c].pending == b.connections[c].pending)
  }

  lemma {:induction false} ForwardUntouched(
    r: Relay, l: Limits, from: nat, to: nat, bytes: nat, buffered: nat, throws: bool)
    requires to < |r.connections|
    ensures PendingUntouched(r, Forward(r, l, from, to, bytes, buffered, throws))
  {
  }

  lemma {:induction false} RelayingUntouched(r: Relay, l: Limits, c: nat, m: Message)
    requires c < |r.connections| && r.connections[c].phase.Registered?
    ensures PendingUntouched(r, OnFrame(r, l, c, m))
  {
    var charged := With(r, c, ConsumeRate(r.connections[c], m.now, m.bytes));
    var to := Lookup(r.routes, r.connections[c].phase.routingId, Opposite(r.connections[c].phase.role));
    if to.Some? && to.value < |r.connections| {
      ForwardUntouched(charged, l, c, to.value, m.bytes, m.buffered, m.throws);
    }
  }

  lemma {:induction false} UntouchedKeepsPending(a: Relay, b: Relay, l: Limits)
    requires Pending(a, l) && PendingUntouched(a, b)
    ensures Pending(b, l)
  {
    SamePending(a.connections, b.connections);
  }

  lemma {:induction false} RefusalKeepsPending(r: Relay, l: Limits, c: nat)
    requires Pending(r, l) && c < |r.connections|
    ensures Pending(CloseSocket(Refuse(r, c), c), l)
    ensures Pending(CloseSocket(ReleasePending(Refuse(r, c), c), c), l)
  {
    var refused := Refuse(r, c);
    UntouchedKeepsPending(r, refused, l);
    UntouchedKeepsPending(refused, CloseSocket(refused, c), l);
    ReleaseKeepsPending(refused, l, c);
    UntouchedKeepsPending(ReleasePending(refused, c), CloseSocket(ReleasePending(refused, c), c), l);
  }

  lemma {:induction false} MessageKeepsPending(r: Relay, l: Limits, c: nat, m: Message)
    requires Pending(r, l) && c < |r.connections|
    ensures Pending(OnMessage(r, l, c, m), l)
  {
    match r.connections[c].phase
    case Refused =>
    case Registering =>
      RefusalKeepsPending(r, l, c);
      if m.registration.Some? {
        var registered := Register(r, c, m.registration.value.routingId, m.registration.value.role, m.now);
        UntouchedKeepsPending(r, registered, l);
        ReleaseKeepsPending(registered, l, c);
      }
    case Registered(_, _) =>
      RelayingUntouched(r, l, c, m);
      UntouchedKeepsPending(r, OnFrame(r, l, c, m), l);
  }

  lemma {:induction false} ClosingKeepsPending(r: Relay, l: Limits, c: nat)
    requires Pending(r, l) && c < |r.connections|
    ensures Pending(OnClose(r, c), l)
  {
    var gone := With(r, c, r.connections[c].(open := false, closed := true));
    UntouchedKeepsPending(r, gone, l);
    ReleaseKeepsPending(gone, l, c);
  }

  lemma {:induction false} UpgradeKeepsPending(r: Relay, l: Limits, clients: nat, source: Option<string>, now: int)
    requires Pending(r, l)
    ensures Pending(OnUpgrade(r, l, clients, source, now), l)
  {
    var after := OnUpgrade(r, l, clients, source, now);
    assert after.connections == r.connections || after.connections[..|r.connections|] == r.connections;
  }

  lemma {:induction false} StepKeepsPending(r: Relay, l: Limits, e: Event)
    requires Pending(r, l)
    ensures Pending(Step(r, l, e), l)
  {
    hide Pending;
    match e
    case Upgraded(clients, source, now) => UpgradeKeepsPending(r, l, clients, source, now);
    case HandshakeEnded(c) => if c < |r.connections| { ReleaseKeepsPending(r, l, c); }
    case Received(c, m) => if c < |r.connections| { MessageKeepsPending(r, l, c, m); }
    case TimedOut(c) => if c < |r.connections| { RefusalKeepsPending(r, l, c); }
    case Closed(c) => if c < |r.connections| { ClosingKeepsPending(r, l, c); }
    case _ => UntouchedKeepsPending(r, Step(r, l, e), l);
  }

  /** A connection that registered or closed has given back its place. */
  ghost predicate PlacesReturned(r: Relay) {
    forall c | 0 <= c < |r.connections| && (r.connections[c].closed || r.connections[c].phase.Registered?) ::
      !r.connections[c].pending
  }

  ghost predicate PlacesUntouched(a: Relay, b: Relay) {
    && |a.connections| == |b.connections|
    && (forall c | 0 <= c < |a.connections| ::
          && (b.connections[c].pending ==> a.connections[c].pending)
          && (b.connections[c].closed ==> a.connections[c].closed || !b.connections[c].pending)
          && (b.connections[c].phase.Registered? ==> a.connections[c].phase.Registered? || !b.connections[c].pending))
  }

  lemma {:induction false} UntouchedReturns(a: Relay, b: Relay)
    requires PlacesReturned(a) && PlacesUntouched(a, b)
    ensures PlacesReturned(b)
  {
  }

  lemma {:induction false} CloseRouteReturns(r: Relay, id: string)
    requires PlacesReturned(r)
    ensures PlacesReturned(CloseRoute(r, id))
  {
    UntouchedReturns(r, CloseRoute(r, id));
  }

  lemma {:induction false} SentReturns(r: Relay, s: nat, failed: bool)
    requires PlacesReturned(r) && s < |r.sends| && r.sends[s].to < |r.connections|
    ensures PlacesReturned(OnSent(r, s, failed))
  {
    UntouchedReturns(r, Release(r, s));
    CloseRouteReturns(Release(r, s), RouteOf(r.connections[r.sends[s].to]));
  }

  lemma {:induction false} ForwardReturns(
    r: Relay, l: Limits, from: nat, to: nat, bytes: nat, buffered: nat, throws: bool)
    requires PlacesReturned(r) && to < |r.connections|
    ensures PlacesReturned(Forward(r, l, from, to, bytes, buffered, throws))
  {
    CloseRouteReturns(r, RouteOf(r.connections[to]));
    var queued := Queue(r, from, to, bytes);
    UntouchedReturns(r, queued);
    if throws { SentReturns(queued, |r.sends|, true); }
  }

  lemma {:induction false} FrameReturns(r: Relay, l: Limits, c: nat, m: Message)
    requires PlacesReturned(r) && c < |r.connections| && r.connections[c].phase.Registered?
    ensures PlacesReturned(OnFrame(r, l, c, m))
  {
    var charged := With(r, c, ConsumeRate(r.connections[c], m.now, m.bytes));
    UntouchedReturns(r, charged);
    UntouchedReturns(r, CloseSocket(r, c));
    UntouchedReturns(charged, CloseSocket(charged, c));
    var to := Lookup(r.routes, r.connections[c].phase.routingId, Opposite(r.connections[c].phase.role));
    if to.Some? && to.value < |r.connections| {
      ForwardReturns(charged, l, c, to.value, m.bytes, m.buffered, m.throws);
    }
  }

  lemma {:induction false} RegistrationReturns(r: Relay, c: nat, m: Message)
    requires PlacesReturned(r) && c < |r.connections|
    ensures PlacesReturned(OnRegistration(r, c, m))
  {
    UntouchedReturns(r, OnRegistration(r, c, m));
  }

  lemma {:induction false} ClosingReturns(r: Relay, c: nat)
    requires PlacesReturned(r) && c < |r.connections|
    ensures PlacesReturned(OnClose(r, c)) && PlacesReturned(OnTimeout(r, c))
  {
    UntouchedReturns(r, OnClose(r, c));
    UntouchedReturns(r, OnTimeout(r, c));
  }

  lemma {:induction false} MessageReturns(r: Relay, l: Limits, c: nat, m: Message)
    requires PlacesReturned(r) && c < |r.connections|
    ensures PlacesReturned(OnMessage(r, l, c, m))
  {
    match r.connections[c].phase
    case Refused =>
    case Registering => RegistrationReturns(r, c, m);
    case Registered(_, _) => FrameReturns(r, l, c, m);
  }

  lemma {:induction false} StepReturnsPlaces(r: Relay, l: Limits, e: Event)
    requires PlacesReturned(r)
    ensures PlacesReturned(Step(r, l, e))
  {
    match e
    case Upgraded(_, _, _) =>
    case Received(c, m) => if c < |r.connections| { MessageReturns(r, l, c, m); }
    case TimedOut(c) => if c < |r.connections| { ClosingReturns(r, c); }
    case Closed(c) => if c < |r.connections| { ClosingReturns(r, c); }
    case Sent(s, failed) => if s < |r.sends| && r.sends[s].to < |r.connections| { SentReturns(r, s, failed); }
    case RouteRevoked(id) => CloseRouteReturns(r, id);
    case HandshakeEnded(c) => if c < |r.connections| { UntouchedReturns(r, ReleasePending(r, c)); }
    case Leaving(c) => if c < |r.connections| { UntouchedReturns(r, CloseSocket(r, c)); }
  }

  // ----- byte accounting -----

  /** Bytes of the unreleased sends, to one connection or to all. */
  function Outstanding(sends: seq<Send>, to: Option<nat>): nat {
    if sends == [] then 0
    else
      var last := sends[|sends| - 1];
      Outstanding(sends[..|sends| - 1], to)
      + (if !last.released && (to.None? || to.value == last.to) then last.bytes else 0)
  }

  lemma {:induction false} OneMoreSend(sends: seq<Send>, send: Send, to: Option<nat>)
    ensures Outstanding(sends + [send], to) ==
      Outstanding(sends, to) + (if !send.released && (to.None? || to.value == send.to) then send.bytes else 0)
  {
    assert (sends + [send])[..|sends|] == sends;
  }

  lemma {:induction false} OneSendReleased(sends: seq<Send>, s: nat, to: Option<nat>)
    requires s < |sends| && !sends[s].released
    ensures Outstanding(sends, to) ==
      Outstanding(sends[s := sends[s].(released := true)], to)
      + (if to.None? || to.value == sends[s].to then sends[s].bytes else 0)
  {
    var after, last := sends[s := sends[s].(released := true)], |sends| - 1;
    if s == last {
      assert after[..last] == sends[..last];
    } else {
      assert after[..last] == sends[..last][s := sends[s].(released := true)];
      OneSendReleased(sends[..last], s, to);
    }
  }

  lemma {:induction false} NothingOutstanding(sends: seq<Send>, to: nat)
    requires forall i | 0 <= i < |sends| :: sends[i].to != to
    ensures Outstanding(sends, Some(to)) == 0
  {
    if sends != [] {
      assert forall i | 0 <= i < |sends| - 1 :: sends[..|sends| - 1][i] == sends[i];
      NothingOutstanding(sends[..|sends| - 1], to);
    }
  }

  ghost predicate SendsKnown(r: Relay) {
    forall i | 0 <= i < |r.sends| :: r.sends[i].to < |r.connections| && r.connections[r.sends[i].to].phase.Registered?
  }

  /** Every counter is the sum of the sends still outstanding, and within its limit. */
  ghost predicate Balanced(r: Relay, l: Limits) {
    && r.queuedBytes == Outstanding(r.sends, None) && r.queuedBytes <= l.maxQueuedBytesGlobal
    && (forall c | 0 <= c < |r.connections| ::
          r.connections[c].queuedBytes == Outstanding(r.sends, Some(c))
            && r.connections[c].queuedBytes <= l.maxQueuedBytesPerPeer)
  }

  ghost predicate Accounts(r: Relay, l: Limits) { SendsKnown(r) && Balanced(r, l) }

  ghost predicate AccountsUntouched(a: Relay, b: Relay) {
    && a.sends == b.sends && a.queuedBytes == b.queuedBytes && |a.connections| == |b.connections|
    && (forall c | 0 <= c < |a.connections| ::
          a.connections[c].queuedBytes == b.connections[c].queuedBytes
          && (a.connections[c].phase.Registered? ==> b.connections[c].phase.Registered?))
  }

  lemma {:induction false} UntouchedKeepsAccounts(a: Relay, b: Relay, l: Limits)
    requires AccountsUntouched(a, b) && Accounts(a, l)
    ensures Accounts(b, l)
  {
  }

  lemma {:induction false} QueueKeepsAccounts(r: Relay, l: Limits, from: nat, to: nat, bytes: nat, buffered: nat)
    requires Accounts(r, l) && to < |r.connections| && r.connections[to].phase.Registered?
    requires !Backpressure(r, l, to, bytes, buffered)
    ensures Accounts(Queue(r, from, to, bytes), l)
  {
    var send := Send(to, bytes, false);
    OneMoreSend(r.sends, send, None);
    forall c | 0 <= c < |r.connections|
      ensures Outstanding(r.sends + [send], Some(c)) == Outstanding(r.sends, Some(c)) + (if c == to then bytes else 0)
    {
      OneMoreSend(r.sends, send, Some(c));
    }
  }

  /** The clamps on the byte counters never take effect, and a second report releases nothing. */
  lemma {:induction false} ReleaseKeepsAccounts(r: Relay, l: Limits, s: nat)
    requires Accounts(r, l) && s < |r.sends|
    ensures Accounts(Release(r, s), l)
    ensures var given := if r.sends[s].released then 0 else r.sends[s].bytes;
      && Release(r, s).queuedBytes == r.queuedBytes - given
      && Release(r, s).connections[r.sends[s].to].queuedBytes == r.connections[r.sends[s].to].queuedBytes - given
  {
    var send := r.sends[s];
    if !send.released {
      var after := r.sends[s := send.(released := true)];
      OneSendReleased(r.sends, s, None);
      forall c | 0 <= c < |r.connections|
        ensures Outstanding(r.sends, Some(c)) == Outstanding(after, Some(c)) + (if c == send.to then send.bytes else 0)
      {
        OneSendReleased(r.sends, s, Some(c));
      }
    }
  }

  lemma {:induction false} OnSentKeepsAccounts(r: Relay, l: Limits, s: nat, failed: bool)
    requires Accounts(r, l) && s < |r.sends|
    ensures Accounts(OnSent(r, s, failed), l)
  {
    ReleaseKeepsAccounts(r, l, s);
    var released, id := Release(r, s), RouteOf(r.connections[r.sends[s].to]);
    UntouchedKeepsAccounts(released, CloseRoute(released, id), l);
  }

  lemma {:induction false} ForwardKeepsAccounts(
    r: Relay, l: Limits, from: nat, to: nat, bytes: nat, buffered: nat, throws: bool)
    requires Accounts(r, l) && to < |r.connections| && r.connections[to].phase.Registered?
    ensures Accounts(Forward(r, l, from, to, bytes, buffered, throws), l)
  {
    if Backpressure(r, l, to, bytes, buffered) {
      UntouchedKeepsAccounts(r, CloseRoute(r, RouteOf(r.connections[to])), l);
    } else {
      QueueKeepsAccounts(r, l, from, to, bytes, buffered);
      if throws { OnSentKeepsAccounts(Queue(r, from, to, bytes), l, |r.sends|, true); }
    }
  }

  lemma {:induction false} RegisterKeepsAccounts(r: Relay, l: Limits, c: nat, id: string, role: Role, now: int)
    requires Accounts(r, l) && c < |r.connections| && !r.connections[c].phase.Registered?
    ensures Accounts(Register(r, c, id, role, now), l)
  {
    NothingOutstanding(r.sends, c);
  }

  lemma {:induction false} MessageKeepsAccounts(r: Relay, l: Limits, c: nat, m: Message)
    requires Accounts(r, l) && Table(r) && c < |r.connections|
    ensures Accounts(OnMessage(r, l, c, m), l)
  {
    var x := r.connections[c];
    if !x.closed {
      match x.phase
      case Refused =>
      case Registering =>
        if m.registration.Some? {
          var registered := Register(r, c, m.registration.value.routingId, m.registration.value.role, m.now);
          RegisterKeepsAccounts(r, l, c, m.registration.value.routingId, m.registration.value.role, m.now);
          UntouchedKeepsAccounts(registered, ReleasePending(registered, c), l);
        }
        UntouchedKeepsAccounts(r, CloseSocket(Refuse(r, c), c), l);
        UntouchedKeepsAccounts(r, CloseSocket(ReleasePending(Refuse(r, c), c), c), l);
      case Registered(_, _) => RelayingKeepsAccounts(r, l, c, m);
    }
  }

  lemma {:induction false} RelayingKeepsAccounts(r: Relay, l: Limits, c: nat, m: Message)
    requires Accounts(r, l) && Table(r) && c < |r.connections| && r.connections[c].phase.Registered?
    ensures Accounts(OnFrame(r, l, c, m), l)
  {
    var phase := r.connections[c].phase;
    var charged := With(r, c, ConsumeRate(r.connections[c], m.now, m.bytes));
    UntouchedKeepsAccounts(r, charged, l);
    UntouchedKeepsAccounts(charged, CloseSocket(charged, c), l);
    UntouchedKeepsAccounts(r, CloseSocket(r, c), l);
    var to := Lookup(r.routes, phase.routingId, Opposite(phase.role));
    if to.Some? {
      ForwardKeepsAccounts(charged, l, c, to.value, m.bytes, m.buffered, m.throws);
    }
  }

  lemma {:induction false} UpgradeKeepsAccounts(r: Relay, l: Limits, clients: nat, source: Option<string>, now: int)
    requires Accounts(r, l)
    ensures Accounts(OnUpgrade(r, l, clients, source, now), l)
  {
    NothingOutstanding(r.sends, |r.connections|);
  }

  lemma {:induction false} OtherEventsSpareAccounts(r: Relay, l: Limits, e: Event)
    requires !e.Upgraded? && !e.Received? && !e.Sent?
    ensures AccountsUntouched(r, Step(r, l, e))
  {
  }

  lemma {:induction false} StepKeepsAccounts(r: Relay, l: Limits, e: Event)
    requires Accounts(r, l) && Table(r)
    ensures Accounts(Step(r, l, e), l)
  {
    match e
    case Upgraded(clients, source, now) => UpgradeKeepsAccounts(r, l, clients, source, now);
    case Received(c, m) => if c < |r.connections| { MessageKeepsAccounts(r, l, c, m); }
    case Sent(s, failed) => if s < |r.sends| { OnSentKeepsAccounts(r, l, s, failed); }
    case _ =>
      OtherEventsSpareAccounts(r, l, e);
      UntouchedKeepsAccounts(r, Step(r, l, e), l);
  }

  // ----- where frames go -----

  /** Every frame went to a connection of the other role under the sender's routing id. */
  ghost predicate Delivered(r: Relay) {
    forall i | 0 <= i < |r.deliveries| ::
      var d := r.deliveries[i];
      && d.from < |r.connections| && d.to < |r.connections|
      && r.connections[d.from].phase.Registered?
      && r.connections[d.to].phase ==
           Registered(r.connections[d.from].phase.routingId, Opposite(r.connections[d.from].phase.role))
  }

  /** One step forwards at most one frame, to the open counterpart filed in the table at that moment. */
  lemma {:induction false} FrameGoesToCounterpart(r: Relay, l: Limits, e: Event)
    requires Table(r)
    ensures Step(r, l, e).deliveries != r.deliveries ==>
      && e.Received? && e.c < |r.connections| && !r.connections[e.c].closed && r.connections[e.c].phase.Registered?
      && var to := Lookup(r.routes, r.connections[e.c].phase.routingId, Opposite(r.connections[e.c].phase.role));
         to.Some? && to.value < |r.connections| && r.connections[to.value].open
         && Step(r, l, e).deliveries == r.deliveries + [Delivery(e.c, to.value)]
  {
  }

  lemma {:induction false} StepKeepsDelivered(r: Relay, l: Limits, e: Event)
    requires Delivered(r) && Table(r)
    ensures Delivered(Step(r, l, e))
  {
    StepKeepsPhases(r, l, e);
    FrameGoesToCounterpart(r, l, e);
  }

  // ----- admissions -----

  ghost predicate Admissions(w: Window, l: Limits) {
    && w.total == SumOf(w.bySource)
    && w.total <= l.maxUpgradesPerWindow
    && (w.steady ==>
          Ledger(w.grants, l.upgradeWindowMs, w.clock, w.startedAt, w.total, w.bySource,
                 l.maxUpgradesPerWindow, l.maxUpgradesPerSource))
  }

  lemma {:induction false} RollKeepsAdmissions(w: Window, l: Limits, now: int)
    requires Admissions(w, l) && 1 <= l.upgradeWindowMs
    ensures Admissions(Rolled(w, l, now), l)
  {
    if w.steady && w.clock <= now && now - w.startedAt >= l.upgradeWindowMs {
      NewWindow(w.grants, l.upgradeWindowMs, w.clock, w.startedAt, w.total, w.bySource, l.maxUpgradesPerWindow,
        l.maxUpgradesPerSource, now);
    }
  }

  lemma {:induction false} GrantKeepsAdmissions(w: Window, l: Limits, source: string)
    requires Admissions(w, l) && w.clock - w.startedAt < l.upgradeWindowMs
    requires w.total < l.maxUpgradesPerWindow && CountOf(w.bySource, source) < l.maxUpgradesPerSource
    ensures Admissions(Granted(w, source), l)
  {
    SumBumped(w.bySource, source);
    if w.steady {
      OneMoreGrant(w.grants, l.upgradeWindowMs, w.clock, w.startedAt, w.total, w.bySource,
                   l.maxUpgradesPerWindow, l.maxUpgradesPerSource, w.clock, source);
    }
  }

  lemma {:induction false} UpgradeKeepsAdmissions(r: Relay, l: Limits, clients: nat, source: Option<string>, now: int)
    requires Admissions(r.window, l) && 1 <= l.upgradeWindowMs
    ensures Admissions(OnUpgrade(r, l, clients, source, now).window, l)
  {
    RollKeepsAdmissions(r.window, l, now);
    if source.Some? && AdmitUpgrade(r, l, clients, source, now).1.None? {
      GrantKeepsAdmissions(Rolled(r.window, l, now), l, source.value);
    }
  }

  lemma {:induction false} OtherEventsKeepWindow(r: Relay, l: Limits, e: Event)
    requires !e.Upgraded?
    ensures Step(r, l, e).window == r.window
  {
  }

  /** With a clock that never steps back, no window-long interval sees more than twice the admissions of one window. */
  lemma {:induction false} AdmissionSlidingBound(r: Relay, l: Limits, source: string, from: int)
    requires Admissions(r.window, l) && r.window.steady
    ensures Between(r.window.grants, None, from, l.upgradeWindowMs) <= 2 * l.maxUpgradesPerWindow
    ensures Between(r.window.grants, Some(source), from, l.upgradeWindowMs) <= 2 * l.maxUpgradesPerSource
  {
    AtMostTwice(r.window.grants, None, l.upgradeWindowMs, l.maxUpgradesPerWindow, from);
    AtMostTwice(r.window.grants, Some(source), l.upgradeWindowMs, l.maxUpgradesPerSource, from);
  }

  // ----- every run -----

  ghost predicate Good(r: Relay, l: Limits) {
    Table(r) && Pending(r, l) && PlacesReturned(r) && Accounts(r, l) && Delivered(r) && Admissions(r.window, l)
  }

  lemma {:induction false} StepKeepsGood(r: Relay, l: Limits, e: Event)
    requires Good(r, l) && 1 <= l.upgradeWindowMs
    ensures Good(Step(r, l, e), l)
  {
    StepKeepsTable(r, l, e);
    StepKeepsPending(r, l, e);
    StepReturnsPlaces(r, l, e);
    StepKeepsAccounts(r, l, e);
    StepKeepsDelivered(r, l, e);
    if e.Upgraded? {
      UpgradeKeepsAdmissions(r, l, e.clients, e.source, e.now);
    } else {
      OtherEventsKeepWindow(r, l, e);
    }
  }

  lemma {:induction false} EveryRunIsGood(now: int, l: Limits, events: seq<Event>)
    requires 1 <= l.upgradeWindowMs
    ensures Good(RelayState.Run(now, l, events), l)
  {
    if events != [] {
      EveryRunIsGood(now, l, events[..|events| - 1]);
      StepKeepsGood(RelayState.Run(now, l, events[..|events| - 1]), l, events[|events| - 1]);
    }
  }

  // ----- stopping -----

  /** What stop() does to the counters while sends are still outstanding. */
  function Stopped(r: Relay): Relay {
    r.(routes := map[], pendingConnections := 0, queuedBytes := 0, window := r.window.(bySource := map[]))
  }

  /** Accounting survives a stop exactly when nothing was outstanding. */
  lemma {:induction false} StopKeepsTotal(r: Relay, l: Limits)
    requires Balanced(r, l)
    ensures Balanced(Stopped(r), l) <==> Outstanding(r.sends, None) == 0
  {
  }
}
