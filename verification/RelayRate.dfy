/** The rate limit of one relay peer, in frames and in bytes, over any run of the server. */
module RelayRate {
  import opened Wrappers
  import opened SlidingWindow
  import opened RelayState
  import opened RelayInvariants

  // ----- what one step does to the counters of one connection -----

  /** The event is a binary message of the registered connection `c`, which the limiter counts. */
  predicate Counts(r: Relay, e: Event, c: nat) {
    && e.Received? && e.c == c && c < |r.connections| && !r.connections[c].closed
    && r.connections[c].phase.Registered? && e.message.binary
  }

  predicate SameRate(x: Connection, y: Connection) {
    x.windowStartedAt == y.windowStartedAt && x.frames == y.frames && x.bytes == y.bytes
  }

  ghost predicate RateUntouched(a: Relay, b: Relay) {
    && |a.connections| <= |b.connections|
    && (forall c | 0 <= c < |a.connections| :: SameRate(a.connections[c], b.connections[c]))
    && (forall c | 0 <= c < |b.connections| :: b.connections[c].phase.Registered? ==> IsRegistered(a, c))
  }

  lemma {:induction false} ReportRate(r: Relay, s: nat, failed: bool)
    requires s < |r.sends| && r.sends[s].to < |r.connections|
    ensures RateUntouched(r, OnSent(r, s, failed))
  {
  }

  lemma {:induction false} QueueRate(r: Relay, from: nat, to: nat, bytes: nat)
    requires to < |r.connections|
    ensures var queued := Queue(r, from, to, bytes);
      && RateUntouched(r, queued) && |queued.sends| == |r.sends| + 1 && queued.sends[|r.sends|].to == to
      && |queued.connections| == |r.connections|
  {
  }

  lemma {:induction false} RouteRate(r: Relay, id: string)
    ensures RateUntouched(r, CloseRoute(r, id))
  {
  }

  lemma {:induction false} ForwardRate(r: Relay, l: Limits, from: nat, to: nat, bytes: nat, buffered: nat, throws: bool)
    requires to < |r.connections|
    ensures RateUntouched(r, Forward(r, l, from, to, bytes, buffered, throws))
  {
    hide CloseRoute, Queue, OnSent, Backpressure;
    var queued := Queue(r, from, to, bytes);
    QueueRate(r, from, to, bytes);
    RouteRate(r, RouteOf(r.connections[to]));
    ReportRate(queued, |r.sends|, true);
  }

  lemma {:induction false} FrameRate(r: Relay, l: Limits, c: nat, m: Message)
    requires c < |r.connections| && r.connections[c].phase.Registered? && m.binary
    ensures RateUntouched(With(r, c, ConsumeRate(r.connections[c], m.now, m.bytes)), OnFrame(r, l, c, m))
  {
    var charged := With(r, c, ConsumeRate(r.connections[c], m.now, m.bytes));
    var to := Lookup(r.routes, r.connections[c].phase.routingId, Opposite(r.connections[c].phase.role));
    if to.Some? && to.value < |r.connections| {
      ForwardRate(charged, l, c, to.value, m.bytes, m.buffered, m.throws);
    }
  }

  /** Counters change by the connection's own counted messages, and start afresh when it registers. */
  ghost predicate RateAfter(r: Relay, after: Relay, e: Event, c: nat) {
    && (IsRegistered(r, c) ==> IsRegistered(after, c))
    && (Counts(r, e, c) ==>
          SameRate(after.connections[c], ConsumeRate(r.connections[c], e.message.now, e.message.bytes)))
    && (IsRegistered(r, c) && !Counts(r, e, c) ==> SameRate(after.connections[c], r.connections[c]))
    && (!IsRegistered(r, c) && IsRegistered(after, c) ==>
          && e.Received? && e.c == c && after.connections[c].windowStartedAt == e.message.now
          && after.connections[c].frames == 0 && after.connections[c].bytes == 0)
  }

  lemma {:induction false} RegistrationRate(r: Relay, from: nat, m: Message, c: nat)
    requires from < |r.connections| && r.connections[from].phase.Registering?
    ensures RateAfter(r, OnRegistration(r, from, m), Received(from, m), c)
  {
  }

  lemma {:induction false} CountedRate(r: Relay, l: Limits, from: nat, m: Message, c: nat)
    requires from < |r.connections| && r.connections[from].phase.Registered? && m.binary && !r.connections[from].closed
    ensures RateAfter(r, OnFrame(r, l, from, m), Received(from, m), c)
  {
    FrameRate(r, l, from, m);
    var charged := With(r, from, ConsumeRate(r.connections[from], m.now, m.bytes));
    var after := OnFrame(r, l, from, m);
    assert RateUntouched(charged, after);
    assert IsRegistered(r, c) <==> IsRegistered(charged, c);
    FrameKeepsPhases(r, l, from, m);
  }

  lemma {:induction false} FrameKeepsPhases(r: Relay, l: Limits, from: nat, m: Message)
    requires from < |r.connections| && r.connections[from].phase.Registered? && !r.connections[from].closed
    ensures PhasesKept(r, OnFrame(r, l, from, m))
  {
    MessageKeepsPhases(r, l, from, m);
  }

  lemma {:induction false} MessageRate(r: Relay, l: Limits, from: nat, m: Message, c: nat)
    requires from < |r.connections|
    ensures RateAfter(r, OnMessage(r, l, from, m), Received(from, m), c)
  {
    var x := r.connections[from];
    if x.closed || x.phase.Refused? {
      assert OnMessage(r, l, from, m) == r;
    } else if x.phase.Registering? {
      RegistrationRate(r, from, m, c);
      assert OnMessage(r, l, from, m) == OnRegistration(r, from, m);
    } else if m.binary {
      CountedRate(r, l, from, m, c);
      assert OnMessage(r, l, from, m) == OnFrame(r, l, from, m);
    } else {
      assert OnMessage(r, l, from, m) == CloseSocket(r, from);
    }
  }

  lemma {:induction false} ClosingRate(r: Relay, c: nat)
    requires c < |r.connections|
    ensures RateUntouched(r, OnClose(r, c)) && RateUntouched(r, OnTimeout(r, c))
  {
  }

  lemma {:induction false} OtherEventsRate(r: Relay, l: Limits, e: Event)
    requires !e.Received? && !e.Sent?
    ensures RateUntouched(r, Step(r, l, e)) && PhasesKept(r, Step(r, l, e))
  {
    StepKeepsPhases(r, l, e);
    if e.RouteRevoked? {
      assert Step(r, l, e) == CloseRoute(r, e.routingId);
    } else if e.Closed? || e.TimedOut? {
      if e.c < |r.connections| { ClosingRate(r, e.c); }
    } else if e.Upgraded? {
      assert Step(r, l, e) == OnUpgrade(r, l, e.clients, e.source, e.now);
    }
  }

  lemma {:induction false} StepRate(r: Relay, l: Limits, e: Event, c: nat)
    ensures RateAfter(r, Step(r, l, e), e, c)
  {
    if e.Received? {
      if e.c < |r.connections| {
        MessageRate(r, l, e.c, e.message, c);
        assert Step(r, l, e) == OnMessage(r, l, e.c, e.message);
      }
    } else if e.Sent? {
      StepKeepsPhases(r, l, e);
      if e.send < |r.sends| && r.sends[e.send].to < |r.connections| { ReportRate(r, e.send, e.failed); }
    } else {
      OtherEventsRate(r, l, e);
    }
  }

  // ----- what passes, over a run -----

  function Used(x: Connection, bytes: bool): nat { if bytes then x.bytes else x.frames }

  function Weight(m: Message, bytes: bool): nat { if bytes then m.bytes else 1 }

  function Cap(bytes: bool): nat { if bytes then MAX_BYTES_PER_WINDOW else MAX_FRAMES_PER_WINDOW }

  /** The messages of `c` that pass the limiter, weighed in bytes or each as one frame. */
  function Passed(now: int, l: Limits, events: seq<Event>, c: nat, bytes: bool): seq<Grant<()>> {
    if events == [] then []
    else
      var front, e := events[..|events| - 1], events[|events| - 1];
      var r := RelayState.Run(now, l, front);
      Passed(now, l, front, c, bytes) +
      if !Counts(r, e, c) then []
      else
        var after := ConsumeRate(r.connections[c], e.message.now, e.message.bytes);
        if WithinRate(after) then [Grant(e.message.now, after.windowStartedAt, (), Weight(e.message, bytes))] else []
  }

  /** The last clock reading the limiter took for `c`, starting with that of its registration. */
  function Reading(now: int, l: Limits, events: seq<Event>, c: nat): int {
    if events == [] then now
    else
      var front, e := events[..|events| - 1], events[|events| - 1];
      var r := RelayState.Run(now, l, front);
      if Counts(r, e, c) || (IsRegistered(Step(r, l, e), c) && !IsRegistered(r, c) && e.Received?) then e.message.now
      else Reading(now, l, front, c)
  }

  /** None of those readings is below the one before. */
  ghost predicate SteadyFor(now: int, l: Limits, events: seq<Event>, c: nat) {
    events == [] ||
    var front, e := events[..|events| - 1], events[|events| - 1];
    && SteadyFor(now, l, front, c)
    && (Counts(RelayState.Run(now, l, front), e, c) ==> Reading(now, l, front, c) <= e.message.now)
  }

  // ----- the limit -----

  /** What passed stays within the limit in every window, and in the current one within what was used. */
  ghost predicate Fits(h: seq<Grant<()>>, clock: int, start: int, used: nat, limit: nat) {
    && start <= clock && Windowed(h, None, RATE_WINDOW_MS)
    && (forall i | 0 <= i < |h| :: h[i].at <= clock && (h[i].start == start || h[i].start + RATE_WINDOW_MS <= start))
    && (forall s :: InWindow(h, None, s) <= limit)
    && InWindow(h, None, start) <= used
  }

  lemma {:induction false} FitsAfterRoll(h: seq<Grant<()>>, clock: int, start: int, used: nat, limit: nat, now: int)
    requires Fits(h, clock, start, used, limit) && clock <= now && now - start >= RATE_WINDOW_MS
    ensures Fits(h, now, now, 0, limit)
  {
    assert forall i | 0 <= i < |h| :: h[i].start + RATE_WINDOW_MS <= now;
    EmptyWindow(h, None, now);
  }

  lemma {:induction false} FitsAfterMessage(
    h: seq<Grant<()>>, clock: int, start: int, used: nat, limit: nat, now: int, weight: nat, passes: bool)
    requires Fits(h, clock, start, used, limit) && clock <= now < start + RATE_WINDOW_MS
    requires passes ==> used + weight <= limit
    ensures Fits(h + if passes then [Grant(now, start, (), weight)] else [], now, start, used + weight, limit)
  {
    if passes {
      var g := Grant(now, start, (), weight);
      forall s: int
        ensures InWindow(h + [g], None, s) == InWindow(h, None, s) + (if s == start then weight else 0)
      {
        CountOneMore(h, g, None, s);
      }
    } else {
      assert h + [] == h;
    }
  }

  /** One counted message. */
  lemma {:induction false} FitsAfter(h: seq<Grant<()>>, clock: int, x: Connection, m: Message, bytes: bool)
    requires Fits(h, clock, x.windowStartedAt, Used(x, bytes), Cap(bytes)) && clock <= m.now
    ensures var after := ConsumeRate(x, m.now, m.bytes);
      Fits(h + if WithinRate(after) then [Grant(m.now, after.windowStartedAt, (), Weight(m, bytes))] else [],
           m.now, after.windowStartedAt, Used(after, bytes), Cap(bytes))
  {
    var after := ConsumeRate(x, m.now, m.bytes);
    var weight := Weight(m, bytes);
    if m.now - x.windowStartedAt >= RATE_WINDOW_MS {
      FitsAfterRoll(h, clock, x.windowStartedAt, Used(x, bytes), Cap(bytes), m.now);
      FitsAfterMessage(h, m.now, m.now, 0, Cap(bytes), m.now, weight, WithinRate(after));
    } else {
      FitsAfterMessage(h, clock, x.windowStartedAt, Used(x, bytes), Cap(bytes), m.now, weight, WithinRate(after));
    }
  }

  lemma {:induction false} NothingPassedYet(now: int, l: Limits, events: seq<Event>, c: nat, bytes: bool)
    requires !IsRegistered(RelayState.Run(now, l, events), c)
    ensures Passed(now, l, events, c, bytes) == []
  {
    if events != [] {
      var front := events[..|events| - 1];
      StepRate(RelayState.Run(now, l, front), l, events[|events| - 1], c);
      NothingPassedYet(now, l, front, c, bytes);
    }
  }

  /** In every run what a connection passed fits the counters it has. */
  lemma {:induction false} PassedFits(now: int, l: Limits, events: seq<Event>, c: nat, bytes: bool)
    requires SteadyFor(now, l, events, c) && IsRegistered(RelayState.Run(now, l, events), c)
    ensures var x := RelayState.Run(now, l, events).connections[c];
      Fits(Passed(now, l, events, c, bytes), Reading(now, l, events, c), x.windowStartedAt, Used(x, bytes), Cap(bytes))
  {
    var front, e := events[..|events| - 1], events[|events| - 1];
    var r := RelayState.Run(now, l, front);
    StepRate(r, l, e, c);
    if IsRegistered(r, c) {
      PassedFits(now, l, front, c, bytes);
      if Counts(r, e, c) {
        FitsAfter(Passed(now, l, front, c, bytes), Reading(now, l, front, c), r.connections[c], e.message, bytes);
      } else {
        assert Passed(now, l, events, c, bytes) == Passed(now, l, front, c, bytes);
      }
    } else {
      NothingPassedYet(now, l, front, c, bytes);
    }
  }

  /**
   * In every run of the server, whatever else happens in it: as long as the readings taken for one connection do not
   * step back, no ten seconds let more than twice the frames or bytes of one window pass from it.
   */
  lemma {:induction false} PeerSlidingBound(now: int, l: Limits, events: seq<Event>, c: nat, from: int)
    requires SteadyFor(now, l, events, c)
    ensures Between(Passed(now, l, events, c, false), None, from, RATE_WINDOW_MS) <= 2 * MAX_FRAMES_PER_WINDOW
    ensures Between(Passed(now, l, events, c, true), None, from, RATE_WINDOW_MS) <= 2 * MAX_BYTES_PER_WINDOW
  {
    forall bytes: bool
      ensures Between(Passed(now, l, events, c, bytes), None, from, RATE_WINDOW_MS) <= 2 * Cap(bytes)
    {
      if IsRegistered(RelayState.Run(now, l, events), c) {
        PassedFits(now, l, events, c, bytes);
      } else {
        NothingPassedYet(now, l, events, c, bytes);
      }
      AtMostTwice(Passed(now, l, events, c, bytes), None, RATE_WINDOW_MS, Cap(bytes), from);
    }
  }

  /** A message is forwarded only if it passed: nothing else of a connection goes on. */
  lemma {:induction false} ForwardedOnlyIfPassed(r: Relay, l: Limits, e: Event)
    requires Table(r) && Step(r, l, e).deliveries != r.deliveries
    ensures e.Received? && Counts(r, e, e.c)
    ensures WithinRate(ConsumeRate(r.connections[e.c], e.message.now, e.message.bytes))
  {
    FrameGoesToCounterpart(r, l, e);
  }
}
